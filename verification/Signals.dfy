// Signal delivery: c/signal.c, the delivery at a context switch (c/ctsw.c), and
// handle_syscall_sigreturn of c/disp.c.
module Signals {
  import opened Bits
  import opened Masks

  // ------------------------------------------------------------- frames

  // A delivered signal whose handler has not returned: where the stack was, and the
  // result that was to be given to the process.
  datatype Frame = Frame(sp: int, ret: int, signal: nat)

  const CONTEXT_FRAME: int := 44
  const PUSHED: int := 16

  // What was pushed for a frame is still there.
  predicate Kept(f: Frame, memory: map<int, int>) {
    && f.sp - 4 in memory && memory[f.sp - 4] == f.ret
    && f.sp - 8 in memory && memory[f.sp - 8] == f.sp
  }

  predicate AllKept(frames: seq<Frame>, memory: map<int, int>) {
    forall i :: 0 <= i < |frames| ==> Kept(frames[i], memory)
  }

  // Frames lie below each other, and the stack below them.
  predicate Stacked(frames: seq<Frame>, esp: int) {
    && (forall i, j :: 0 <= i < j < |frames| ==> frames[j].sp <= frames[i].sp - PUSHED)
    && (frames != [] ==> esp <= frames[|frames| - 1].sp - PUSHED)
  }

  predicate Runs(frames: seq<Frame>, m: nat) {
    exists i :: 0 <= i < |frames| && frames[i].signal == m
  }

  // Signals are nested in strictly increasing priority.
  ghost predicate Ascending(frames: seq<Frame>) {
    && (forall i :: 0 <= i < |frames| ==> frames[i].signal < SIGNAL_TABLE_SIZE)
    && (forall i, j :: 0 <= i < j < |frames| ==> frames[i].signal < frames[j].signal)
  }

  // A signal above the last one that runs.
  predicate Highest(frames: seq<Frame>, n: nat) {
    frames == [] || frames[|frames| - 1].signal < n
  }

  // The mask holds exactly the signals of the frames.
  ghost predicate Masked(frames: seq<Frame>, enabled: nat) {
    enabled <= ALL && forall m: nat :: m < SIGNAL_TABLE_SIZE ==> (Bit(enabled, m) == 1 <==> Runs(frames, m))
  }

  lemma PushFrame(frames: seq<Frame>, enabled: nat, f: Frame)
    requires Masked(frames, enabled) && Ascending(frames) && f.signal < SIGNAL_TABLE_SIZE
    requires Highest(frames, f.signal)
    ensures Masked(frames + [f], SetBit(enabled, f.signal)) && Ascending(frames + [f])
  {
    MaskBounds(enabled, f.signal);
    var frames' := frames + [f];
    assert frames'[|frames|] == f;
    forall m: nat | m < SIGNAL_TABLE_SIZE
      ensures Bit(SetBit(enabled, f.signal), m) == 1 <==> Runs(frames', m)
    {
      MaskBits(enabled, f.signal, m);
      if Runs(frames, m) {
        var i :| 0 <= i < |frames| && frames[i].signal == m;
        assert frames'[i].signal == m;
      }
    }
  }

  lemma PushNested(frames: seq<Frame>, enabled: nat, f: Frame)
    requires Masked(frames, enabled) && Ascending(frames) && f.signal < SIGNAL_TABLE_SIZE
    ensures Ascending(frames + [f]) && Masked(frames + [f], SetBit(enabled, f.signal)) <==> Highest(frames, f.signal)
  {
    if Highest(frames, f.signal) {
      PushFrame(frames, enabled, f);
    } else {
      var frames' := frames + [f];
      assert frames'[|frames|] == f && frames'[|frames| - 1] == frames[|frames| - 1];
    }
  }

  lemma PopFrame(frames: seq<Frame>, enabled: nat)
    requires Masked(frames, enabled) && Ascending(frames) && frames != []
    ensures enabled > 0 && Top(enabled) == frames[|frames| - 1].signal
    ensures Shl(1, Top(enabled)) <= ALL && Masked(frames[..|frames| - 1], ClearBit(enabled, Top(enabled)))
  {
    TopRuns(frames, enabled);
    var h, rest := frames[|frames| - 1].signal, frames[..|frames| - 1];
    MaskBounds(enabled, h);
    forall m: nat | m < SIGNAL_TABLE_SIZE
      ensures Bit(ClearBit(enabled, h), m) == 1 <==> Runs(rest, m)
    {
      MaskBits(enabled, h, m);
      if Runs(rest, m) {
        var i :| 0 <= i < |rest| && rest[i].signal == m;
        assert frames[i].signal == m;
      }
      if Runs(frames, m) && m != h {
        var i :| 0 <= i < |frames| && frames[i].signal == m;
        assert rest[i].signal == m;
      }
    }
  }

  // The highest signal in the mask is that of the last frame.
  lemma TopRuns(frames: seq<Frame>, enabled: nat)
    requires Masked(frames, enabled) && Ascending(frames) && frames != []
    ensures enabled > 0 && Top(enabled) == frames[|frames| - 1].signal
  {
    var h := frames[|frames| - 1].signal;
    assert Runs(frames, h);
    AllOnes();
    forall m: nat | h + 1 <= m < WORD ensures Bit(enabled, m) == 0 {
      assert !Runs(frames, m);
    }
    HighZeros(enabled, h + 1, WORD);
    TopIs(enabled, h);
  }

  lemma NoneRuns(enabled: nat)
    requires Masked([], enabled)
    ensures enabled == 0
  {
    AllOnes();
    forall m: nat | m < WORD ensures Bit(enabled, m) == 0 {
      assert !Runs([], m);
    }
    HighZeros(enabled, 0, WORD);
  }

  // The mask when so many handlers have returned.
  function Cleared(enabled: nat, n: nat): nat
    requires enabled <= ALL
    ensures Cleared(enabled, n) <= ALL
    decreases n
  {
    if n == 0 || enabled == 0 then enabled
    else
      TopSmall(enabled);
      MaskBounds(enabled, Top(enabled));
      Cleared(ClearBit(enabled, Top(enabled)), n - 1)
  }

  // While signals interrupt only lower ones, each return finds its signal in the mask, and
  // the last one leaves it empty.
  lemma {:induction false} ReturnsFound(frames: seq<Frame>, enabled: nat, n: nat)
    requires Masked(frames, enabled) && Ascending(frames) && n <= |frames|
    ensures MaskAfter(frames, enabled, n)
    decreases n
  {
    if n == 0 {
      assert frames[..|frames|] == frames;
    } else {
      PopFrame(frames, enabled);
      var rest := frames[..|frames| - 1];
      ReturnsFound(rest, ClearBit(enabled, Top(enabled)), n - 1);
      assert rest[..|rest| - (n - 1)] == frames[..|frames| - n];
    }
    EmptyMask(frames[..|frames| - n], Cleared(enabled, n));
  }

  ghost predicate MaskAfter(frames: seq<Frame>, enabled: nat, n: nat)
    requires enabled <= ALL && n <= |frames|
  {
    Masked(frames[..|frames| - n], Cleared(enabled, n)) && (Cleared(enabled, n) == 0 <==> n == |frames|)
  }

  lemma EmptyMask(frames: seq<Frame>, mask: nat)
    requires Masked(frames, mask) && Ascending(frames)
    ensures mask == 0 <==> frames == []
  {
    if frames == [] { NoneRuns(mask); } else { TopRuns(frames, mask); }
  }

  // A signal that interrupts its own handler is in the mask only once. The first of the two
  // returns takes it out, though its handler still runs; the second takes out the next lower
  // one instead, or finds none. If all return, it is the last that finds none, and the
  // search for the highest bit then never ends.
  lemma SelfInterrupt(frames: seq<Frame>, enabled: nat, f: Frame)
    requires Masked(frames, enabled) && Ascending(frames)
    requires frames != [] && f.signal == frames[|frames| - 1].signal
    ensures SetBit(enabled, f.signal) == enabled && !Ascending(frames + [f])
    ensures forall n: nat :: 0 < n <= |frames| ==> !Masked((frames + [f])[..|frames| + 1 - n], Cleared(enabled, n))
    ensures forall n: nat :: n <= |frames| ==> (Cleared(enabled, n) == 0 <==> n == |frames|)
  {
    assert Runs(frames, f.signal);
    SetAgain(frames, enabled, f.signal);
    assert (frames + [f])[|frames|] == f && (frames + [f])[|frames| - 1] == frames[|frames| - 1];
    forall n: nat | 0 < n <= |frames|
      ensures !Masked((frames + [f])[..|frames| + 1 - n], Cleared(enabled, n))
    {
      ReturnsFound(frames, enabled, n);
      LateFrame(frames, frames + [f], Cleared(enabled, n), n);
    }
    forall n: nat | n <= |frames| ensures Cleared(enabled, n) == 0 <==> n == |frames| {
      ReturnsFound(frames, enabled, n);
    }
  }

  lemma SetAgain(frames: seq<Frame>, enabled: nat, n: nat)
    requires Masked(frames, enabled) && n < SIGNAL_TABLE_SIZE && Runs(frames, n)
    ensures SetBit(enabled, n) == enabled
  {
    MaskBounds(enabled, n);
    forall m: nat | m < SIGNAL_TABLE_SIZE ensures Bit(SetBit(enabled, n), m) == 1 <==> Runs(frames, m) {
      MaskBits(enabled, n, m);
    }
    MaskUnique(frames, SetBit(enabled, n), enabled);
  }

  // The frame that is left has its signal no more in the mask.
  lemma LateFrame(frames: seq<Frame>, frames': seq<Frame>, mask: nat, n: nat)
    requires Ascending(frames) && 0 < n <= |frames| && frames <= frames'
    requires Masked(frames[..|frames| - n], mask)
    ensures !Masked(frames'[..|frames| + 1 - n], mask)
  {
    var h := frames[|frames| - n].signal;
    assert frames'[..|frames| + 1 - n][|frames| - n].signal == h;
    assert Runs(frames'[..|frames| + 1 - n], h) && !Runs(frames[..|frames| - n], h);
  }

  // Words below the frames do not matter to them.
  lemma BelowKept(frames: seq<Frame>, memory: map<int, int>, memory': map<int, int>, top: int)
    requires AllKept(frames, memory) && Stacked(frames, top)
    requires forall a :: a in memory && a >= top + PUSHED - 8 ==> a in memory' && memory'[a] == memory[a]
    ensures AllKept(frames, memory')
  {
    forall i | 0 <= i < |frames| ensures Kept(frames[i], memory') {
      assert Kept(frames[i], memory);
    }
  }

  lemma FrameKept(frames: seq<Frame>, memory: map<int, int>, f: Frame, esp: int)
    requires AllKept(frames, memory) && Stacked(frames, f.sp) && Kept(f, memory) && esp <= f.sp - PUSHED
    ensures AllKept(frames + [f], memory) && Stacked(frames + [f], esp)
  {
  }

  // ------------------------------------------------------------- a process

  // The part of a PCB that signals are about, and the memory of its stack in words.
  class Task {
    var memory: map<int, int>
    var esp: int
    var ret: int
    var enabled: nat
    var pending: nat
    var table: seq<int>
    // Signals delivered whose handlers have not returned; the program does not read it.
    var frames: seq<Frame>

    ghost predicate Valid()
      reads this
    {
      && |table| == SIGNAL_TABLE_SIZE && pending <= ALL && enabled <= ALL
      && AllKept(frames, memory) && Stacked(frames, esp)
    }

    // Signals have interrupted only lower ones.
    ghost predicate Nested()
      reads this
    {
      Ascending(frames) && Masked(frames, enabled)
    }

    // A process just created: no handler of it runs, but what was left pending in its slot
    // still is, and is delivered at the first switch if it is anything.
    constructor (esp: int, table: seq<int>, left: nat)
      requires |table| == SIGNAL_TABLE_SIZE && left <= ALL
      ensures Valid() && Nested() && frames == [] && enabled == 0 && pending == left
      ensures this.esp == esp && this.table == table
    {
      this.esp, this.table, pending := esp, table, left;
      memory, ret, enabled, frames := map[], 0, 0, [];
      new;
      forall m: nat | m < SIGNAL_TABLE_SIZE ensures Bit(enabled, m) == 0 {
        ZeroBit(m);
      }
    }

    // set_pcb_signal, without what it does to a blocked process.
    method SetPending(n: int) returns (ret: int)
      requires Valid()
      modifies this`pending
      ensures Valid()
      ensures ret == if 0 <= n < SIGNAL_TABLE_SIZE then 0 else -561
      ensures pending == if 0 <= n < SIGNAL_TABLE_SIZE && table[n] != 0 then SetBit(old(pending), n) else old(pending)
    {
      if n < 0 || n >= SIGNAL_TABLE_SIZE { return -561; }
      if table[n] != 0 {
        MaskBounds(pending, n);
        pending := SetBit(pending, n);
      }
      ret := 0;
    }

    // signal: save the result and the stack pointer, and make the process run the
    // handler.
    method Signal(n: nat)
      requires Valid() && n < SIGNAL_TABLE_SIZE
      modifies this`memory, this`esp, this`enabled, this`frames
      ensures Valid() && frames == old(frames) + [Frame(old(esp), ret, n)]
      ensures esp == old(esp) - PUSHED - CONTEXT_FRAME && enabled == SetBit(old(enabled), n)
      ensures old(Nested()) ==> (Nested() <==> Highest(old(frames), n))
    {
      var f := Frame(esp, ret, n);
      ghost var before := memory;
      if Nested() { PushNested(frames, enabled, f); }
      MaskBounds(enabled, n);
      enabled := SetBit(enabled, n);
      PushContext(table[n]);
      BelowKept(frames, before, memory, f.sp);
      FrameKept(frames, memory, f, esp);
      frames := frames + [f];
    }

    // Lines 38-59 of c/signal.c
    method PushContext(handler: int)
      modifies this`memory, this`esp
      ensures esp == old(esp) - PUSHED - CONTEXT_FRAME
      ensures old(esp) - 4 in memory && memory[old(esp) - 4] == ret
      ensures old(esp) - 8 in memory && memory[old(esp) - 8] == old(esp)
      ensures forall a :: a in old(memory) && a >= old(esp) ==> a in memory && memory[a] == old(memory)[a]
    {
      var sp := esp;
      sp := sp - 4;
      memory := memory[sp := ret];
      sp := sp - 4;
      memory := memory[sp := esp];
      sp := sp - 4;
      memory := memory[sp := handler];
      sp := sp - 4;
      memory := memory[sp := 0xBADA555];
      esp := sp - CONTEXT_FRAME;
      ghost var pushed := memory;
      memory := InitContext(memory, esp);
      ContextBelow(pushed, esp);
    }

    // deliver_highest_priority_signal. It interrupts handlers of lower signals only, if
    // they interrupt only lower ones and its own does not run.
    method DeliverHighest()
      requires Valid() && pending > 0
      modifies this
      ensures Valid() && Shl(1, Top(old(pending))) <= ALL
      ensures if old(pending > enabled) then
                && frames == old(frames) + [Frame(old(esp), old(ret), Top(old(pending)))]
                && pending == ClearBit(old(pending), Top(old(pending)))
                && enabled == SetBit(old(enabled), Top(old(pending)))
              else
                frames == old(frames) && esp == old(esp) && pending == old(pending) && enabled == old(enabled)
      ensures old(Nested() && !Runs(frames, Top(pending))) ==>
        Nested() && (old(pending > enabled) <==> Highest(old(frames), Top(old(pending))))
      ensures ret == old(ret) && table == old(table)
    {
      var h := HighestBit(pending);
      MaskBounds(pending, h);
      if Nested() && !Runs(frames, h) {
        HigherOnly(frames, enabled, pending);
      }
      if pending > enabled {
        pending := ClearBit(pending, h);
        Signal(h);
      }
    }

    // handle_syscall_sigreturn, of a good address. With no signal in the mask it searches
    // forever.
    method Return(oldSp: int) returns (found: bool)
      requires oldSp - 4 in memory && enabled <= ALL
      modifies this`ret, this`esp, this`enabled
      ensures ret == memory[oldSp - 4] && esp == oldSp
      ensures found <==> old(enabled) > 0
      ensures enabled == Cleared(old(enabled), 1)
    {
      ret := memory[oldSp - 4];
      esp := oldSp;
      found := enabled > 0;
      if found {
        var highest := HighestBit(enabled);
        MaskBounds(enabled, highest);
        enabled := ClearBit(enabled, highest);
      }
    }

    // The same from the end of a handler: of the one that was started last.
    method SigReturn(oldSp: int) returns (found: bool)
      requires Valid() && frames != [] && oldSp == frames[|frames| - 1].sp
      modifies this`ret, this`esp, this`enabled, this`frames
      ensures Valid() && frames == old(frames)[..|old(frames)| - 1]
      ensures ret == old(frames)[|old(frames)| - 1].ret && esp == oldSp
      ensures enabled == Cleared(old(enabled), 1) && (found <==> old(enabled) > 0)
      ensures old(Nested()) ==> found && Nested()
    {
      ghost var f := frames[|frames| - 1];
      assert Kept(f, memory);
      if Nested() { PopFrame(frames, enabled); }
      found := Return(oldSp);
      frames := frames[..|frames| - 1];
    }

    // The end of sigtramp: its second argument, on the stack, is what it returns to.
    method EndHandler(sp: int, arguments: int) returns (found: bool)
      requires Valid() && frames != [] && sp == frames[|frames| - 1].sp && arguments == sp - PUSHED
      modifies this`ret, this`esp, this`enabled, this`frames
      ensures Valid() && frames == old(frames)[..|old(frames)| - 1]
      ensures ret == old(frames)[|old(frames)| - 1].ret && esp == sp
      ensures enabled == Cleared(old(enabled), 1) && (found <==> old(enabled) > 0)
      ensures old(Nested()) ==> found && Nested()
    {
      assert Kept(frames[|frames| - 1], memory);
      var cntx := memory[arguments + 8];
      found := SigReturn(cntx);
    }
  }

  // A process is created in a slot where these signals were left pending, and switched to: it
  // starts in the handler of the highest of them if and only if there is any.
  method FirstSwitch(esp: int, table: seq<int>, left: nat) returns (task: Task)
    requires |table| == SIGNAL_TABLE_SIZE && left <= ALL
    ensures fresh(task) && task.Valid() && task.Nested()
    ensures left == 0 ==> task.frames == [] && task.esp == esp && task.pending == 0
    ensures left > 0 ==> task.frames == [Frame(esp, task.ret, Top(left))]
    ensures left > 0 ==> Shl(1, Top(left)) <= ALL && task.pending == ClearBit(left, Top(left))
  {
    task := new Task(esp, table, left);
    if task.pending > 0 {
      task.DeliverHighest();
    }
  }

  // What can happen to a process: a signal is raised, it is switched to, its own code
  // runs, a handler of it comes to its end.
  datatype Happening = Raise(signal: int) | SwitchTo | Code(esp: int, ret: int, memory: map<int, int>) | Finish

  // How far a course of these goes: to its end, or to a return that finds no signal; and
  // whether a signal interrupted its own handler.
  datatype Outcome = Outcome(stuck: bool, self: bool)

  // Any course of these, as long as code leaves the saved frames alone. `low` is the fewest
  // frames there were; those stay. Unless a signal interrupts its own handler, signals stay
  // nested and every return finds its own.
  method Execute(task: Task, course: seq<Happening>) returns (low: nat, outcome: Outcome)
    requires task.Valid()
    modifies task
    ensures task.Valid() && low <= |old(task.frames)| && low <= |task.frames|
    ensures task.frames[..low] == old(task.frames)[..low]
    ensures old(task.Nested()) && !outcome.self ==> task.Nested() && !outcome.stuck
  {
    low, outcome := |task.frames|, Outcome(false, false);
    var i := 0;
    while i < |course| && !outcome.stuck
      invariant task.Valid() && low <= |old(task.frames)| && low <= |task.frames|
      invariant task.frames[..low] == old(task.frames)[..low]
      invariant old(task.Nested()) && !outcome.self ==> task.Nested() && !outcome.stuck
      decreases |course| - i
    {
      var frames := task.frames;
      var next := OneHappening(task, course[i]);
      outcome := Outcome(next.stuck, outcome.self || next.self);
      if |task.frames| < low { low := |task.frames|; }
      assert task.frames[..low] == frames[..low];
      i := i + 1;
    }
  }

  // One frame more, on top of the others, or one less, or the same.
  ghost predicate OneFrame(frames: seq<Frame>, frames': seq<Frame>) {
    || frames' == frames
    || (|frames'| == |frames| + 1 && frames'[..|frames|] == frames)
    || (frames != [] && frames' == frames[..|frames| - 1])
  }

  method OneHappening(task: Task, happening: Happening) returns (outcome: Outcome)
    requires task.Valid()
    modifies task
    ensures task.Valid() && OneFrame(old(task.frames), task.frames)
    ensures old(task.Nested()) && !outcome.self ==> task.Nested() && !outcome.stuck
    ensures outcome.self <==>
      happening.SwitchTo? && old(task.pending > task.enabled && Runs(task.frames, Top(task.pending)))
  {
    outcome := Outcome(false, false);
    match happening
    case Raise(signal) =>
      var ret := task.SetPending(signal);
    case SwitchTo =>
      if task.pending > 0 {
        outcome := Outcome(false, task.pending > task.enabled && Runs(task.frames, Top(task.pending)));
        task.DeliverHighest();
      }
    case Code(esp, ret, memory) =>
      if AllKept(task.frames, memory) && Stacked(task.frames, esp) {
        task.esp, task.ret, task.memory := esp, ret, memory;
      }
    case Finish =>
      if task.frames != [] {
        var sp := task.frames[|task.frames| - 1].sp;
        var found := task.EndHandler(sp, sp - PUSHED);
        outcome := Outcome(!found, false);
      }
  }

  // Nested signals unwind exactly: when the handler of a delivered signal comes to its
  // end, whatever was delivered and ended in between, the process has the stack pointer
  // and the result that it had at the delivery. The same signals are in the mask, if each
  // of them interrupted only lower ones.
  method Unwinds(task: Task, signal: nat, course: seq<Happening>) returns (ended: bool, outcome: Outcome)
    requires task.Valid() && signal < SIGNAL_TABLE_SIZE
    modifies task
    ensures task.Valid()
    ensures ended ==> task.esp == old(task.esp) && task.ret == old(task.ret) && task.frames == old(task.frames)
    ensures old(task.Nested() && Highest(task.frames, signal)) && !outcome.self ==>
      !outcome.stuck && (ended ==> task.enabled == old(task.enabled))
  {
    var depth, f := |task.frames|, Frame(task.esp, task.ret, signal);
    task.Signal(signal);
    var started, low := task.frames, 0;
    low, outcome := Execute(task, course);
    ended := !outcome.stuck && low > depth && |task.frames| == depth + 1;
    if ended {
      assert low == depth + 1 && task.frames[..low] == started[..low];
      assert task.frames == started && started[..depth] == old(task.frames);
      var found := task.EndHandler(f.sp, f.sp - PUSHED);
      outcome := Outcome(!found, outcome.self);
      SameMask(task.frames, task.enabled, old(task.enabled));
    }
  }

  // memset and the fields set in init_context_frame.
  function InitContext(memory: map<int, int>, esp: int): map<int, int> {
    memory[esp := 0][esp + 4 := 0][esp + 8 := esp + CONTEXT_FRAME][esp + 12 := esp + CONTEXT_FRAME]
          [esp + 16 := 0][esp + 20 := 0][esp + 24 := 0][esp + 28 := 0]
          [esp + 32 := SIGTRAMP][esp + 36 := CS][esp + 40 := 0x3200]
  }

  lemma ContextBelow(memory: map<int, int>, esp: int)
    ensures var m := InitContext(memory, esp);
            forall a :: a in memory && a >= esp + CONTEXT_FRAME ==> a in m && m[a] == memory[a]
  {
  }

  const SIGTRAMP: int := 0x10000
  const CS: int := 8

  lemma HigherOnly(frames: seq<Frame>, enabled: nat, pending: nat)
    requires Masked(frames, enabled) && Ascending(frames) && 0 < pending <= ALL && !Runs(frames, Top(pending))
    ensures pending > enabled <==> Highest(frames, Top(pending))
  {
    if frames == [] {
      NoneRuns(enabled);
    } else {
      TopRuns(frames, enabled);
      assert Runs(frames, frames[|frames| - 1].signal);
      AdmitsHigher(pending, enabled);
    }
  }

  lemma SameMask(frames: seq<Frame>, x: nat, y: nat)
    ensures Masked(frames, x) && Masked(frames, y) ==> x == y
  {
    if Masked(frames, x) && Masked(frames, y) { MaskUnique(frames, x, y); }
  }

  lemma MaskUnique(frames: seq<Frame>, x: nat, y: nat)
    requires Masked(frames, x) && Masked(frames, y)
    ensures x == y
  {
    AllOnes();
    forall m: nat | m < WORD ensures Bit(x, m) == Bit(y, m) {
      assert Bit(x, m) == 1 <==> Runs(frames, m);
      assert Bit(y, m) == 1 <==> Runs(frames, m);
    }
    BitsDetermine(x, y, WORD);
  }
}
