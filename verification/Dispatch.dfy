// What the dispatcher of c/disp.c does to the processes and their queues, request by
// request, as a function of values. The kernel's code on linked queues does just this.
module Dispatcher {
  import opened Bits
  import opened Masks
  import opened Pcbs
  import opened DeltaQueue
  import opened Places

  const KILL_SIGNAL_NUM: nat := 31
  const MS_PER_CLOCK_TICK: nat := 10
  const BLOCKERR: int := -5
  const BLOCKED_PROC_SIGNALED: int := -99
  const CREATE_FAILURE: int := -1
  const SYSPID_DNE: int := -1
  const SYSPID_SELF: int := -2
  const SYSERR_OTHER: int := -3
  const SYSKILL_TARGET_DNE: int := -512
  const SYSKILL_SIG_INVALID: int := -561
  const INVALID_SIGNAL: int := -1
  const SYSHANDLER_NEWHANDLER_INVALID: int := -2
  const SYSHANDLER_OLDHANDLER_INVALID: int := -3

  // What a process can ask for, with what the kernel finds when it checks addresses
  // and memory.
  datatype Request =
    | Create(memory: bool, table: set<nat>)
    | Yield
    | Stop
    | GetPid
    | Kill(pid: nat, signal: int)
    | SendTo(pid: nat, length: int, buffer: bool, early: bool)
    | RecvFrom(pid: nat, length: int, pidAddress: bool, buffer: bool, early: bool)
    | SleepFor(milliseconds: nat)
    | Sighandler(signal: int, newHandler: bool, oldHandler: bool, install: bool)
    | SigReturn(stack: bool, ret: int)
    | Wait(pid: nat)
    | Timer

  // ------------------------------------------------------------------- pids

  // Line 54 of c/pcb.c
  function NextPid(pid: nat): nat {
    (pid + PCB_TABLE_SIZE - 1) % PID_MAX + 1
  }

  lemma NextPidGood(pid: nat, i: nat)
    requires GoodPid(pid, i)
    ensures GoodPid(NextPid(pid), i)
  {
  }

  // The pid after this many recycles.
  function PidAfter(pid: nat, recycles: nat): nat {
    if recycles == 0 then pid else NextPid(PidAfter(pid, recycles - 1))
  }

  lemma {:induction false} PidAfterIs(pid: nat, recycles: nat)
    requires 1 <= pid <= PID_MAX
    ensures PidAfter(pid, recycles) == (pid - 1 + PCB_TABLE_SIZE * recycles) % PID_MAX + 1
  {
    if recycles > 0 {
      PidAfterIs(pid, recycles - 1);
      NextRest(pid - 1 + PCB_TABLE_SIZE * (recycles - 1));
    }
  }

  lemma NextRest(x: nat)
    ensures NextPid(x % PID_MAX + 1) == (x + PCB_TABLE_SIZE) % PID_MAX + 1
  {
  }

  // A slot has the same pid again only after every 1024 recycles.
  lemma PidRepeats(pid: nat, recycles: nat)
    requires 1 <= pid <= PID_MAX
    ensures PidAfter(pid, recycles) == pid <==> recycles % 1024 == 0
  {
    PidAfterIs(pid, recycles);
    var q, t := recycles / 1024, recycles % 1024;
    assert PCB_TABLE_SIZE * recycles == PID_MAX * q + PCB_TABLE_SIZE * t;
    RestOf(pid - 1 + PCB_TABLE_SIZE * t, q);
  }

  lemma RestOf(x: nat, q: nat)
    ensures (x + PID_MAX * q) % PID_MAX == x % PID_MAX
  {
  }

  // pid_to_pcb
  function Find(s: seq<Pcb>, pid: nat): (p: int)
    requires |s| == PCB_TABLE_SIZE
    ensures p != NIL ==> 0 <= p < |s| && s[p].state != Stopped && p == (pid - 1) % PCB_TABLE_SIZE && pid >= 1
    ensures p == NIL ==> pid == 0 || s[(pid - 1) % PCB_TABLE_SIZE].state == Stopped
  {
    if pid >= 1 then
      var p := (pid - 1) % PCB_TABLE_SIZE;
      if s[p].state != Stopped then p else NIL
    else NIL
  }

  // ------------------------------------------------------------------ waiters

  // Those of the first n in q that wait for pid, and the others.
  ghost function Waiters(s: seq<Pcb>, q: seq<nat>, n: nat, pid: nat): seq<nat>
    requires n <= |q| && forall i :: 0 <= i < |q| ==> q[i] < |s|
  {
    if n == 0 then []
    else Waiters(s, q, n - 1, pid) + if s[q[n - 1]].blockedId == pid then [q[n - 1]] else []
  }

  ghost function Others(s: seq<Pcb>, q: seq<nat>, n: nat, pid: nat): seq<nat>
    requires n <= |q| && forall i :: 0 <= i < |q| ==> q[i] < |s|
  {
    if n == 0 then []
    else Others(s, q, n - 1, pid) + if s[q[n - 1]].blockedId == pid then [] else [q[n - 1]]
  }

  lemma {:induction false} WaitersIn(s: seq<Pcb>, q: seq<nat>, n: nat, pid: nat, x: nat)
    requires n <= |q| && forall i :: 0 <= i < |q| ==> q[i] < |s|
    ensures x in Waiters(s, q, n, pid) <==> x in q[..n] && s[x].blockedId == pid
    ensures x in Others(s, q, n, pid) <==> x in q[..n] && s[x].blockedId != pid
  {
    if n > 0 {
      WaitersIn(s, q, n - 1, pid, x);
      assert q[..n] == q[..n - 1] + [q[n - 1]];
    }
  }

  lemma {:induction false} WaitersSame(s: seq<Pcb>, s': seq<Pcb>, q: seq<nat>, n: nat, pid: nat)
    requires n <= |q| && (forall i :: 0 <= i < |q| ==> q[i] < |s|) && |s| == |s'|
    requires forall i :: 0 <= i < |s| ==> s'[i].blockedId == s[i].blockedId
    ensures Waiters(s', q, n, pid) == Waiters(s, q, n, pid) && Others(s', q, n, pid) == Others(s, q, n, pid)
  {
    if n > 0 {
      WaitersSame(s, s', q, n - 1, pid);
    }
  }

  // --------------------------------------------------------------- processes

  function Readied(x: Pcb): Pcb {
    x.(state := Ready, blockedStatus := NotBlocked)
  }

  function Awaited(x: Pcb): Pcb {
    x.(blockedId := 0, state := Ready, blockedStatus := NotBlocked)
  }

  function Recycled(x: Pcb): Pcb {
    x.(pid := NextPid(x.pid), cpuTime := 0, state := Stopped)
  }

  function Picked(x: Pcb): Pcb {
    x.(state := Running, cpuTime := x.cpuTime + 1)
  }

  // The switch to a process that has its highest pending signal delivered, if the test of
  // c/signal.c lets it through.
  function Delivered(x: Pcb): Pcb {
    if x.pending > x.enabled then
      TopSmall(x.pending);
      MaskBounds(x.enabled, Top(x.pending));
      x.(pending := ClearTop(x.pending), enabled := SetBit(x.enabled, Top(x.pending)))
    else x
  }

  // The end of the handler that was started last.
  function Ended(x: Pcb, ret: int): Pcb {
    x.(ret := ret, enabled := ClearTop(x.enabled))
  }

  // Ticks to sleep: the milliseconds in tens, rounded up.
  function TicksFor(milliseconds: nat): nat {
    (milliseconds + 9) / 10
  }

  function Shorter(a: int, b: int): int {
    if a > b then b else a
  }

  // The other process is blocked on this one.
  predicate Meets(s: seq<Pcb>, curr: nat, other: nat) {
    && curr < |s| && other < |s|
    && PlaceOf(s[other]) == InBlocked && s[other].blockedId == s[curr].pid
  }

  // The i-th of q has the i-th time.
  ghost predicate TimeAt(q: seq<nat>, ds: seq<int>, x: nat, i: nat) {
    i < |q| && i < |ds| && q[i] == x
  }

  ghost function TimeOf(q: seq<nat>, ds: seq<int>, x: nat): int {
    if exists i: nat :: TimeAt(q, ds, x, i) then var i: nat :| TimeAt(q, ds, x, i); ds[i] else 0
  }

  // The sleepers q with these times.
  ghost function Timed(s: seq<Pcb>, q: seq<nat>, ds: seq<int>): (r: seq<Pcb>)
    ensures |r| == |s|
  {
    seq(|s|, x requires 0 <= x < |s| => if x in q then s[x].(ret := TimeOf(q, ds, x)) else s[x])
  }

  lemma TimeIs(q: seq<nat>, ds: seq<int>, i: nat)
    requires Distinct(q) && i < |q| && i < |ds|
    ensures TimeOf(q, ds, q[i]) == ds[i]
  {
    assert TimeAt(q, ds, q[i], i);
  }

  lemma TimedAt(s: seq<Pcb>, q: seq<nat>, ds: seq<int>, i: nat)
    requires Distinct(q) && i < |q| == |ds| && q[i] < |s|
    ensures Timed(s, q, ds)[q[i]].ret == ds[i]
  {
    TimeIs(q, ds, i);
  }

  lemma TimedDeltas(s: seq<Pcb>, q: seq<nat>, ds: seq<int>)
    requires Distinct(q) && |q| == |ds| && forall i :: 0 <= i < |q| ==> q[i] < |s|
    ensures Deltas(Timed(s, q, ds), q) == ds
  {
    forall i: nat | i < |q| ensures Deltas(Timed(s, q, ds), q)[i] == ds[i] {
      TimedAt(s, q, ds, i);
    }
  }

  // Those of q are ready.
  ghost function Woken(s: seq<Pcb>, q: seq<nat>): (r: seq<Pcb>)
    ensures |r| == |s|
  {
    seq(|s|, x requires 0 <= x < |s| => if x in q then Readied(s[x]) else s[x])
  }

  lemma AmongFirst(q: seq<nat>, n: nat, i: nat)
    requires Distinct(q) && n <= |q| && i < |q|
    ensures q[i] in q[..n] <==> i < n
  {
    if i < n {
      assert q[..n][i] == q[i];
    }
  }

  // Links do not matter here.
  ghost function Unlinked(s: seq<Pcb>): (r: seq<Pcb>)
    ensures |r| == |s|
  {
    seq(|s|, i requires 0 <= i < |s| => s[i].(next := NIL))
  }

  const NO_PCB: Pcb := Pcb(0, Stopped, 0, NotBlocked, NIL, 0, 0, 0, 0, {}, 0)

  // The processes, the queues they are in, and the one that runs.
  datatype Table = Table(s: seq<Pcb>, qs: Queues, process: int) {
    ghost function At(p: int): Pcb {
      if 0 <= p < |s| then s[p] else NO_PCB
    }

    ghost function Edit(p: int, x: Pcb): Table {
      if 0 <= p < |s| then this.(s := s[p := x]) else this
    }

    ghost function Returns(p: int, ret: int): Table {
      Edit(p, At(p).(ret := ret))
    }

    ghost predicate Places(q: seq<nat>) {
      forall i :: 0 <= i < |q| ==> q[i] < |s|
    }

    ghost predicate Fit() {
      && |s| == PCB_TABLE_SIZE && -1 <= process < |s|
      && Places(qs.stopped) && Places(qs.ready) && Places(qs.blocked) && Places(qs.sleep)
    }

    // The idle process, NIL, asks for nothing.
    ghost predicate Serves(request: Request) {
      |s| == PCB_TABLE_SIZE && -1 <= process < |s| && (process == NIL ==> request.Timer?)
    }

    // Sleepers are asleep, once each, and the running process is not among them.
    ghost predicate Settled() {
      && Distinct(qs.sleep) && process !in qs.sleep && (forall x :: x in qs.ready ==> x !in qs.sleep)
      && (forall x :: x in qs.sleep ==> x < |s| && PlaceOf(s[x]) == InSleep)
    }

    // The sleepers and their times.
    ghost function SleepLine(): (l: Line)
      ensures |l.q| == |l.ds|
    {
      if Places(qs.sleep) then Line(qs.sleep, Deltas(s, qs.sleep)) else Line([], [])
    }

    // add_pcb_to_ready_queue
    ghost function Readies(p: nat): Table {
      Edit(p, Readied(At(p))).(qs := qs.(ready := qs.ready + [p]))
    }

    // get_next_pcb
    ghost function Next(): Table {
      if qs.ready == [] then this.(process := NIL)
      else
        var p := qs.ready[0];
        Edit(p, Picked(At(p))).(qs := qs.(ready := qs.ready[1..]), process := p)
    }

    // unblock_pcb_waiting_for_pid
    ghost function Unblocks(pid: nat): Table {
      if !Places(qs.blocked) then this
      else
        var woken := Waiters(s, qs.blocked, |qs.blocked|, pid);
        Table(seq(|s|, x requires 0 <= x < |s| => if x in woken then Awaited(s[x]) else s[x]),
              qs.(blocked := Others(s, qs.blocked, |qs.blocked|, pid), ready := qs.ready + woken), process)
    }

    // cleanup_pcb, of the running process
    ghost function Stops(p: nat): Table {
      var t := Unblocks(At(p).pid);
      t.Edit(p, Recycled(t.At(p))).(qs := t.qs.(stopped := t.qs.stopped + [p]))
    }

    // create
    ghost function Creates(memory: bool, table: set<nat>): Table {
      if !memory || qs.stopped == [] then this
      else
        var p := qs.stopped[0];
        Edit(p, At(p).(enabled := 0, handlers := table - {0} + {KILL_SIGNAL_NUM}))
          .(qs := qs.(stopped := qs.stopped[1..])).Readies(p)
    }

    ghost function CreateResult(memory: bool): int {
      if !memory || qs.stopped == [] then CREATE_FAILURE else At(qs.stopped[0]).pid
    }

    // A process leaves the blocked queue, or the sleep queue, for the ready queue.
    ghost function Withdraws(p: nat): Table {
      this.(qs := qs.(blocked := Minus(qs.blocked, p))).Readies(p)
    }

    ghost function Wakes(p: nat): Table {
      this.(qs := qs.(sleep := Minus(qs.sleep, p))).Readies(p)
    }

    ghost function Interrupts(p: nat): Table {
      if PlaceOf(At(p)) == InSleep then Wakes(p)
      else if At(p).blockedStatus == Waiting then Withdraws(p)
      else Returns(p, BLOCKED_PROC_SIGNALED).Withdraws(p)
    }

    // set_pcb_signal
    ghost function Signals(p: nat, signal: int): Table {
      if 0 <= signal < SIGNAL_TABLE_SIZE && signal in At(p).handlers then
        MaskBounds(At(p).pending, signal);
        var t := Edit(p, At(p).(pending := SetBit(At(p).pending, signal)));
        if At(p).state == Blocked then t.Interrupts(p) else t
      else this
    }

    ghost function SignalResult(signal: int): int {
      if 0 <= signal < SIGNAL_TABLE_SIZE then 0 else SYSKILL_SIG_INVALID
    }

    // add_pcb_to_blocked_queue
    ghost function Blocks(p: nat, status: BlockedStatus, id: nat): Table {
      Edit(p, At(p).(state := Blocked, blockedStatus := status, blockedId := id))
        .(qs := qs.(blocked := qs.blocked + [p]))
    }

    // send and recv: the other process is ready, with the length passed, if it is
    // blocked on this one; if it is blocked on another, it goes to the end of the
    // queue; and this one is then blocked on it.
    ghost function Exchanges(curr: nat, other: nat, status: BlockedStatus, length: int): Table {
      if Meets(s, curr, other) then
        Edit(other, Readied(At(other)).(blockedId := 0, ret := Shorter(length, At(other).length)))
          .(qs := qs.(blocked := Minus(qs.blocked, other), ready := qs.ready + [other]))
      else
        this.(qs := if PlaceOf(At(other)) == InBlocked then qs.(blocked := Minus(qs.blocked, other) + [other]) else qs)
          .Blocks(curr, status, At(other).pid)
    }

    // The exchange of the running process, and what becomes of its result.
    ghost function Talks(other: nat, status: BlockedStatus, length: int, early: bool): Table
      requires process >= 0
    {
      var curr := process as nat;
      var t0 := Edit(curr, At(curr).(length := length));
      var t := t0.Exchanges(curr, other, status, length);
      if Meets(t0.s, curr, other) then t.Returns(curr, Shorter(length, At(other).length))
      else t.Next().Returns(if early then curr else t.Next().process, SYSPID_DNE)
    }

    // sleep
    ghost function Sleeps(p: nat, ticks: nat): Table {
      if !Places(qs.sleep) then this
      else
        var ds := Deltas(s, qs.sleep);
        var k := SpotFrom(ds, ticks, 0);
        var t := Edit(p, Dozing(At(p), ticks));
        t.(s := Timed(t.s, With(qs.sleep, k, p), Inserted(ds, ticks, k)), qs := qs.(sleep := With(qs.sleep, k, p)))
    }

    // tick
    ghost function Ticks(): Table {
      if !Places(qs.sleep) then this
      else
        var ds := Ticked(Deltas(s, qs.sleep));
        var n := Ripe(ds);
        Table(Woken(Timed(s, qs.sleep, ds), qs.sleep[..n]),
              qs.(sleep := qs.sleep[n..], ready := qs.ready + qs.sleep[..n]), process)
    }

    // handle_syscall_kill
    ghost function Kills(pid: nat, signal: int): Table
      requires |s| == PCB_TABLE_SIZE
    {
      var target := Find(s, pid);
      if target == NIL then Returns(process, SYSKILL_TARGET_DNE)
      else Signals(target, signal).Returns(process, SignalResult(signal))
    }

    // handle_syscall_wait
    ghost function Waits(pid: nat): Table
      requires |s| == PCB_TABLE_SIZE && process >= 0
    {
      if Find(s, pid) == NIL || pid == 0 then Returns(process, SYSPID_DNE)
      else Blocks(process, Waiting, pid).Returns(process, 0).Next()
    }

    // handle_syscall_send, and handle_syscall_recv past the check of its first argument
    ghost function TalksTo(pid: nat, status: BlockedStatus, length: int, buffer: bool, early: bool): Table
      requires |s| == PCB_TABLE_SIZE && process >= 0
    {
      var other := Find(s, pid);
      if other == NIL then Returns(process, SYSPID_DNE)
      else if pid == At(process).pid then Returns(process, SYSPID_SELF)
      else if length <= 0 || !buffer then Returns(process, SYSERR_OTHER)
      else Talks(other, status, length, early)
    }

    // handle_syscall_sighandler
    ghost function Handles(signal: int, newHandler: bool, oldHandler: bool, install: bool): Table {
      if signal < 0 || signal >= SIGNAL_TABLE_SIZE || signal == KILL_SIGNAL_NUM then Returns(process, INVALID_SIGNAL)
      else if install && !newHandler then Returns(process, SYSHANDLER_NEWHANDLER_INVALID)
      else if !oldHandler then Returns(process, SYSHANDLER_OLDHANDLER_INVALID)
      else
        var table := At(process).handlers;
        Edit(process, At(process).(handlers := if install then table + {signal} else table - {signal}, ret := 0))
    }

    // contextswitch
    ghost function Delivers(): Table {
      Edit(process, Delivered(At(process)))
    }

    // One round of dispatch: the switch to the running process, and its request.
    ghost function Round(request: Request): Table
      requires Serves(request)
    {
      Delivers().Dispatch(request)
    }

    // What is done about a request.
    ghost function Dispatch(request: Request): Table
      requires Serves(request)
    {
      match request
      case Create(memory, table) => Creates(memory, table).Returns(process, CreateResult(memory))
      case Yield => Readies(process).Next()
      case Stop => Stops(process).Next()
      case GetPid => Returns(process, At(process).pid)
      case Kill(pid, signal) => Kills(pid, signal)
      case SendTo(pid, length, buffer, early) => TalksTo(pid, Sending, length, buffer, early)
      case RecvFrom(pid, length, pidAddress, buffer, early) =>
        if !pidAddress then Returns(process, SYSERR_OTHER) else TalksTo(pid, Receiving, length, buffer, early)
      case SleepFor(milliseconds) => Sleeps(process, TicksFor(milliseconds)).Next()
      case Sighandler(signal, newHandler, oldHandler, install) => Handles(signal, newHandler, oldHandler, install)
      case SigReturn(stack, ret) => if stack then Edit(process, Ended(At(process), ret)) else Stops(process).Next()
      case Wait(pid) => Waits(pid)
      case Timer => Charged().Next()
    }

    // The running process has used a tick and goes back to the queue.
    ghost function Charges(): Table {
      if process < 0 then this
      else Edit(process, At(process).(cpuTime := At(process).cpuTime + 1)).Readies(process)
    }

    // The timer interrupt, also of the idle process, up to the choice of the next one.
    ghost function Charged(): Table {
      Ticks().Charges()
    }
  }

  // ------------------------------------------------------------------ courses

  // One request of the running process; when none is running there is only the timer.
  ghost function OneRound(t: Table, request: Request): Table {
    if t.Serves(request) then t.Round(request) else t
  }

  ghost function Course(t: Table, requests: seq<Request>): Table
    decreases requests
  {
    if requests == [] then t else Course(OneRound(t, requests[0]), requests[1..])
  }

  lemma {:induction false} CourseSplit(t: Table, a: seq<Request>, b: seq<Request>)
    ensures Course(t, a + b) == Course(Course(t, a), b)
    decreases a
  {
    if a == [] {
      assert a + b == b;
    } else {
      assert (a + b)[1..] == a[1..] + b;
      CourseSplit(OneRound(t, a[0]), a[1..], b);
    }
  }

  lemma CourseNext(t: Table, requests: seq<Request>, request: Request)
    ensures Course(t, requests + [request]) == OneRound(Course(t, requests), request)
  {
    CourseSplit(t, requests, [request]);
    assert Course(OneRound(Course(t, requests), request), [request][1..]) == OneRound(Course(t, requests), request);
  }

  // The processes at first, all stopped.
  function FirstPcb(i: nat): Pcb {
    Pcb(i + 1, Stopped, 0, NotBlocked, NIL, 0, 0, 0, 0, {}, 0)
  }

  ghost function FirstTable(): Table {
    var places := seq(PCB_TABLE_SIZE, i => i);
    Table(seq(PCB_TABLE_SIZE, i requires 0 <= i => FirstPcb(i)), Queues(places, [], [], []), NIL)
  }

  // The first process was created and runs.
  ghost function Booted(table: set<nat>): Table {
    FirstTable().Creates(true, table).Next()
  }

  // -------------------------------------------------------- in their places

  lemma {:induction false} MinusIn(q: seq<nat>, p: nat, x: nat)
    requires x in Minus(q, p)
    ensures x in q
  {
    if q[0] != p && x != q[0] {
      MinusIn(q[1..], p, x);
    }
  }

  lemma MinusPlaces(t: Table, q: seq<nat>, p: nat)
    requires t.Places(q)
    ensures t.Places(Minus(q, p))
  {
    var r := Minus(q, p);
    forall i | 0 <= i < |r| ensures r[i] < |t.s| {
      MinusIn(q, p, r[i]);
    }
  }

  lemma UnblocksFit(t: Table, pid: nat)
    requires t.Fit()
    ensures t.Unblocks(pid).Fit()
  {
    var q, t' := t.qs.blocked, t.Unblocks(pid);
    forall x: nat | x in Waiters(t.s, q, |q|, pid) || x in Others(t.s, q, |q|, pid) ensures x < |t.s| {
      WaitersIn(t.s, q, |q|, pid, x);
    }
    forall i | 0 <= i < |t'.qs.blocked| ensures t'.qs.blocked[i] < |t.s| {
      assert t'.qs.blocked[i] in t'.qs.blocked;
    }
    forall i | 0 <= i < |Waiters(t.s, q, |q|, pid)| ensures Waiters(t.s, q, |q|, pid)[i] < |t.s| {
      assert Waiters(t.s, q, |q|, pid)[i] in Waiters(t.s, q, |q|, pid);
    }
  }

  lemma StopsFit(t: Table, p: nat)
    requires t.Fit() && p < |t.s|
    ensures t.Stops(p).Fit()
  {
    UnblocksFit(t, t.At(p).pid);
  }

  lemma SignalsFit(t: Table, p: nat, signal: int)
    requires t.Fit() && p < |t.s|
    ensures t.Signals(p, signal).Fit()
  {
    MinusPlaces(t, t.qs.blocked, p);
    MinusPlaces(t, t.qs.sleep, p);
  }

  lemma NextFit(t: Table)
    requires t.Fit()
    ensures t.Next().Fit()
  {
  }

  lemma ReturnsFit(t: Table, p: int, ret: int)
    requires t.Fit()
    ensures t.Returns(p, ret).Fit()
  {
  }

  lemma ExchangesFit(t: Table, curr: nat, other: nat, status: BlockedStatus, length: int)
    requires t.Fit() && other < |t.s| && curr < |t.s|
    ensures t.Exchanges(curr, other, status, length).Fit()
  {
    MinusPlaces(t, t.qs.blocked, other);
  }

  lemma TalksFit(t: Table, other: nat, status: BlockedStatus, length: int, early: bool)
    requires t.Fit() && other < |t.s| && t.process >= 0
    ensures t.Talks(other, status, length, early).Fit()
  {
    var t0 := t.Edit(t.process, t.At(t.process).(length := length));
    assert t0.Fit();
    ExchangesFit(t0, t.process, other, status, length);
    var t1 := t0.Exchanges(t.process, other, status, length);
    NextFit(t1);
    ReturnsFit(t1, t.process, Shorter(length, t.At(other).length));
    ReturnsFit(t1.Next(), if early then t.process else t1.Next().process, SYSPID_DNE);
  }

  lemma TalksToFit(t: Table, pid: nat, status: BlockedStatus, length: int, buffer: bool, early: bool)
    requires t.Fit() && t.process >= 0
    ensures t.TalksTo(pid, status, length, buffer, early).Fit()
  {
    if Find(t.s, pid) != NIL {
      TalksFit(t, Find(t.s, pid), status, length, early);
    }
  }

  lemma KillsFit(t: Table, pid: nat, signal: int)
    requires t.Fit()
    ensures t.Kills(pid, signal).Fit()
  {
    if Find(t.s, pid) != NIL {
      SignalsFit(t, Find(t.s, pid), signal);
    }
  }

  lemma SleepsFit(t: Table, p: nat, ticks: nat)
    requires t.Fit() && p < |t.s|
    ensures t.Sleeps(p, ticks).Next().Fit()
  {
    NextFit(t.Sleeps(p, ticks));
  }

  lemma CreatesFit(t: Table, memory: bool, table: set<nat>)
    requires t.Fit()
    ensures t.Creates(memory, table).Fit()
  {
  }

  lemma StopsNextFit(t: Table, p: nat)
    requires t.Fit() && p < |t.s|
    ensures t.Stops(p).Next().Fit()
  {
    StopsFit(t, p);
    NextFit(t.Stops(p));
  }

  lemma WaitsFit(t: Table, pid: nat)
    requires t.Fit() && t.process >= 0
    ensures t.Waits(pid).Fit()
  {
    NextFit(t.Blocks(t.process, Waiting, pid).Returns(t.process, 0));
  }

  lemma HandlesFit(t: Table, signal: int, newHandler: bool, oldHandler: bool, install: bool)
    requires t.Fit()
    ensures t.Handles(signal, newHandler, oldHandler, install).Fit()
  {
  }

  lemma ChargedFit(t: Table)
    requires t.Fit()
    ensures t.Charged().Next().Fit()
  {
    NextFit(t.Charged());
  }

  // Nothing but the masks of the running process changes when it is switched to.
  lemma DeliversSame(t: Table)
    ensures var u := t.Delivers();
            && u.qs == t.qs && u.process == t.process && |u.s| == |t.s|
            && (u.Fit() <==> t.Fit()) && (u.Settled() <==> t.Settled())
            && u.SleepLine() == t.SleepLine()
            && forall p: nat :: p < |t.s| ==> u.s[p] == if p == t.process then Delivered(t.s[p]) else t.s[p]
  {
    var u := t.Delivers();
    if t.Places(t.qs.sleep) {
      assert Deltas(u.s, u.qs.sleep) == Deltas(t.s, t.qs.sleep);
    }
    forall x | x in t.qs.sleep && x < |t.s| ensures PlaceOf(u.s[x]) == PlaceOf(t.s[x]) {
    }
  }

  lemma HandlersSame(x: Pcb)
    ensures Delivered(x).handlers == x.handlers && Delivered(x).state == x.state && Delivered(x).pid == x.pid
  {
  }

  lemma SameFound(t: Table, u: Table, pid: nat)
    requires t.Fit() && u == t.Delivers() && u.Fit()
    ensures Find(u.s, pid) == Find(t.s, pid)
  {
    DeliversSame(t);
  }

  lemma RoundFit(t: Table, request: Request)
    requires t.Fit() && t.Serves(request)
    ensures t.Round(request).Fit()
  {
    DeliversSame(t);
    DispatchFit(t.Delivers(), request);
  }

  // All in the queues are processes of the table, and stay so.
  lemma DispatchFit(t: Table, request: Request)
    requires t.Fit() && t.Serves(request)
    ensures t.Dispatch(request).Fit()
  {
    match request
    case Create(memory, table) =>
      CreatesFit(t, memory, table);
      ReturnsFit(t.Creates(memory, table), t.process, t.CreateResult(memory));
    case Yield => NextFit(t.Readies(t.process));
    case Stop => StopsNextFit(t, t.process);
    case GetPid => ReturnsFit(t, t.process, t.At(t.process).pid);
    case Kill(pid, signal) => KillsFit(t, pid, signal);
    case SendTo(pid, length, buffer, early) => TalksToFit(t, pid, Sending, length, buffer, early);
    case RecvFrom(pid, length, _, buffer, early) => TalksToFit(t, pid, Receiving, length, buffer, early);
    case SleepFor(milliseconds) => SleepsFit(t, t.process, TicksFor(milliseconds));
    case Sighandler(signal, newHandler, oldHandler, install) => HandlesFit(t, signal, newHandler, oldHandler, install);
    case SigReturn(stack, ret) => if !stack { StopsNextFit(t, t.process); }
    case Wait(pid) => WaitsFit(t, pid);
    case Timer => ChargedFit(t);
  }

  // ------------------------------------------------------------- ready queue

  // Whoever is ready stays in its place, if the same process runs, and else moves up by
  // one; the first one then runs.
  ghost predicate InTurn(t: Table, t': Table) {
    var q, q' := t.qs.ready, t'.qs.ready;
    || (t'.process == t.process && q <= q')
    || (q != [] && t'.process == q[0] && q[1..] <= q')
    || q == []
  }

  ghost predicate Appends(t: Table, t': Table) {
    t'.process == t.process && t.qs.ready <= t'.qs.ready
  }

  lemma NextInTurn(t: Table, t1: Table)
    requires Appends(t, t1)
    ensures InTurn(t, t1.Next()) && (t.qs.ready != [] ==> t1.Next().process == t.qs.ready[0])
    ensures t.qs.ready != [] ==> t.qs.ready[1..] <= t1.Next().qs.ready
  {
  }

  // Nobody is overtaken in the ready queue.
  lemma NobodyOvertakes(t: Table, request: Request)
    requires t.Serves(request)
    ensures InTurn(t, t.Dispatch(request))
    ensures request.Timer? && t.qs.ready != [] ==>
      t.Dispatch(request).process == t.qs.ready[0] && t.qs.ready[1..] <= t.Dispatch(request).qs.ready
  {
    hide Timed, Woken, Deltas, Ticked, Ripe, Waiters, Others, Inserted, SpotFrom, Minus;
    match request
    case Yield => NextInTurn(t, t.Readies(t.process));
    case Stop => NextInTurn(t, t.Stops(t.process));
    case SigReturn(stack, _) => if !stack { NextInTurn(t, t.Stops(t.process)); }
    case SleepFor(milliseconds) => NextInTurn(t, t.Sleeps(t.process, TicksFor(milliseconds)));
    case Wait(pid) => NextInTurn(t, t.Blocks(t.process, Waiting, pid).Returns(t.process, 0));
    case SendTo(pid, length, buffer, early) => TalksToInTurn(t, pid, Sending, length, buffer, early);
    case RecvFrom(pid, length, _, buffer, early) => TalksToInTurn(t, pid, Receiving, length, buffer, early);
    case Timer => NextInTurn(t, t.Charged());
    case _ =>
  }

  lemma TalksInTurn(t: Table, other: nat, status: BlockedStatus, length: int, early: bool)
    requires t.process >= 0
    ensures InTurn(t, t.Talks(other, status, length, early))
  {
    var curr := t.process as nat;
    var t0 := t.Edit(curr, t.At(curr).(length := length));
    if !Meets(t0.s, curr, other) {
      NextInTurn(t, t0.Exchanges(curr, other, status, length));
    }
  }

  lemma TalksToInTurn(t: Table, pid: nat, status: BlockedStatus, length: int, buffer: bool, early: bool)
    requires |t.s| == PCB_TABLE_SIZE && t.process >= 0
    ensures InTurn(t, t.TalksTo(pid, status, length, buffer, early))
  {
    if Find(t.s, pid) != NIL {
      TalksInTurn(t, Find(t.s, pid), status, length, early);
    }
  }

  function Timers(requests: seq<Request>): nat {
    if requests == [] then 0 else (if requests[0].Timer? then 1 else 0) + Timers(requests[1..])
  }

  // Whoever is ready runs before the timer has gone off more often than there are
  // processes ahead of it in the queue, whatever the processes ask for.
  lemma {:induction false} RunsInTime(t: Table, requests: seq<Request>, i: nat) returns (n: nat)
    requires t.Fit() && i < |t.qs.ready| && Timers(requests) > i
    ensures n <= |requests| && Course(t, requests[..n]).process == t.qs.ready[i]
    decreases requests
  {
    var t1, rest := OneRound(t, requests[0]), requests[1..];
    var moved := MovesUp(t, requests[0], i);
    if moved && i == 0 {
      n := 1;
      assert requests[..1] == [requests[0]];
      assert Course(t1, []) == t1;
    } else {
      n := RunsInTime(t1, rest, if moved then i - 1 else i);
      assert requests[..n + 1][1..] == rest[..n];
      n := n + 1;
    }
  }

  // One round brings a ready process one place nearer, or runs it, or leaves it where
  // it is; the timer does not do the last.
  lemma MovesUp(t: Table, request: Request, i: nat) returns (moved: bool)
    requires t.Fit() && i < |t.qs.ready|
    ensures var t1 := OneRound(t, request);
            && t1.Fit() && (request.Timer? ==> moved)
            && if !moved then i < |t1.qs.ready| && t1.qs.ready[i] == t.qs.ready[i]
               else if i > 0 then i - 1 < |t1.qs.ready| && t1.qs.ready[i - 1] == t.qs.ready[i]
               else t1.process == t.qs.ready[0]
  {
    var t1, q := OneRound(t, request), t.qs.ready;
    moved := false;
    if t.Serves(request) {
      DeliversSame(t);
      NobodyOvertakes(t.Delivers(), request);
      RoundFit(t, request);
      if request.Timer? || !(q <= t1.qs.ready && t1.process == t.process) {
        moved := true;
        if i > 0 {
          assert t1.qs.ready[i - 1] == q[1..][i - 1];
        }
      }
    }
  }

  // ----------------------------------------------------------------- messages

  // A send or receive of so many bytes, to or from the process with this pid.
  ghost predicate Messages(request: Request, pid: nat, length: int) {
    || (request.SendTo? && request.pid == pid && request.length == length && request.buffer)
    || (request.RecvFrom? && request.pid == pid && request.length == length && request.buffer && request.pidAddress)
  }

  // The kernel looks at whom a process is blocked on, not at what it is blocked in: two
  // processes that both send to each other, or both receive, meet as well as a sender and a
  // receiver do. Both are told that as much was passed as the shorter of the buffers holds.
  lemma PartnersMeet(t: Table, a: nat, b: nat, x: int, y: int, first: Request, second: Request)
    requires t.Fit() && t.process == a && t.qs.ready != [] && t.qs.ready[0] == b && a != b && x > 0 && y > 0
    requires Find(t.s, t.s[a].pid) == a && Find(t.s, t.s[b].pid) == b && t.s[b].state == Ready
    requires Messages(first, t.s[b].pid, x) && Messages(second, t.s[a].pid, y)
    ensures var t2 := Course(t, [first, second]);
            && t2.process == b && t2.At(a).state == Ready && t2.qs.ready == t.qs.ready[1..] + [a]
            && t2.At(a).ret == t2.At(b).ret == if x <= y then x else y
  {
    CourseNext(t, [first], second);
    CourseNext(t, [], first);
    assert [] + [first] == [first] && [first] + [second] == [first, second];
    var t1 := OneRound(t, first);
    FirstMessage(t, a, b, x, first);
    assert t1.Serves(second) && Course(t, []) == t;
    hide *;
    SecondMessage(t1, a, b, x, y, second);
  }

  lemma FirstMessage(t: Table, a: nat, b: nat, x: int, request: Request)
    requires t.Fit() && t.process == a && t.qs.ready != [] && t.qs.ready[0] == b && a != b && x > 0
    requires Find(t.s, t.s[a].pid) == a && Find(t.s, t.s[b].pid) == b && t.s[b].state == Ready
    requires Messages(request, t.s[b].pid, x)
    ensures var t1 := OneRound(t, request);
            InMessage(t1, a, b, x) && t1.qs.ready == t.qs.ready[1..] && t1.s[a].pid == t.s[a].pid
  {
    var u := t.Delivers();
    DeliversSame(t);
    SameFound(t, u, t.s[a].pid);
    SameFound(t, u, t.s[b].pid);
    HandlersSame(t.s[a]);
    assert u.s[a].pid == t.s[a].pid && t.Serves(request);
    hide Table.Dispatch, Table.Delivers, Find, InMessage;
    PartnerWaits(u, a, b, x, request);
  }

  lemma SecondMessage(t: Table, a: nat, b: nat, x: int, y: int, request: Request)
    requires InMessage(t, a, b, x) && y > 0 && Messages(request, t.s[a].pid, y)
    ensures var t2 := OneRound(t, request);
            && t2.process == b && t2.At(a).state == Ready && t2.qs.ready == t.qs.ready + [a]
            && t2.At(a).ret == t2.At(b).ret == if x <= y then x else y
  {
    var u := t.Delivers();
    DeliversSame(t);
    SameFound(t, u, t.s[a].pid);
    assert InMessage(u, a, b, x) && u.s[a].pid == t.s[a].pid && t.Serves(request);
    hide Table.Dispatch, Table.Delivers, Find, InMessage;
    PartnerMet(u, a, b, x, y, request);
  }

  // Process a is blocked on b, which runs.
  ghost predicate InMessage(t: Table, a: nat, b: nat, x: int) {
    && t.Fit() && t.process == b && a != b && a < |t.s| && b < |t.s|
    && Find(t.s, t.s[a].pid) == a && t.s[a].state == Blocked && t.s[a].blockedId == t.s[b].pid
    && (t.s[a].blockedStatus == Sending || t.s[a].blockedStatus == Receiving)
    && t.s[a].length == x && t.s[a].pid != t.s[b].pid
  }

  lemma PartnerWaits(t: Table, a: nat, b: nat, x: int, request: Request)
    requires t.Fit() && t.process == a && t.qs.ready != [] && t.qs.ready[0] == b && a != b && x > 0
    requires Find(t.s, t.s[a].pid) == a && Find(t.s, t.s[b].pid) == b && t.s[b].state == Ready
    requires Messages(request, t.s[b].pid, x)
    ensures var t1 := t.Dispatch(request);
            InMessage(t1, a, b, x) && t1.qs.ready == t.qs.ready[1..] && t1.s[a].pid == t.s[a].pid
  {
    DispatchFit(t, request);
  }

  lemma PartnerMet(t: Table, a: nat, b: nat, x: int, y: int, request: Request)
    requires InMessage(t, a, b, x) && y > 0 && Messages(request, t.s[a].pid, y)
    ensures var t2 := t.Dispatch(request);
            && t2.process == b && t2.At(a).state == Ready && t2.qs.ready == t.qs.ready + [a]
            && t2.At(a).ret == t2.At(b).ret == if x <= y then x else y
  {
  }

  // ----------------------------------------------------------------- sleepers

  // Nobody's time changed.
  ghost predicate Undisturbed(t: Table, t': Table) {
    && |t'.s| == |t.s| && t'.qs.sleep == t.qs.sleep
    && forall x: nat :: x < |t.s| && x in t.qs.sleep ==> t'.s[x].ret == t.s[x].ret
  }

  lemma SameLine(t: Table, t': Table)
    requires Undisturbed(t, t')
    ensures t'.SleepLine() == t.SleepLine()
  {
    if t.Places(t.qs.sleep) {
      assert Deltas(t'.s, t'.qs.sleep) == Deltas(t.s, t.qs.sleep);
    }
  }

  // Going to sleep and the timer are the events of the sleep queue.
  lemma SleepsLine(t: Table, p: nat, ticks: nat)
    requires t.Places(t.qs.sleep) && Distinct(t.qs.sleep) && p < |t.s| && p !in t.qs.sleep
    ensures t.Sleeps(p, ticks).SleepLine() == DeltaQueue.Step(t.SleepLine(), FallAsleep(p, ticks))
  {
    var ds, t' := Deltas(t.s, t.qs.sleep), t.Sleeps(p, ticks);
    var k := SpotFrom(ds, ticks, 0);
    var q := With(t.qs.sleep, k, p);
    WithMembers(t.qs.sleep, k, p, p);
    WithPlaces(t.s, t.qs.sleep, k, p);
    TimedDeltas(t.Edit(p, Dozing(t.At(p), ticks)).s, q, Inserted(ds, ticks, k));
  }

  lemma WithPlaces(s: seq<Pcb>, q: seq<nat>, k: nat, p: nat)
    requires (forall i :: 0 <= i < |q| ==> q[i] < |s|) && k <= |q| && p < |s|
    ensures |With(q, k, p)| == |q| + 1 && forall i :: 0 <= i < |q| + 1 ==> With(q, k, p)[i] < |s|
  {
  }

  lemma TicksLine(t: Table)
    requires t.Places(t.qs.sleep) && Distinct(t.qs.sleep)
    ensures t.Ticks().SleepLine() == DeltaQueue.Step(t.SleepLine(), Event.Tick)
  {
    var q, ds, t' := t.qs.sleep, Ticked(Deltas(t.s, t.qs.sleep)), t.Ticks();
    var n := Ripe(ds);
    TimedDeltas(t.s, q, ds);
    WokenDeltas(Timed(t.s, q, ds), q, n);
  }

  lemma WokenDeltas(s: seq<Pcb>, q: seq<nat>, n: nat)
    requires n <= |q| && forall i :: 0 <= i < |q| ==> q[i] < |s|
    ensures Deltas(Woken(s, q[..n]), q[n..]) == Deltas(s, q)[n..]
  {
  }

  // What was to be returned does not matter to one who goes to sleep.
  lemma ReturnsAsleep(t: Table, p: nat, ticks: nat)
    requires t.Places(t.qs.sleep) && p !in t.qs.sleep
    ensures t.Returns(p, 0).Sleeps(p, ticks) == t.Sleeps(p, ticks)
  {
    var t' := t.Returns(p, 0);
    assert Deltas(t'.s, t.qs.sleep) == Deltas(t.s, t.qs.sleep);
    if p < |t.s| {
      assert t'.s[p := Dozing(t'.s[p], ticks)] == t.s[p := Dozing(t.s[p], ticks)];
    }
  }

  // What an event of the sleep queue the request is.
  ghost predicate Serene(t: Table, request: Request, t': Table)
    requires t.Serves(request)
  {
    match request
    case SleepFor(milliseconds) =>
      t'.SleepLine() == DeltaQueue.Step(t.SleepLine(), FallAsleep(t.process, TicksFor(milliseconds)))
    case Timer => t'.SleepLine() == DeltaQueue.Step(t.SleepLine(), Event.Tick)
    case Kill(_, _) => t'.qs.sleep == t.qs.sleep ==> t'.SleepLine() == t.SleepLine()
    case _ => t'.SleepLine() == t.SleepLine()
  }

  lemma {:induction false} MinusLess(q: seq<nat>, p: nat)
    requires p in q
    ensures |Minus(q, p)| < |q|
  {
    if q[0] != p {
      MinusLess(q[1..], p);
    }
  }

  lemma SignalsUndisturb(t: Table, p: nat, signal: int)
    requires t.Settled() && p < |t.s|
    ensures var t' := t.Signals(p, signal); t'.qs.sleep == t.qs.sleep ==> Undisturbed(t, t')
  {
    if p in t.qs.sleep { MinusLess(t.qs.sleep, p); }
  }

  lemma NextUndisturb(t: Table, t1: Table)
    requires Undisturbed(t, t1)
    ensures Undisturbed(t, t1.Next())
  {
  }

  lemma TalksUndisturb(t: Table, other: nat, status: BlockedStatus, length: int, early: bool)
    requires t.Settled() && t.process >= 0 && other < |t.s|
    ensures Undisturbed(t, t.Talks(other, status, length, early))
  {
    hide Minus, Distinct;
    var t0 := t.Edit(t.process, t.At(t.process).(length := length));
    var t1 := t0.Exchanges(t.process, other, status, length);
    assert Undisturbed(t, t1);
    NextUndisturb(t, t1);
    if !Meets(t0.s, t.process, other) {
      assert t1.qs.ready == t.qs.ready;
      assert t1.qs.ready != [] ==> t1.Next().process in t.qs.ready;
    }
  }

  lemma TalksToUndisturb(t: Table, pid: nat, status: BlockedStatus, length: int, buffer: bool, early: bool)
    requires t.Settled() && |t.s| == PCB_TABLE_SIZE && t.process >= 0
    ensures Undisturbed(t, t.TalksTo(pid, status, length, buffer, early))
  {
    if Find(t.s, pid) != NIL {
      TalksUndisturb(t, Find(t.s, pid), status, length, early);
    }
  }

  lemma KillsUndisturb(t: Table, pid: nat, signal: int)
    requires t.Settled() && |t.s| == PCB_TABLE_SIZE && t.process >= 0
    ensures var t' := t.Kills(pid, signal); t'.qs.sleep == t.qs.sleep ==> Undisturbed(t, t')
  {
    if Find(t.s, pid) != NIL {
      SignalsUndisturb(t, Find(t.s, pid), signal);
    }
  }

  lemma StopsUndisturb(t: Table, p: nat)
    requires p < |t.s|
    ensures Undisturbed(t, t.Stops(p))
  {
  }

  lemma SleepsSerene(t: Table, ticks: nat)
    requires t.Fit() && t.Settled() && t.process >= 0
    ensures t.Sleeps(t.process, ticks).Next().SleepLine()
            == DeltaQueue.Step(t.SleepLine(), FallAsleep(t.process, ticks))
  {
    var t1 := t.Sleeps(t.process, ticks);
    SleepsLine(t, t.process, ticks);
    NextUndisturb(t1, t1);
    SameLine(t1, t1.Next());
  }

  lemma TimerSerene(t: Table)
    requires t.Fit() && t.Settled()
    ensures t.Charged().Next().SleepLine() == DeltaQueue.Step(t.SleepLine(), Event.Tick)
  {
    var t1 := t.Ticks();
    TicksLine(t);
    ChargesUndisturb(t1);
    SameLine(t1, t1.Charges().Next());
  }

  lemma ChargesUndisturb(t: Table)
    ensures Undisturbed(t, t.Charges().Next())
  {
    NextUndisturb(t, t.Charges());
  }

  // Only sleeping, the timer and a signal that wakes a sleeper change the sleep queue,
  // the first two as its events do.
  lemma DispatchSleepers(t: Table, request: Request)
    requires t.Fit() && t.Settled() && t.Serves(request)
    ensures Serene(t, request, t.Dispatch(request))
  {
    if request.SleepFor? {
      SleepsSerene(t, TicksFor(request.milliseconds));
    } else if request.Timer? {
      TimerSerene(t);
    } else {
      OthersUndisturb(t, request);
      var t' := t.Dispatch(request);
      if t'.qs.sleep == t.qs.sleep { SameLine(t, t'); }
    }
  }

  lemma OthersUndisturb(t: Table, request: Request)
    requires t.Fit() && t.Settled() && t.Serves(request) && !request.SleepFor? && !request.Timer?
    ensures var t' := t.Dispatch(request);
            if request.Kill? then t'.qs.sleep == t.qs.sleep ==> Undisturbed(t, t') else Undisturbed(t, t')
  {
    match request
    case Kill(pid, signal) => KillsUndisturb(t, pid, signal);
    case SendTo(pid, length, buffer, early) => TalksToUndisturb(t, pid, Sending, length, buffer, early);
    case RecvFrom(pid, length, pidAddress, buffer, early) =>
      if pidAddress { TalksToUndisturb(t, pid, Receiving, length, buffer, early); }
    case Stop => StopsUndisturb(t, t.process); NextUndisturb(t, t.Stops(t.process));
    case SigReturn(stack, _) =>
      if !stack { StopsUndisturb(t, t.process); NextUndisturb(t, t.Stops(t.process)); }
    case Yield => NextUndisturb(t, t.Readies(t.process));
    case Wait(pid) => NextUndisturb(t, t.Blocks(t.process, Waiting, pid).Returns(t.process, 0));
    case _ =>
  }

  // ------------------------------------------------------- sleepers in a run

  // What a request is to the sleep queue, and what a run is.
  ghost function EventOf(t: Table, request: Request): seq<Event> {
    if !t.Serves(request) then []
    else
      match request
      case SleepFor(milliseconds) => [FallAsleep(t.process, TicksFor(milliseconds))]
      case Timer => [Event.Tick]
      case _ => []
  }

  ghost function EventsOf(t: Table, requests: seq<Request>): seq<Event>
    decreases requests
  {
    if requests == [] then [] else EventOf(t, requests[0]) + EventsOf(OneRound(t, requests[0]), requests[1..])
  }

  // Nobody goes to sleep for no time, and no sleeper is woken by a signal.
  ghost predicate Calm(t: Table, request: Request) {
    t.Serves(request) ==>
      && (request.SleepFor? ==> request.milliseconds > 0)
      && (request.Kill? ==> t.Round(request).qs.sleep == t.qs.sleep)
  }

  ghost predicate Quiet(t: Table, requests: seq<Request>)
    decreases requests
  {
    requests == [] || (Calm(t, requests[0]) && Quiet(OneRound(t, requests[0]), requests[1..]))
  }

  // Without signals, that is a matter of the requests alone.
  lemma {:induction false} HarmlessQuiet(t: Table, requests: seq<Request>)
    requires forall i :: 0 <= i < |requests| ==> !requests[i].Kill? && requests[i] != SleepFor(0)
    ensures Quiet(t, requests)
    decreases requests
  {
    if requests != [] {
      HarmlessQuiet(OneRound(t, requests[0]), requests[1..]);
    }
  }

  lemma {:induction false} EventsSplit(t: Table, a: seq<Request>, b: seq<Request>)
    ensures EventsOf(t, a + b) == EventsOf(t, a) + EventsOf(Course(t, a), b)
    ensures Quiet(t, a + b) <==> Quiet(t, a) && Quiet(Course(t, a), b)
    decreases a
  {
    hide EventOf, Calm, OneRound;
    if a == [] {
      assert a + b == b;
    } else {
      assert (a + b)[1..] == a[1..] + b;
      EventsSplit(OneRound(t, a[0]), a[1..], b);
    }
  }

  lemma EventsNext(t: Table, requests: seq<Request>, request: Request)
    ensures EventsOf(t, requests + [request]) == EventsOf(t, requests) + EventOf(Course(t, requests), request)
    ensures Quiet(t, requests + [request]) <==> Quiet(t, requests) && Calm(Course(t, requests), request)
  {
    var t1 := Course(t, requests);
    EventsSplit(t, requests, [request]);
    assert [request][1..] == [];
    assert EventsOf(t1, [request]) == EventOf(t1, request) + EventsOf(OneRound(t1, request), []);
  }

  lemma {:induction false} CourseFit(t: Table, requests: seq<Request>)
    requires t.Fit()
    ensures Course(t, requests).Fit()
    decreases requests
  {
    if requests != [] {
      if t.Serves(requests[0]) { RoundFit(t, requests[0]); }
      CourseFit(OneRound(t, requests[0]), requests[1..]);
    }
  }

  lemma BootedFit(table: set<nat>)
    ensures Booted(table).Fit()
  {
    CreatesFit(FirstTable(), true, table);
    NextFit(FirstTable().Creates(true, table));
  }

  // Every timer interrupt is a tick, and nothing else is.
  lemma {:induction false} EventTicks(t: Table, requests: seq<Request>)
    requires t.Fit()
    ensures DeltaQueue.Ticks(EventsOf(t, requests)) == Timers(requests)
    decreases requests
  {
    if requests != [] {
      var request := requests[0];
      if t.Serves(request) { RoundFit(t, request); }
      EventTicks(OneRound(t, request), requests[1..]);
      TicksSplit(EventOf(t, request), EventsOf(OneRound(t, request), requests[1..]));
      OneTick(t, request);
    }
  }

  lemma OneTick(t: Table, request: Request)
    requires t.Fit()
    ensures DeltaQueue.Ticks(EventOf(t, request)) == if request.Timer? then 1 else 0
  {
    assert forall e: Event :: [e][..0] == [];
  }

  // The sleep queue is what these events make of one with nobody asleep.
  const NOBODY: Line := Line([], [])

  ghost predicate Follows(t: Table, events: seq<Event>) {
    AllAllowed(NOBODY, events) && t.SleepLine() == DeltaQueue.Run(NOBODY, events)
  }

  lemma RoundSleepers(t: Table, request: Request)
    requires t.Fit() && t.Settled() && t.Serves(request)
    ensures Serene(t, request, t.Round(request))
  {
    var u := t.Delivers();
    DeliversSame(t);
    DispatchSleepers(u, request);
  }

  lemma RoundFollows(t: Table, request: Request, events: seq<Event>)
    requires t.Fit() && t.Settled() && Calm(t, request) && Follows(t, events)
    ensures Follows(OneRound(t, request), events + EventOf(t, request))
  {
    if t.Serves(request) {
      RoundSleepers(t, request);
    }
    if t.Serves(request) && (request.SleepFor? || request.Timer?) {
      AllowedNext(t, events, EventOf(t, request)[0]);
    } else {
      assert events + EventOf(t, request) == events;
    }
  }

  lemma AllowedNext(t: Table, events: seq<Event>, e: Event)
    requires Follows(t, events) && t.Places(t.qs.sleep)
    requires e.FallAsleep? ==> e.ticks > 0 && e.p !in t.qs.sleep
    ensures AllAllowed(NOBODY, events + [e])
    ensures DeltaQueue.Run(NOBODY, events + [e]) == DeltaQueue.Step(t.SleepLine(), e)
  {
    assert (events + [e])[..|events + [e]| - 1] == events;
  }

  // Whoever went to sleep with the k-th request is asleep while the ticks of 10 ms since then
  // come to less than its milliseconds, and is awake after the first one with which they do not.
  ghost predicate OnTime(t: Table, requests: seq<Request>, k: nat)
    requires k < |requests| && requests[k].SleepFor?
  {
    var p, ms := Course(t, requests[..k]).process, requests[k].milliseconds;
    var after, asleep := requests[k + 1..], Course(t, requests).qs.sleep;
    p != NIL ==>
      && (10 * Timers(after) < ms ==> p in asleep)
      && (10 * Timers(after) - 10 < ms <= 10 * Timers(after) && after != [] && after[|after| - 1].Timer? ==>
            p !in asleep)
  }

  // In a quiet run the sleep queue is what its sleeps and timer interrupts make of it.
  ghost predicate Kept(t: Table, requests: seq<Request>) {
    Quiet(t, requests) ==> Follows(Course(t, requests), EventsOf(t, requests))
  }

  // And every sleeper wakes on time.
  ghost predicate Punctual(t: Table, requests: seq<Request>) {
    Quiet(t, requests) ==>
      && Follows(Course(t, requests), EventsOf(t, requests))
      && forall k :: 0 <= k < |requests| && requests[k].SleepFor? ==> OnTime(t, requests, k)
  }

  // At first nobody sleeps.
  lemma BootedKept(table: set<nat>)
    ensures Booted(table).Fit() && Kept(Booted(table), [])
  {
    BootedFit(table);
  }

  lemma KeptNext(t: Table, requests: seq<Request>, n: nat)
    requires n < |requests| && Kept(t, requests[..n])
    requires Course(t, requests[..n]).Fit() && Course(t, requests[..n]).Settled()
    ensures Course(t, requests[..n + 1]) == OneRound(Course(t, requests[..n]), requests[n])
    ensures Kept(t, requests[..n + 1])
  {
    var done, request := requests[..n], requests[n];
    assert requests[..n + 1] == done + [request];
    CourseNext(t, done, request);
    EventsNext(t, done, request);
    if Quiet(t, requests[..n + 1]) {
      RoundFollows(Course(t, done), request, EventsOf(t, done));
    }
  }

  lemma AllPunctual(t: Table, requests: seq<Request>)
    requires t.Fit() && Kept(t, requests)
    ensures Punctual(t, requests)
  {
    if Quiet(t, requests) {
      forall k | 0 <= k < |requests| && requests[k].SleepFor? ensures OnTime(t, requests, k) {
        SleeperOnTime(t, requests, k);
      }
    }
  }

  lemma SleeperOnTime(t: Table, requests: seq<Request>, k: nat)
    requires k < |requests| && requests[k].SleepFor?
    requires t.Fit() && Follows(Course(t, requests), EventsOf(t, requests))
    ensures OnTime(t, requests, k)
  {
    var before, request, after := requests[..k], requests[k], requests[k + 1..];
    var t1 := Course(t, before);
    CourseFit(t, before);
    CourseFit(t, requests);
    if t1.process != NIL {
      assert requests == before + [request] + after;
      EventsSplit(t, before + [request], after);
      EventsNext(t, before, request);
      var t2 := Course(t, before + [request]);
      CourseFit(t, before + [request]);
      EventTicks(t2, after);
      RunWakesOnTime(EventsOf(t, before), t1.process, TicksFor(request.milliseconds), EventsOf(t2, after));
      if after != [] && after[|after| - 1].Timer? {
        LastTick(t2, after);
      }
    }
  }

  lemma LastTick(t: Table, requests: seq<Request>)
    requires t.Fit() && requests != [] && requests[|requests| - 1].Timer?
    ensures var es := EventsOf(t, requests); es != [] && es[|es| - 1].Tick?
  {
    var init, last := requests[..|requests| - 1], requests[|requests| - 1];
    assert requests == init + [last];
    EventsNext(t, init, last);
    CourseFit(t, init);
    assert EventOf(Course(t, init), last) == [Event.Tick];
  }
}
