// What lasts of a process from round to round of the dispatcher: its pid, the signals
// pending for it and those whose handlers run. All else of its slot the dispatcher's queues
// and requests decide.
module Slots {
  import opened Bits
  import opened Masks
  import opened Pcbs
  import opened DeltaQueue
  import opened Dispatcher
  import opened Places

  // ------------------------------------------------- what a request comes to

  // The request makes a signal pending for process p.
  ghost predicate Raises(t: Table, request: Request, p: nat)
    requires t.Serves(request) && p < |t.s|
  {
    && request.Kill? && Find(t.s, request.pid) == p
    && 0 <= request.signal < SIGNAL_TABLE_SIZE && request.signal in t.s[p].handlers
  }

  // It ends process p, which makes it.
  ghost predicate Ends(t: Table, request: Request, p: nat) {
    t.process == p && (request.Stop? || (request.SigReturn? && !request.stack))
  }

  // It is the end of a handler of process p, which makes it.
  ghost predicate Returning(t: Table, request: Request, p: nat) {
    t.process == p && request.SigReturn? && request.stack
  }

  // It makes a new process of slot p.
  ghost predicate Starts(t: Table, request: Request, p: nat) {
    request.Create? && request.memory && t.qs.stopped != [] && t.qs.stopped[0] == p
  }

  ghost predicate Lasting(t: Table, t': Table) {
    |t'.s| == |t.s| && forall p: nat :: p < |t.s| ==> Lasts(t.s[p], t'.s[p])
  }

  predicate Lasts(x: Pcb, y: Pcb) {
    y.pid == x.pid && y.pending == x.pending && y.enabled == x.enabled
  }

  // What a request does to slot p.
  ghost predicate Changes(t: Table, request: Request, p: nat, x: Pcb, y: Pcb)
    requires t.Serves(request) && p < |t.s|
  {
    && y.pid == (if Ends(t, request, p) then NextPid(x.pid) else x.pid)
    && y.pending == (if Raises(t, request, p) then SetBit(x.pending, request.signal) else x.pending)
    && y.enabled == (if Starts(t, request, p) then 0 else if Returning(t, request, p) then ClearTop(x.enabled)
                     else x.enabled)
  }

  // One round: the switch delivers the highest pending signal, if it may; then the request
  // can raise one more. Only its end changes the pid of a process, and only another one
  // created in its slot makes the dispatcher forget which handlers run. Neither touches
  // what is pending.
  lemma RoundChanges(t: Table, request: Request, p: nat)
    requires t.Fit() && t.Serves(request) && p < |t.s|
    ensures p < |t.Round(request).s|
    ensures Changes(t, request, p, if p == t.process then Delivered(t.s[p]) else t.s[p], t.Round(request).s[p])
  {
    var u := t.Delivers();
    DeliversSame(t);
    DispatchFit(u, request);
    RequestChanges(u, request, p);
    SameChanges(t, u, request, p, u.s[p], u.Dispatch(request).s[p]);
  }

  lemma SameChanges(t: Table, u: Table, request: Request, p: nat, x: Pcb, y: Pcb)
    requires t.Fit() && t.Serves(request) && u == t.Delivers() && u.Fit() && p < |t.s|
    requires Changes(u, request, p, x, y)
    ensures Changes(t, request, p, x, y)
  {
    DeliversSame(t);
    HandlersSame(t.s[p]);
    if request.Kill? { SameFound(t, u, request.pid); }
  }

  lemma RequestChanges(t: Table, request: Request, p: nat)
    requires t.Fit() && t.Serves(request) && p < |t.s|
    ensures Done(t, request, p)
  {
    hide *;
    match request
    case Create(memory, table) => CreateChanges(t, memory, table, p);
    case Stop => StopChanges(t, request, p);
    case Kill(pid, signal) => KillChanges(t, pid, signal, p);
    case SigReturn(stack, ret) => if stack { ReturnChanges(t, ret, p); } else { StopChanges(t, request, p); }
    case _ => OthersChange(t, request, p);
  }

  ghost predicate Done(t: Table, request: Request, p: nat)
    requires t.Serves(request) && p < |t.s|
  {
    p < |t.Dispatch(request).s| && Changes(t, request, p, t.s[p], t.Dispatch(request).s[p])
  }

  lemma ReturnChanges(t: Table, ret: int, p: nat)
    requires t.Fit() && t.Serves(SigReturn(true, ret)) && p < |t.s|
    ensures Done(t, SigReturn(true, ret), p)
  {
  }

  lemma OthersChange(t: Table, request: Request, p: nat)
    requires t.Fit() && t.Serves(request) && p < |t.s|
    requires !request.Create? && !request.Stop? && !request.Kill? && !request.SigReturn?
    ensures Done(t, request, p)
  {
    OthersLast(t, request);
    hide Table.Dispatch;
  }

  lemma OthersLast(t: Table, request: Request)
    requires t.Fit() && t.Serves(request)
    requires !request.Create? && !request.Stop? && !request.Kill? && !request.SigReturn?
    ensures Lasting(t, t.Dispatch(request))
  {
    match request
    case Yield => NextLasts(t.Readies(t.process));
    case GetPid => ReturnsLasts(t, t.process, t.At(t.process).pid);
    case SendTo(pid, length, buffer, early) => TalksToLasts(t, pid, Sending, length, buffer, early);
    case RecvFrom(pid, length, _, buffer, early) =>
      ReturnsLasts(t, t.process, SYSERR_OTHER);
      TalksToLasts(t, pid, Receiving, length, buffer, early);
    case SleepFor(milliseconds) =>
      SleepsLast(t, t.process, TicksFor(milliseconds));
      NextLasts(t.Sleeps(t.process, TicksFor(milliseconds)));
    case Sighandler(signal, newHandler, oldHandler, install) => HandlesLast(t, signal, newHandler, oldHandler, install);
    case Wait(pid) => WaitsLast(t, pid);
    case Timer => TimerLasts(t);
  }

  lemma NextLasts(t: Table)
    ensures Lasting(t, t.Next())
  {
  }

  lemma ReturnsLasts(t: Table, p: int, ret: int)
    ensures Lasting(t, t.Returns(p, ret))
  {
  }

  lemma HandlesLast(t: Table, signal: int, newHandler: bool, oldHandler: bool, install: bool)
    ensures Lasting(t, t.Handles(signal, newHandler, oldHandler, install))
  {
  }

  lemma WaitsLast(t: Table, pid: nat)
    requires t.Fit() && t.process >= 0
    ensures Lasting(t, t.Waits(pid))
  {
    NextLasts(t.Blocks(t.process, Waiting, pid).Returns(t.process, 0));
  }

  lemma ExchangesLast(t: Table, curr: nat, other: nat, status: BlockedStatus, length: int)
    ensures Lasting(t, t.Exchanges(curr, other, status, length))
  {
  }

  lemma TalksLast(t: Table, other: nat, status: BlockedStatus, length: int, early: bool)
    requires t.process >= 0
    ensures Lasting(t, t.Talks(other, status, length, early))
  {
    var curr := t.process as nat;
    var t0 := t.Edit(curr, t.At(curr).(length := length));
    var t1 := t0.Exchanges(curr, other, status, length);
    assert Lasting(t, t0);
    ExchangesLast(t0, curr, other, status, length);
    ReturnsLasts(t1, curr, Shorter(length, t.At(other).length));
    NextLasts(t1);
    ReturnsLasts(t1.Next(), if early then curr else t1.Next().process, SYSPID_DNE);
  }

  lemma TalksToLasts(t: Table, pid: nat, status: BlockedStatus, length: int, buffer: bool, early: bool)
    requires t.Fit() && t.process >= 0
    ensures Lasting(t, t.TalksTo(pid, status, length, buffer, early))
  {
    ReturnsLasts(t, t.process, SYSPID_DNE);
    ReturnsLasts(t, t.process, SYSPID_SELF);
    ReturnsLasts(t, t.process, SYSERR_OTHER);
    if Find(t.s, pid) != NIL {
      TalksLast(t, Find(t.s, pid), status, length, early);
    }
  }

  lemma SleepsLast(t: Table, p: nat, ticks: nat)
    ensures Lasting(t, t.Sleeps(p, ticks))
  {
    if t.Places(t.qs.sleep) {
      var ds := Deltas(t.s, t.qs.sleep);
      var k, t1 := SpotFrom(ds, ticks, 0), t.Edit(p, Dozing(t.At(p), ticks));
      assert Lasting(t, t1);
      TimedLasts(t1.s, With(t.qs.sleep, k, p), Inserted(ds, ticks, k));
    }
  }

  lemma TimedLasts(s: seq<Pcb>, q: seq<nat>, ds: seq<int>)
    ensures forall p: nat :: p < |s| ==> Lasts(s[p], Timed(s, q, ds)[p])
  {
  }

  lemma TimerLasts(t: Table)
    ensures Lasting(t, t.Charged().Next())
  {
    hide Deltas, Ticked, Ripe, TimeOf;
    assert Lasting(t, t.Ticks());
    NextLasts(t.Charged());
  }

  lemma KillChanges(t: Table, pid: nat, signal: int, p: nat)
    requires t.Fit() && t.Serves(Kill(pid, signal)) && p < |t.s|
    ensures Done(t, Kill(pid, signal), p)
  {
    var target := Find(t.s, pid);
    ReturnsLasts(t, t.process, SYSKILL_TARGET_DNE);
    if target != NIL {
      SignalsChange(t, target, signal, p);
      ReturnsLasts(t.Signals(target, signal), t.process, t.SignalResult(signal));
    }
  }

  lemma SignalsChange(t: Table, target: nat, signal: int, p: nat)
    requires target < |t.s| && p < |t.s|
    ensures var t', x := t.Signals(target, signal), t.s[p];
            && |t'.s| == |t.s| && t'.s[p].pid == x.pid && t'.s[p].enabled == x.enabled
            && t'.s[p].pending ==
               if p == target && 0 <= signal < SIGNAL_TABLE_SIZE && signal in x.handlers then SetBit(x.pending, signal)
               else x.pending
  {
  }

  lemma StopChanges(t: Table, request: Request, p: nat)
    requires t.Fit() && t.Serves(request) && p < |t.s| && (request.Stop? || (request.SigReturn? && !request.stack))
    ensures Done(t, request, p)
  {
    var u := t.Unblocks(t.At(t.process).pid);
    assert Lasting(t, u);
    NextLasts(t.Stops(t.process));
  }

  lemma CreateChanges(t: Table, memory: bool, table: set<nat>, p: nat)
    requires t.Fit() && t.Serves(Create(memory, table)) && p < |t.s|
    ensures Done(t, Create(memory, table), p)
  {
    ReturnsLasts(t.Creates(memory, table), t.process, t.CreateResult(memory));
  }

  // --------------------------------------------------------------------- pids

  // How often process p ended in a run.
  ghost function Recycles(t: Table, requests: seq<Request>, p: nat): nat
    decreases requests
  {
    if requests == [] then 0
    else
      (if t.Serves(requests[0]) && Ends(t, requests[0], p) then 1 else 0)
      + Recycles(OneRound(t, requests[0]), requests[1..], p)
  }

  // In every run the pid of a slot is decided by how often its processes ended.
  lemma {:induction false} PidInRun(t: Table, requests: seq<Request>, p: nat)
    requires t.Fit() && p < |t.s|
    ensures Course(t, requests).At(p).pid == PidAfter(t.s[p].pid, Recycles(t, requests, p))
    decreases requests
  {
    hide *;
    if requests == [] {
      NoRound(t, requests, p);
    } else {
      FirstRound(t, requests, p);
      PidInRound(t, requests[0], p);
      PidInRun(OneRound(t, requests[0]), requests[1..], p);
      PidAfterNext(t.s[p].pid, Recycles(OneRound(t, requests[0]), requests[1..], p));
    }
  }

  lemma NoRound(t: Table, requests: seq<Request>, p: nat)
    requires requests == [] && p < |t.s|
    ensures Course(t, requests).At(p) == t.s[p] && Recycles(t, requests, p) == 0
    ensures PidAfter(t.s[p].pid, 0) == t.s[p].pid
  {
  }

  lemma FirstRound(t: Table, requests: seq<Request>, p: nat)
    requires requests != []
    ensures Course(t, requests) == Course(OneRound(t, requests[0]), requests[1..])
    ensures var n := Recycles(OneRound(t, requests[0]), requests[1..], p);
            Recycles(t, requests, p) == if t.Serves(requests[0]) && Ends(t, requests[0], p) then n + 1 else n
  {
  }

  lemma PidInRound(t: Table, request: Request, p: nat)
    requires t.Fit() && p < |t.s|
    ensures var t1 := OneRound(t, request);
            && t1.Fit() && p < |t1.s|
            && t1.s[p].pid == if t.Serves(request) && Ends(t, request, p) then NextPid(t.s[p].pid) else t.s[p].pid
  {
    if t.Serves(request) {
      RoundFit(t, request);
      RoundChanges(t, request, p);
    }
  }

  lemma {:induction false} PidAfterNext(pid: nat, n: nat)
    ensures PidAfter(NextPid(pid), n) == PidAfter(pid, n + 1)
  {
    if n > 0 {
      PidAfterNext(pid, n - 1);
    }
  }

  // From the start a slot has the same pid at two times of a run if and only if a multiple
  // of 1024 processes ended in it in between.
  lemma PidRepeatsInRun(table: set<nat>, a: seq<Request>, b: seq<Request>, p: nat)
    requires p < PCB_TABLE_SIZE
    ensures Course(Booted(table), a + b).At(p).pid == Course(Booted(table), a).At(p).pid
            <==> Recycles(Course(Booted(table), a), b, p) % 1024 == 0
  {
    var t := Course(Booted(table), a);
    BootedFit(table);
    CourseFit(Booted(table), a);
    CourseSplit(Booted(table), a, b);
    BootedPid(table, p);
    PidCounts(Booted(table), a, p, p);
    assert p < |t.s|;
    hide *;
    PidReturns(t, b, p);
  }

  // From p + 1, its pid at the start.
  lemma PidFromStart(t: Table, table: set<nat>, requests: seq<Request>, p: nat)
    requires t == Booted(table) && p < PCB_TABLE_SIZE
    ensures Course(t, requests).At(p).pid == (p + PCB_TABLE_SIZE * Recycles(t, requests, p)) % PID_MAX + 1
  {
    BootedFit(table);
    BootedPid(table, p);
    assert p < |t.s| && t.s[p].pid == p + 1 <= PID_MAX;
    hide *;
    PidCounts(t, requests, p, p);
  }

  // It counts up in steps of 32: from p + 1, the pid of slot p at the start.
  lemma PidCounts(t: Table, requests: seq<Request>, p: nat, first: nat)
    requires t.Fit() && p < |t.s| && t.s[p].pid == first + 1 <= PID_MAX
    ensures Course(t, requests).At(p).pid == (first + PCB_TABLE_SIZE * Recycles(t, requests, p)) % PID_MAX + 1
  {
    hide *;
    PidInRun(t, requests, p);
    PidAfterIs(first + 1, Recycles(t, requests, p));
  }

  lemma PidReturns(t: Table, requests: seq<Request>, p: nat)
    requires t.Fit() && p < |t.s| && 1 <= t.s[p].pid <= PID_MAX
    ensures Course(t, requests).At(p).pid == t.s[p].pid <==> Recycles(t, requests, p) % 1024 == 0
  {
    PidInRun(t, requests, p);
    PidRepeats(t.s[p].pid, Recycles(t, requests, p));
  }

  lemma BootedPid(table: set<nat>, p: nat)
    requires p < PCB_TABLE_SIZE
    ensures |Booted(table).s| == PCB_TABLE_SIZE && Booted(table).s[p].pid == p + 1
    ensures Booted(table).s[p].pending == 0 == Booted(table).s[p].enabled
  {
    var t := FirstTable();
    assert Lasting(t, t.Creates(true, table));
    NextLasts(t.Creates(true, table));
  }

  // ---------------------------------------------------------- pending signals

  // All through a run process p does not run, and no signal is raised for it.
  ghost predicate Rests(t: Table, requests: seq<Request>, p: nat)
    decreases requests
  {
    || requests == []
    || (&& t.process != p && p < |t.s| && (t.Serves(requests[0]) ==> !Raises(t, requests[0], p))
        && Rests(OneRound(t, requests[0]), requests[1..], p))
  }

  // Then what is pending for it stays.
  lemma {:induction false} RestsKeep(t: Table, requests: seq<Request>, p: nat)
    requires t.Fit() && p < |t.s| && Rests(t, requests, p)
    ensures Course(t, requests).At(p).pending == t.s[p].pending
    ensures t.s[p].enabled == 0 ==> Course(t, requests).At(p).enabled == 0
    decreases requests
  {
    if requests != [] {
      if t.Serves(requests[0]) {
        RoundFit(t, requests[0]);
        RoundChanges(t, requests[0], p);
      }
      RestsKeep(OneRound(t, requests[0]), requests[1..], p);
    }
  }

  // All through a run slot p is stopped: nobody finds it to raise a signal.
  ghost predicate StaysStopped(t: Table, requests: seq<Request>, p: nat)
    decreases requests
  {
    && t.At(p).state == Stopped && t.process != p
    && (requests == [] || StaysStopped(OneRound(t, requests[0]), requests[1..], p))
  }

  lemma {:induction false} StoppedRests(t: Table, requests: seq<Request>, p: nat)
    requires t.Fit() && p < |t.s| && StaysStopped(t, requests, p)
    ensures Rests(t, requests, p)
    ensures Course(t, requests).At(p).state == Stopped && Course(t, requests).process != p
    decreases requests
  {
    if requests != [] {
      if t.Serves(requests[0]) { RoundFit(t, requests[0]); }
      StoppedRests(OneRound(t, requests[0]), requests[1..], p);
    }
  }

  // The next process of a stopped slot: it is created, waits until it is switched to, and
  // starts in the handler of the highest signal that was left pending in the slot if and
  // only if any was. The others stay pending.
  lemma NextInSlot(t: Table, gone: seq<Request>, created: Request, waiting: seq<Request>, p: nat)
    requires t.Fit() && p < |t.s| && StaysStopped(t, gone, p)
    requires var t1 := Course(t, gone); t1.Serves(created) && Starts(t1, created, p)
    requires Rests(OneRound(Course(t, gone), created), waiting, p)
    ensures var t3 := Course(OneRound(Course(t, gone), created), waiting);
            var x, left := Delivered(t3.At(p)), t.s[p].pending;
            && (left == 0 ==> x.pending == 0 == x.enabled)
            && (left > 0 ==> x.pending == ClearTop(left) && x.enabled == SetBit(0, Top(left)))
  {
    StoppedRests(t, gone, p);
    RestsKeep(t, gone, p);
    CourseFit(t, gone);
    var t1 := Course(t, gone);
    RoundFit(t1, created);
    RoundChanges(t1, created, p);
    RestsKeep(OneRound(t1, created), waiting, p);
  }

  // Process c runs, and p, with nothing pending, is the only one ready.
  ghost predicate Pair(t: Table, c: nat, p: nat) {
    && t.Fit() && t.process == c && t.qs.ready == [p] && c != p && p < |t.s| && Find(t.s, t.s[p].pid) == p
    && t.s[p].state == Ready && t.s[p].enabled == 0 && KILL_SIGNAL_NUM in t.s[p].handlers
  }

  // A signal raised for p, which is ready.
  lemma RaisedFor(t: Table, c: nat, p: nat, signal: nat)
    requires Pair(t, c, p) && signal in t.s[p].handlers && signal < SIGNAL_TABLE_SIZE
    ensures var t' := OneRound(t, Kill(t.s[p].pid, signal));
            && Pair(t', c, p) && t'.s[p].pid == t.s[p].pid && t'.s[p].handlers == t.s[p].handlers
            && t'.s[p].pending == SetBit(t.s[p].pending, signal)
  {
    var request := Kill(t.s[p].pid, signal);
    RoundFit(t, request);
    RoundChanges(t, request, p);
    DeliversSame(t);
    SameFound(t, t.Delivers(), t.s[p].pid);
  }

  // p is switched to and stops at once.
  lemma SwitchedAndStopped(t: Table, c: nat, p: nat)
    requires Pair(t, c, p)
    ensures var t' := OneRound(OneRound(t, Yield), Stop);
            && t'.Fit() && t'.At(p).state == Stopped && t'.process != p
            && t'.At(p).pending == Delivered(t.s[p]).pending
  {
    var t1 := OneRound(t, Yield);
    RoundFit(t, Yield);
    RoundChanges(t, Yield, p);
    DeliversSame(t);
    StopsRunning(t1, c, p);
  }

  lemma StopsRunning(t: Table, c: nat, p: nat)
    requires t.Fit() && t.process == p && t.qs.ready == [c] && c != p && p < |t.s|
    ensures var t' := OneRound(t, Stop);
            t'.Fit() && t'.At(p).state == Stopped && t'.process != p && t'.At(p).pending == Delivered(t.s[p]).pending
  {
    RoundFit(t, Stop);
    RoundChanges(t, Stop, p);
    DeliversSame(t);
  }

  // Signal 31, raised alone, is delivered at that switch: nothing is left.
  lemma KillLeavesNothing(t: Table, c: nat, p: nat)
    requires Pair(t, c, p) && t.s[p].pending == 0
    ensures var t' := Course(t, [Kill(t.s[p].pid, KILL_SIGNAL_NUM), Yield, Stop]);
            t'.At(p).state == Stopped && t'.At(p).pending == 0
  {
    var kill := Kill(t.s[p].pid, KILL_SIGNAL_NUM);
    RaisedFor(t, c, p, KILL_SIGNAL_NUM);
    var t1 := OneRound(t, kill);
    SwitchedAndStopped(t1, c, p);
    OnlyOne(KILL_SIGNAL_NUM);
    ThreeRounds(t, kill, Yield, Stop);
  }

  // With signal 3 raised before it, and handled, 3 is left for the next process.
  lemma KillLeavesLower(t: Table, c: nat, p: nat)
    requires Pair(t, c, p) && t.s[p].pending == 0 && 3 in t.s[p].handlers
    ensures var pid := t.s[p].pid;
            var t' := Course(t, [Kill(pid, 3), Kill(pid, KILL_SIGNAL_NUM), Yield, Stop]);
            t'.At(p).state == Stopped && t'.At(p).pending == SetBit(0, 3) > 0
  {
    var lower, kill := Kill(t.s[p].pid, 3), Kill(t.s[p].pid, KILL_SIGNAL_NUM);
    RaisedFor(t, c, p, 3);
    var t1 := OneRound(t, lower);
    RaisedFor(t1, c, p, KILL_SIGNAL_NUM);
    var t2 := OneRound(t1, kill);
    SwitchedAndStopped(t2, c, p);
    OnlyOne(3);
    OneMore(SetBit(0, 3), KILL_SIGNAL_NUM);
    ThreeRounds(t1, kill, Yield, Stop);
    assert [lower, kill, Yield, Stop][1..] == [kill, Yield, Stop];
  }

  lemma ThreeRounds(t: Table, a: Request, b: Request, c: Request)
    ensures Course(t, [a, b, c]) == OneRound(OneRound(OneRound(t, a), b), c)
  {
    CourseNext(t, [a, b], c);
    CourseNext(t, [a], b);
    CourseNext(t, [], a);
    assert [a, b] + [c] == [a, b, c] && [a] + [b] == [a, b] && [] + [a] == [a];
  }

  // Both happen: the first process has such a second one when it created it.
  lemma SecondProcess(table: set<nat>, second: set<nat>)
    ensures var t := OneRound(Booted(table), Create(true, second));
            Pair(t, 0, 1) && t.s[1].pending == 0 && (3 in second ==> 3 in t.s[1].handlers)
  {
    var t0 := Booted(table);
    BootedFit(table);
    BootedPid(table, 1);
    DeliversSame(t0);
    RoundFit(t0, Create(true, second));
    RoundChanges(t0, Create(true, second), 1);
  }
}
