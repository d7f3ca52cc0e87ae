// What becomes of a process that waits for the end of another one, over every run.
module Waiting {
  import opened Bits
  import opened Masks
  import opened Pcbs
  import opened DeltaQueue
  import opened Dispatcher
  import opened Places
  import opened Slots

  // -------------------------------------------------------- left where it is

  // Process a is among the blocked ones, and nowhere else.
  ghost predicate Apart(t: Table, a: nat) {
    && a < |t.s| && t.process != a
    && a in t.qs.blocked && a !in t.qs.ready && a !in t.qs.sleep && a !in t.qs.stopped
  }

  // It stays there, as it was.
  ghost predicate Leaves(t: Table, t': Table, a: nat)
    requires Apart(t, a)
  {
    Apart(t', a) && t'.s[a] == t.s[a]
  }

  lemma {:induction false} MinusKeeps(q: seq<nat>, p: nat, x: nat)
    ensures x in q && x != p ==> x in Minus(q, p)
    ensures x !in q ==> x !in Minus(q, p)
  {
    if q != [] && q[0] != p {
      MinusKeeps(q[1..], p, x);
    }
  }

  lemma WithKeeps(q: seq<nat>, k: nat, p: nat, x: nat)
    requires k <= |q| && x !in q && x != p
    ensures x !in With(q, k, p)
  {
  }

  lemma NextLeaves(t: Table, a: nat)
    requires Apart(t, a)
    ensures Leaves(t, t.Next(), a)
  {
  }

  lemma ReturnsLeaves(t: Table, p: int, ret: int, a: nat)
    requires Apart(t, a) && p != a
    ensures Leaves(t, t.Returns(p, ret), a)
  {
  }

  // Nobody is woken who does not wait for that pid.
  lemma StopsLeaves(t: Table, p: nat, a: nat)
    requires t.Fit() && Apart(t, a) && p != a && t.s[a].blockedId != t.At(p).pid
    ensures Leaves(t, t.Stops(p).Next(), a)
  {
    WaitersIn(t.s, t.qs.blocked, |t.qs.blocked|, t.At(p).pid, a);
    assert t.qs.blocked[..|t.qs.blocked|] == t.qs.blocked;
    assert Leaves(t, t.Stops(p), a);
    NextLeaves(t.Stops(p), a);
  }

  lemma CreatesLeaves(t: Table, memory: bool, table: set<nat>, a: nat)
    requires Apart(t, a)
    ensures Leaves(t, t.Creates(memory, table), a)
  {
  }

  lemma SleepsLeaves(t: Table, p: nat, ticks: nat, a: nat)
    requires Apart(t, a) && p != a
    ensures Leaves(t, t.Sleeps(p, ticks).Next(), a)
  {
    if t.Places(t.qs.sleep) {
      WithKeeps(t.qs.sleep, SpotFrom(Deltas(t.s, t.qs.sleep), ticks, 0), p, a);
    }
    NextLeaves(t.Sleeps(p, ticks), a);
  }

  lemma TimerLeaves(t: Table, a: nat)
    requires Apart(t, a)
    ensures Leaves(t, t.Charged().Next(), a)
  {
    hide Deltas, Ticked, Ripe, TimeOf;
    assert Leaves(t, t.Ticks(), a);
    assert Leaves(t, t.Charged(), a);
    NextLeaves(t.Charged(), a);
  }

  lemma SignalsLeaves(t: Table, p: nat, signal: int, a: nat)
    requires Apart(t, a) && p < |t.s|
    requires p == a ==> !(0 <= signal < SIGNAL_TABLE_SIZE && signal in t.s[a].handlers)
    ensures Leaves(t, t.Signals(p, signal), a)
  {
    MinusKeeps(t.qs.blocked, p, a);
    MinusKeeps(t.qs.sleep, p, a);
  }

  lemma KillsLeaves(t: Table, pid: nat, signal: int, a: nat)
    requires t.Fit() && Apart(t, a) && t.process >= 0 && !Raises(t, Kill(pid, signal), a)
    ensures Leaves(t, t.Kills(pid, signal), a)
  {
    var target := Find(t.s, pid);
    ReturnsLeaves(t, t.process, SYSKILL_TARGET_DNE, a);
    if target != NIL {
      SignalsLeaves(t, target, signal, a);
      ReturnsLeaves(t.Signals(target, signal), t.process, t.SignalResult(signal), a);
    }
  }

  lemma TalksLeaves(t: Table, other: nat, status: BlockedStatus, length: int, early: bool, a: nat)
    requires Apart(t, a) && t.process >= 0 && other < |t.s| && !(other == a && Meets(t.s, t.process, a))
    ensures Leaves(t, t.Talks(other, status, length, early), a)
  {
    var curr := t.process as nat;
    var t0 := t.Edit(curr, t.At(curr).(length := length));
    var t1 := t0.Exchanges(curr, other, status, length);
    MinusKeeps(t.qs.blocked, other, a);
    assert Leaves(t, t1, a);
    NextLeaves(t1, a);
    ReturnsLeaves(t1.Next(), if early then curr else t1.Next().process, SYSPID_DNE, a);
    ReturnsLeaves(t1, curr, Shorter(length, t.At(other).length), a);
  }

  lemma TalksToLeaves(t: Table, pid: nat, status: BlockedStatus, length: int, buffer: bool, early: bool, a: nat)
    requires t.Fit() && Apart(t, a) && t.process >= 0
    requires length > 0 && buffer && Find(t.s, pid) == a ==> !Meets(t.s, t.process, a)
    ensures Leaves(t, t.TalksTo(pid, status, length, buffer, early), a)
  {
    ReturnsLeaves(t, t.process, SYSPID_DNE, a);
    ReturnsLeaves(t, t.process, SYSPID_SELF, a);
    ReturnsLeaves(t, t.process, SYSERR_OTHER, a);
    if Find(t.s, pid) != NIL && length > 0 && buffer {
      TalksLeaves(t, Find(t.s, pid), status, length, early, a);
    }
  }

  lemma DispatchLeaves(t: Table, request: Request, a: nat)
    requires t.Fit() && t.Serves(request) && Apart(t, a) && !Raises(t, request, a)
    requires Addresses(t, request, a) ==> !Meets(t.s, t.process, a)
    requires (request.Stop? || (request.SigReturn? && !request.stack)) ==> t.s[a].blockedId != t.At(t.process).pid
    ensures Leaves(t, t.Dispatch(request), a)
  {
    hide Table.Stops, Table.Creates, Table.Sleeps, Table.Charged, Table.Kills, Table.TalksTo, Raises, Meets;
    match request
    case Create(memory, table) =>
      CreatesLeaves(t, memory, table, a);
      ReturnsLeaves(t.Creates(memory, table), t.process, t.CreateResult(memory), a);
    case Yield => NextLeaves(t.Readies(t.process), a);
    case Stop => StopsLeaves(t, t.process, a);
    case GetPid => ReturnsLeaves(t, t.process, t.At(t.process).pid, a);
    case Kill(pid, signal) => KillsLeaves(t, pid, signal, a);
    case SendTo(pid, length, buffer, early) => TalksToLeaves(t, pid, Sending, length, buffer, early, a);
    case RecvFrom(pid, length, pidAddress, buffer, early) =>
      ReturnsLeaves(t, t.process, SYSERR_OTHER, a);
      if pidAddress { TalksToLeaves(t, pid, Receiving, length, buffer, early, a); }
    case SleepFor(milliseconds) => SleepsLeaves(t, t.process, TicksFor(milliseconds), a);
    case Sighandler(signal, newHandler, oldHandler, install) =>
    case SigReturn(stack, ret) => if !stack { StopsLeaves(t, t.process, a); }
    case Wait(pid) => WaitsLeaves(t, pid, a);
    case Timer => TimerLeaves(t, a);
  }

  lemma WaitsLeaves(t: Table, pid: nat, a: nat)
    requires t.Fit() && Apart(t, a) && t.process >= 0
    ensures Leaves(t, t.Waits(pid), a)
  {
    NextLeaves(t.Blocks(t.process, Waiting, pid).Returns(t.process, 0), a);
  }

  // ------------------------------------------------------------- one round

  // A message to or from process a that gets past the checks of its arguments.
  ghost predicate Addresses(t: Table, request: Request, a: nat)
    requires t.Serves(request)
  {
    || (request.SendTo? && Find(t.s, request.pid) == a && request.length > 0 && request.buffer)
    || (request.RecvFrom? && Find(t.s, request.pid) == a && request.length > 0 && request.buffer && request.pidAddress)
  }

  ghost predicate GoodPids(t: Table) {
    forall p: nat :: p < |t.s| ==> GoodPid(t.s[p].pid, p)
  }

  // Process a waits for the end of process b, and will be told that it ended.
  ghost predicate WaitsFor(t: Table, a: nat, b: nat) {
    && t.Fit() && GoodPids(t) && Apart(t, a) && b < |t.s|
    && t.s[a].state == Blocked && t.s[a].blockedStatus == BlockedStatus.Waiting
    && t.s[a].blockedId == t.s[b].pid && t.s[a].ret == 0
  }

  // What can wake it: the end of b, a signal, and a message from or to b.
  ghost predicate Wakes(t: Table, request: Request, a: nat, b: nat)
    requires t.Serves(request) && a < |t.s|
  {
    Ends(t, request, b) || Raises(t, request, a) || (t.process == b && Addresses(t, request, a))
  }

  lemma GoodRound(t: Table, request: Request)
    requires t.Fit() && t.Serves(request) && GoodPids(t)
    ensures t.Round(request).Fit() && GoodPids(t.Round(request))
  {
    var t' := t.Round(request);
    RoundFit(t, request);
    forall p: nat | p < |t'.s| ensures GoodPid(t'.s[p].pid, p) {
      RoundChanges(t, request, p);
      HandlersSame(t.s[p]);
      NextPidGood(t.s[p].pid, p);
    }
  }

  // The switch to a process that is not a changes nothing of this.
  lemma SwitchLeaves(t: Table, request: Request, a: nat, b: nat)
    requires WaitsFor(t, a, b) && t.Serves(request)
    ensures WaitsFor(t.Delivers(), a, b) && t.Delivers().s[a] == t.s[a] && t.Delivers().Serves(request)
    ensures Ends(t.Delivers(), request, b) == Ends(t, request, b)
    ensures Raises(t.Delivers(), request, a) == Raises(t, request, a)
    ensures Addresses(t.Delivers(), request, a) == Addresses(t, request, a)
  {
    var u := t.Delivers();
    DeliversSame(t);
    forall p: nat | p < |t.s| ensures u.s[p].pid == t.s[p].pid {
      HandlersSame(t.s[p]);
    }
    if request.Kill? || request.SendTo? || request.RecvFrom? { SameFound(t, u, request.pid); }
  }

  lemma StillWaits(t: Table, request: Request, a: nat, b: nat)
    requires WaitsFor(t, a, b) && t.Serves(request) && !Wakes(t, request, a, b)
    ensures WaitsFor(t.Round(request), a, b) && t.Round(request).s[b].pid == t.s[b].pid
  {
    var u := t.Delivers();
    SwitchLeaves(t, request, a, b);
    GoodRound(t, request);
    RoundChanges(t, request, b);
    HandlersSame(t.s[b]);
    if t.process >= 0 && t.process != b { OtherPid(u, t.process, b); }
    hide Table.Dispatch, Table.Delivers, Raises, Addresses;
    DispatchLeaves(u, request, a);
  }

  lemma OtherPid(t: Table, p: nat, b: nat)
    requires GoodPids(t) && p < |t.s| && b < |t.s| && p != b
    ensures t.s[p].pid != t.s[b].pid
  {
    assert GoodPid(t.s[p].pid, p) && GoodPid(t.s[b].pid, b);
  }

  lemma EndWakes(t: Table, request: Request, a: nat, b: nat)
    requires WaitsFor(t, a, b) && t.Serves(request) && Ends(t, request, b)
    ensures var t' := t.Dispatch(request);
            (a in t'.qs.ready || t'.process == a) && a !in t'.qs.blocked && t'.At(a).ret == 0
  {
    var q, pid := t.qs.blocked, t.s[b].pid;
    WaitersIn(t.s, q, |q|, pid, a);
    assert q[..|q|] == q;
    var t1 := t.Stops(b);
    assert a in Waiters(t.s, q, |q|, pid) && a in t1.qs.ready && a !in t1.qs.blocked && t1.At(a).ret == 0;
    NextTakes(t1, a);
  }

  lemma NextTakes(t: Table, a: nat)
    requires a in t.qs.ready
    ensures var t' := t.Next();
            && t'.qs.blocked == t.qs.blocked && t'.At(a).ret == t.At(a).ret
            && (a in t'.qs.ready || t'.process == a)
  {
    assert t.qs.ready == [t.qs.ready[0]] + t.qs.ready[1..];
  }

  lemma SignalWakes(t: Table, request: Request, a: nat, b: nat)
    requires WaitsFor(t, a, b) && t.Serves(request) && Raises(t, request, a)
    ensures a in t.Dispatch(request).qs.ready
  {
    var t1 := t.Signals(a, request.signal);
    assert t1.qs.ready == t.qs.ready + [a];
  }

  lemma MessageWakes(t: Table, request: Request, a: nat, b: nat)
    requires WaitsFor(t, a, b) && t.Serves(request) && t.process == b && Addresses(t, request, a)
    ensures a in t.Dispatch(request).qs.ready && t.Dispatch(request).process == b
  {
    assert GoodPid(t.s[b].pid, b);
    var length := request.length;
    var t0 := t.Edit(b, t.At(b).(length := length));
    assert Meets(t0.s, b, a);
    var status := if request.SendTo? then Sending else Receiving;
    assert t.Dispatch(request) == t.Talks(a, status, length, request.early);
    assert t0.Exchanges(b, a, status, length).qs.ready == t.qs.ready + [a];
  }

  // Exactly these wake it.
  lemma WokenExactly(t: Table, request: Request, a: nat, b: nat)
    requires WaitsFor(t, a, b) && t.Serves(request)
    ensures var t' := t.Round(request);
            && (a in t'.qs.ready || t'.process == a <==> Wakes(t, request, a, b))
            && (Ends(t, request, b) ==> a !in t'.qs.blocked && t'.At(a).ret == 0)
  {
    var u := t.Delivers();
    SwitchLeaves(t, request, a, b);
    if !Wakes(t, request, a, b) {
      StillWaits(t, request, a, b);
    }
    DeliversSame(t);
    hide Table.Dispatch, Table.Delivers, Raises, Addresses;
    if Ends(t, request, b) {
      EndWakes(u, request, a, b);
    } else if Raises(t, request, a) {
      SignalWakes(u, request, a, b);
    } else if t.process == b && Addresses(t, request, a) {
      MessageWakes(u, request, a, b);
    }
  }

  // ------------------------------------------------------------------- runs

  // Process a runs, and is in no queue.
  ghost predicate Runs(t: Table, a: nat) {
    && t.Fit() && GoodPids(t) && t.process == a
    && a !in t.qs.ready && a !in t.qs.blocked && a !in t.qs.sleep && a !in t.qs.stopped
  }

  // So it is in the kernel, where every process is in its place.
  lemma InPlace(s: seq<Pcb>, qs: Queues, a: nat)
    requires World(s, qs, {a}, false) && a < |s|
    ensures Runs(Table(Unlinked(s), qs, a), a)
  {
    forall w: Where ensures a !in qs.At(w) {
      HomeOf(s, qs, {a}, false, a, w);
    }
    forall p: nat | p < |s| ensures GoodPid(s[p].pid, p) {
      HomeOf(s, qs, {a}, false, p, InReady);
    }
    ChainPlaces(s, qs.At(InStopped));
    ChainPlaces(s, qs.At(InReady));
    ChainPlaces(s, qs.At(InBlocked));
    ChainPlaces(s, qs.At(InSleep));
    assert a !in qs.At(InStopped) && a !in qs.At(InReady) && a !in qs.At(InBlocked) && a !in qs.At(InSleep);
  }

  lemma Waited(t: Table, a: nat, b: nat)
    requires Runs(t, a) && b < |t.s| && t.s[b].state != Stopped
    ensures t.Serves(Wait(t.s[b].pid)) && WaitsFor(OneRound(t, Wait(t.s[b].pid)), a, b)
  {
    var u, request := t.Delivers(), Wait(t.s[b].pid);
    DeliversSame(t);
    GoodRound(t, request);
    RoundChanges(t, request, b);
    HandlersSame(t.s[a]);
    HandlersSame(t.s[b]);
    assert GoodPid(t.s[b].pid, b);
    assert a !in u.qs.ready && a !in u.qs.sleep && a !in u.qs.stopped && u.process == a && u.s[b].pid == t.s[b].pid;
    hide Table.Delivers, Delivered, GoodPids, Runs, Changes;
    StartsToWait(u, a, b);
  }

  lemma StartsToWait(t: Table, a: nat, b: nat)
    requires t.Fit() && t.process == a && a !in t.qs.ready && a !in t.qs.sleep && a !in t.qs.stopped
    requires b < |t.s| && t.s[b].state != Stopped && GoodPid(t.s[b].pid, b)
    ensures var t' := t.Dispatch(Wait(t.s[b].pid));
            && Apart(t', a) && t'.s[a].state == Blocked && t'.s[a].blockedStatus == BlockedStatus.Waiting
            && t'.s[a].blockedId == t.s[b].pid && t'.s[a].ret == 0
  {
    assert Find(t.s, t.s[b].pid) == b;
    var t1 := t.Blocks(a, BlockedStatus.Waiting, t.s[b].pid).Returns(a, 0);
    assert t1.qs.blocked[|t.qs.blocked|] == a;
    NextLeaves(t1.(process := NIL), a);
  }

  // Nothing of this happens all through a run.
  ghost predicate Spared(t: Table, requests: seq<Request>, a: nat, b: nat)
    decreases requests
  {
    || requests == []
    || (a < |t.s| && (t.Serves(requests[0]) ==> !Wakes(t, requests[0], a, b))
        && Spared(OneRound(t, requests[0]), requests[1..], a, b))
  }

  lemma {:induction false} WaitsOn(t: Table, requests: seq<Request>, a: nat, b: nat)
    requires WaitsFor(t, a, b) && Spared(t, requests, a, b)
    ensures WaitsFor(Course(t, requests), a, b)
    decreases requests
  {
    hide WaitsFor, Wakes, Table.Round;
    if requests != [] {
      if t.Serves(requests[0]) { StillWaits(t, requests[0], a, b); }
      WaitsOn(OneRound(t, requests[0]), requests[1..], a, b);
    }
  }

  // A process that waits for another one is woken by its end, and then is told 0; the same
  // as long as it lives by a signal or a message between the two, and by nothing else.
  lemma WaitEnds(t: Table, requests: seq<Request>, last: Request, a: nat, b: nat)
    requires Runs(t, a) && b < |t.s| && t.s[b].state != Stopped
    requires Spared(OneRound(t, Wait(t.s[b].pid)), requests, a, b)
    ensures var t1 := Course(t, [Wait(t.s[b].pid)] + requests);
            var t2 := OneRound(t1, last);
            && a in t1.qs.blocked && a !in t1.qs.ready && t1.process != a
            && (t1.Serves(last) ==>
                && (a in t2.qs.ready || t2.process == a <==> Wakes(t1, last, a, b))
                && (Ends(t1, last, b) ==> a !in t2.qs.blocked && t2.At(a).ret == 0))
  {
    var wait := Wait(t.s[b].pid);
    var t0 := OneRound(t, wait);
    Waited(t, a, b);
    WaitsOn(t0, requests, a, b);
    CourseSplit(t, [wait], requests);
    CourseNext(t, [], wait);
    assert [] + [wait] == [wait];
    var t1 := Course(t0, requests);
    if t1.Serves(last) { WokenExactly(t1, last, a, b); }
  }

  // No signal is raised for process a all through a run.
  ghost predicate Unsignalled(t: Table, requests: seq<Request>, a: nat)
    decreases requests
  {
    || requests == []
    || (a < |t.s| && (t.Serves(requests[0]) ==> !Raises(t, requests[0], a))
        && Unsignalled(OneRound(t, requests[0]), requests[1..], a))
  }

  lemma {:induction false} OnlySignals(t: Table, requests: seq<Request>, a: nat)
    requires WaitsFor(t, a, a) && Unsignalled(t, requests, a)
    ensures Spared(t, requests, a, a)
    decreases requests
  {
    if requests != [] {
      assert t.Serves(requests[0]) ==> !Wakes(t, requests[0], a, a);
      if t.Serves(requests[0]) { StillWaits(t, requests[0], a, a); }
      OnlySignals(OneRound(t, requests[0]), requests[1..], a);
    }
  }

  // A process may wait for itself, and then only a signal wakes it.
  lemma WaitsForItself(t: Table, requests: seq<Request>, a: nat)
    requires Runs(t, a) && t.s[a].state != Stopped
    requires Unsignalled(OneRound(t, Wait(t.s[a].pid)), requests, a)
    ensures var t1 := Course(t, [Wait(t.s[a].pid)] + requests);
            a in t1.qs.blocked && a !in t1.qs.ready && t1.process != a
  {
    Waited(t, a, a);
    OnlySignals(OneRound(t, Wait(t.s[a].pid)), requests, a);
    WaitEnds(t, requests, Timer, a, a);
  }

  // ------------------------------------------------------ the first two processes

  // The first process has created the second one.
  ghost predicate FirstTwo(t: Table) {
    && Runs(t, 0) && t.qs.ready == [1] && t.qs.blocked == [] && t.s[0].pid == 1 && t.s[1].pid == 2
    && t.s[0].state == Running && t.s[1].state == Ready
  }

  lemma SecondCreated(table: set<nat>, second: set<nat>)
    ensures FirstTwo(OneRound(Booted(table), Create(true, second)))
  {
    var t, request := Booted(table), Create(true, second);
    BootedFit(table);
    DeliversSame(t);
    forall p: nat | p < |t.s| ensures GoodPid(t.s[p].pid, p) {
      BootedPid(table, p);
    }
    GoodRound(t, request);
    BootedPid(table, 0);
    BootedPid(table, 1);
    RoundChanges(t, request, 0);
    RoundChanges(t, request, 1);
    Booting(table);
  }

  lemma Booting(table: set<nat>)
    ensures var t := Booted(table);
            && t.process == 0 && t.qs.ready == [] && t.qs.blocked == [] && t.qs.sleep == []
            && t.qs.stopped == seq(31, i requires 0 <= i => i + 1) && t.s[0].state == Running
  {
  }

  // It waits for the second one, which stops: it runs again, with 0 as its result.
  lemma SecondStops(table: set<nat>, second: set<nat>)
    ensures var t := Course(Booted(table), [Create(true, second), Wait(2), Stop]);
            t.process == 0 && t.At(0).ret == 0 && t.At(1).state == Stopped
  {
    var t1 := OneRound(Booted(table), Create(true, second));
    SecondCreated(table, second);
    ThreeRounds(Booted(table), Create(true, second), Wait(2), Stop);
    hide FirstTwo;
    SecondRuns(t1);
    var t2 := OneRound(t1, Wait(2));
    hide *;
    StopsSecond(t2);
  }

  // The second one runs, and the first waits for it.
  ghost predicate SecondOne(t: Table) {
    && WaitsFor(t, 0, 1) && t.process == 1 && t.qs.ready == [] && t.qs.blocked == [0]
    && t.s[0].pid == 1 && t.s[1].pid == 2 && t.s[1].state != Stopped
  }

  lemma SecondRuns(t: Table)
    requires FirstTwo(t)
    ensures SecondOne(OneRound(t, Wait(2)))
  {
    Waited(t, 0, 1);
    RoundChanges(t, Wait(2), 0);
    RoundChanges(t, Wait(2), 1);
    DeliversSame(t);
    HandlersSame(t.s[0]);
  }

  lemma StopsSecond(t: Table)
    requires SecondOne(t)
    ensures var t' := OneRound(t, Stop); t'.process == 0 && t'.At(0).ret == 0 && t'.At(1).state == Stopped
  {
    DeliversSame(t);
    HandlersSame(t.s[1]);
    var u := t.Delivers();
    assert Waiters(u.s, [0], 1, 2) == Waiters(u.s, [0], 0, 2) + [0] == [0];
    assert u.Stops(1).qs.ready == [0];
  }

  // Had the second one sent it a message, it would have been ready with the second one
  // still running.
  lemma SecondSends(table: set<nat>, second: set<nat>, early: bool)
    ensures var t := Course(Booted(table), [Create(true, second), Wait(2), SendTo(1, 1, true, early)]);
            t.process == 1 && 0 in t.qs.ready
  {
    var t1 := OneRound(Booted(table), Create(true, second));
    SecondCreated(table, second);
    ThreeRounds(Booted(table), Create(true, second), Wait(2), SendTo(1, 1, true, early));
    SecondRuns(t1);
    var t2, send := OneRound(t1, Wait(2)), SendTo(1, 1, true, early);
    SwitchLeaves(t2, send, 0, 1);
    DeliversSame(t2);
    hide FirstTwo;
    assert Addresses(t2, send, 0);
    MessageWakes(t2.Delivers(), send, 0, 1);
  }
}
