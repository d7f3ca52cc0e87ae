// What processes are told, and what their requests come to for others.
module Replies {
  import opened Bits
  import opened Masks
  import opened Pcbs
  import opened DeltaQueue
  import opened Dispatcher
  import opened Places
  import opened Slots
  import opened Waiting

  // Nothing changes but what the running process is told.
  ghost predicate Told(t: Table, t': Table, ret: int) {
    && 0 <= t.process < |t.s| && t'.qs == t.qs && t'.process == t.process
    && t'.s == t.s[t.process := t.s[t.process].(ret := ret)]
  }

  // The slot that the pid names is free.
  ghost predicate Nobody(t: Table, pid: nat)
    requires |t.s| == PCB_TABLE_SIZE
  {
    pid == 0 || t.s[(pid - 1) % 32].state == Stopped
  }

  // Every refusal changes nothing else, and its number says why.
  lemma Refusals(t: Table, request: Request)
    requires t.Fit() && t.Serves(request) && t.process >= 0
    ensures var u, t', self := t.Delivers(), t.Round(request), t.s[t.process].pid;
            match request
            case Create(memory, _) => !memory || t.qs.stopped == [] ==> Told(u, t', -1)
            case Wait(pid) => Nobody(t, pid) ==> Told(u, t', -1)
            case SendTo(pid, length, buffer, _) =>
              Nobody(t, pid) || pid == self || length <= 0 || !buffer ==>
                Told(u, t', if Nobody(t, pid) then -1 else if pid == self then -2 else -3)
            case RecvFrom(pid, length, pidAddress, buffer, _) =>
              !pidAddress || Nobody(t, pid) || pid == self || length <= 0 || !buffer ==>
                Told(u, t', if !pidAddress then -3 else if Nobody(t, pid) then -1 else if pid == self then -2 else -3)
            case Kill(pid, signal) =>
              Nobody(t, pid) || !(0 <= signal < 32) ==> Told(u, t', if Nobody(t, pid) then -512 else -561)
            case Sighandler(signal, newHandler, oldHandler, install) =>
              !(0 <= signal < 31) || (install && !newHandler) || !oldHandler ==>
                Told(u, t', if !(0 <= signal < 31) then -1 else if install && !newHandler then -2 else -3)
            case _ => true
  {
    var u := t.Delivers();
    DeliversSame(t);
    HandlersSame(t.s[t.process]);
    assert u.s[t.process].pid == t.s[t.process].pid;
    forall pid: nat ensures Nobody(u, pid) == Nobody(t, pid) {
      if pid > 0 && (pid - 1) % 32 == t.process { HandlersSame(t.s[t.process]); }
    }
    hide Table.Delivers, Delivered;
  }

  // A blocked process that a signal is raised for is ready at once, at the end of the queue.
  // A send or receive is told -99; a wait, or a sleeper, what it had as its result.
  lemma Interrupted(t: Table, request: Request, p: nat)
    requires t.Fit() && t.Serves(request) && p < |t.s| && p != t.process && Raises(t, request, p)
    requires t.s[p].state == Blocked && (PlaceOf(t.s[p]) == InBlocked || PlaceOf(t.s[p]) == InSleep)
    ensures var t', status := t.Round(request), t.s[p].blockedStatus;
            && t'.qs.ready == t.qs.ready + [p] && t'.process == t.process && t'.At(p).state == Ready
            && t'.At(p).ret == (if status == Sending || status == Receiving then -99 else t.s[p].ret)
            && t'.qs.sleep == (if status == Sleeping then Minus(t.qs.sleep, p) else t.qs.sleep)
            && t'.qs.blocked == (if status == Sleeping then t.qs.blocked else Minus(t.qs.blocked, p))
  {
    var u := t.Delivers();
    DeliversSame(t);
    SameFound(t, u, request.pid);
    hide Table.Delivers, Minus;
    assert u.s[p] == t.s[p] && Raises(u, request, p);
    var t1 := u.Signals(p, request.signal);
    assert t1.qs.ready == t.qs.ready + [p];
  }

  // What the creator is told is the pid of the new process as long as that lives: it is
  // found by it, and is told the same when it asks.
  lemma CreatedPid(t: Table, table: set<nat>, requests: seq<Request>, p: nat)
    requires t.Fit() && t.process >= 0 && t.process != p < |t.s| && t.qs.stopped != [] && t.qs.stopped[0] == p
    requires GoodPid(t.s[p].pid, p)
    requires Recycles(OneRound(t, Create(true, table)), requests, p) == 0
    ensures var t1 := OneRound(t, Create(true, table));
            var t2, pid := Course(t1, requests), t1.At(t.process).ret;
            && pid >= 1 && |t2.s| == PCB_TABLE_SIZE
            && (t2.At(p).state != Stopped ==> Find(t2.s, pid) == p)
            && (t2.process == p ==> OneRound(t2, GetPid).At(p).ret == pid)
  {
    var request := Create(true, table);
    var t1 := OneRound(t, request);
    RoundFit(t, request);
    RoundChanges(t, request, p);
    CreatorTold(t, table, p);
    CourseFit(t1, requests);
    PidInRun(t1, requests, p);
    var t2 := Course(t1, requests);
    assert t2.At(p).pid == t.s[p].pid;
    if t2.process == p {
      DeliversSame(t2);
      HandlersSame(t2.s[p]);
    }
  }

  lemma CreatorTold(t: Table, table: set<nat>, p: nat)
    requires t.Fit() && t.process >= 0 && t.process != p < |t.s| && t.qs.stopped != [] && t.qs.stopped[0] == p
    ensures OneRound(t, Create(true, table)).At(t.process).ret == t.s[p].pid
  {
    DeliversSame(t);
  }

  // A signal can be raised for a process after it installed a handler, and cannot after it
  // removed it.
  lemma HandlerInstalled(t: Table, signal: nat, install: bool)
    requires t.Fit() && t.process >= 0 && signal < 31 && Find(t.s, t.s[t.process].pid) == t.process
    requires t.s[t.process].state == Running
    ensures var t1, a := OneRound(t, Sighandler(signal, true, true, install)), t.process;
            var t2, pending := OneRound(t1, Kill(t.s[a].pid, signal)), Delivered(t1.At(a)).pending;
            && t1.At(a).ret == 0 && t2.At(a).ret == 0
            && t2.At(a).pending == if install then SetBit(pending, signal) else pending
  {
    var a, request := t.process as nat, Sighandler(signal, true, true, install);
    var t1, kill := OneRound(t, request), Kill(t.s[a].pid, signal);
    DeliversSame(t);
    RoundFit(t, request);
    RoundChanges(t, request, a);
    HandlersSame(t.s[a]);
    assert t1.process == a && Find(t1.s, t.s[a].pid) == a && (signal in t1.s[a].handlers <==> install);
    KillsSelf(t1, a, signal);
  }

  lemma KillsSelf(t: Table, a: nat, signal: nat)
    requires t.Fit() && t.process == a && signal < 32 && Find(t.s, t.s[a].pid) == a && t.s[a].state != Blocked
    ensures var t' := OneRound(t, Kill(t.s[a].pid, signal));
            t'.At(a).ret == 0
            && t'.At(a).pending == if signal in t.s[a].handlers then SetBit(Delivered(t.s[a]).pending, signal)
                                   else Delivered(t.s[a]).pending
  {
    RoundChanges(t, Kill(t.s[a].pid, signal), a);
    DeliversSame(t);
    SameFound(t, t.Delivers(), t.s[a].pid);
    HandlersSame(t.s[a]);
  }

  // A new process has a handler for signal 31, none for signal 0, and else what the memory
  // of its table held.
  lemma FreshHandlers(t: Table, table: set<nat>, p: nat, signal: nat)
    requires t.Fit() && t.process >= 0 && t.process != p < |t.s| && t.qs.stopped != [] && t.qs.stopped[0] == p
    requires GoodPid(t.s[p].pid, p) && signal < 32
    ensures var t1 := OneRound(t, Create(true, table));
            var t2 := OneRound(t1, Kill(t.s[p].pid, signal));
            t2.At(p).pending == if signal == 31 || (signal in table && signal != 0) then SetBit(t.s[p].pending, signal)
                                else t.s[p].pending
  {
    var t1, kill := OneRound(t, Create(true, table)), Kill(t.s[p].pid, signal);
    DeliversSame(t);
    RoundFit(t, Create(true, table));
    RoundChanges(t, Create(true, table), p);
    RoundChanges(t1, kill, p);
    assert t1.process == t.process && t1.s[p].state == Ready && Find(t1.s, t.s[p].pid) == p;
    assert signal in t1.s[p].handlers <==> signal == 31 || (signal in table && signal != 0);
  }

  // A message to or from a process that is not blocked on this one: the other one goes to the
  // end of the blocked queue if it is there, this one behind it, and the next one runs.
  lemma NotMet(t: Table, request: Request, b: nat, x: int)
    requires t.Fit() && t.process >= 0 && b < |t.s| && b != t.process && Find(t.s, t.s[b].pid) == b && x > 0
    requires Messages(request, t.s[b].pid, x) && t.s[b].pid != t.s[t.process].pid
    requires PlaceOf(t.s[b]) == InBlocked ==> t.s[b].blockedId != t.s[t.process].pid
    ensures var t', a := t.Round(request), t.process as nat;
            && t'.qs.blocked == (if PlaceOf(t.s[b]) == InBlocked then Minus(t.qs.blocked, b) + [b, a]
                                 else t.qs.blocked + [a])
            && (if t.qs.ready == [] then t'.process == NIL && t'.qs.ready == []
                else t'.process == t.qs.ready[0] && t'.qs.ready == t.qs.ready[1..])
  {
    var u, a := t.Delivers(), t.process as nat;
    DeliversSame(t);
    SameFound(t, u, t.s[b].pid);
    HandlersSame(t.s[a]);
    hide Table.Delivers, Find, Minus;
    assert u.s[b] == t.s[b] && u.s[a].pid == t.s[a].pid;
    assert Minus(t.qs.blocked, b) + [b] + [a] == Minus(t.qs.blocked, b) + [b, a];
  }

  // Slots are used again in the order in which they became free.
  lemma FreedInOrder(t: Table, request: Request)
    requires t.Fit() && t.Serves(request)
    ensures t.Round(request).qs.stopped
         == (if request.Create? && request.memory && t.qs.stopped != [] then t.qs.stopped[1..] else t.qs.stopped)
            + (if request.Stop? || (request.SigReturn? && !request.stack) then [t.process] else [])
  {
    DeliversSame(t);
    hide Table.Delivers, Timed, Woken, Deltas, Ticked, Ripe, Waiters, Others, Inserted, SpotFrom, Minus;
  }

  // A process is charged one tick whenever it is chosen to run and one whenever the timer
  // goes off while it runs; a process that ends leaves nothing.
  lemma CpuCharged(t: Table, request: Request, p: nat)
    requires t.Fit() && t.Serves(request) && p < |t.s| && (t.process != NIL ==> Runs(t, t.process))
    ensures var t' := t.Round(request);
            && p < |t'.s|
            && t'.s[p].cpuTime ==
               (if Ends(t, request, p) then 0 else t.s[p].cpuTime)
               + (if request.Timer? && t.process == p then 1 else 0)
               + (if t'.process == p && (t.process != p || request.Yield? || request.Timer?) then 1 else 0)
  {
    var u := t.Delivers();
    DeliversSame(t);
    DispatchFit(u, request);
    hide Table.Delivers, Table.Dispatch;
    DispatchCharges(u, request, p);
  }

  // The running process is not among the ready ones.
  ghost predicate Alone(t: Table) {
    t.process != NIL ==> t.process !in t.qs.ready && t.process !in t.qs.blocked
  }

  ghost predicate Charges(t: Table, request: Request, p: nat)
    requires t.Serves(request) && p < |t.s|
  {
    var t' := t.Dispatch(request);
    && p < |t'.s|
    && t'.s[p].cpuTime == (if Ends(t, request, p) then 0 else t.s[p].cpuTime)
                          + (if request.Timer? && t.process == p then 1 else 0)
                          + (if t'.process == p && (t.process != p || request.Yield? || request.Timer?) then 1 else 0)
  }

  lemma DispatchCharges(t: Table, request: Request, p: nat)
    requires t.Fit() && t.Serves(request) && p < |t.s| && Alone(t)
    ensures Charges(t, request, p)
  {
    hide Table.TalksTo, Table.Stops, Table.Sleeps;
    match request
    case Yield => NextCharges(t.Readies(t.process), p);
    case Stop => StopCharges(t, p);
    case SigReturn(stack, _) => if !stack { StopCharges(t, p); }
    case SleepFor(milliseconds) => SleepCharges(t, TicksFor(milliseconds), p);
    case Wait(pid) => NextCharges(t.Blocks(t.process, BlockedStatus.Waiting, pid).Returns(t.process, 0), p);
    case Timer => TimerCharges(t, p);
    case SendTo(pid, length, buffer, early) => TalkCharges(t, pid, Sending, length, buffer, early, p);
    case RecvFrom(pid, length, _, buffer, early) => TalkCharges(t, pid, Receiving, length, buffer, early, p);
    case _ => OthersCharge(t, request, p);
  }

  lemma NextCharges(t: Table, p: nat)
    requires p < |t.s|
    ensures t.Next().s[p].cpuTime == t.s[p].cpuTime + if t.Next().process == p then 1 else 0
    ensures t.Next().process != NIL ==> t.Next().process in t.qs.ready
  {
  }

  lemma StopCharges(t: Table, p: nat)
    requires t.Fit() && t.process >= 0 && p < |t.s| && Alone(t)
    ensures var t' := t.Stops(t.process).Next();
            && p < |t'.s| && t'.process != t.process
            && t'.s[p].cpuTime == (if p == t.process then 0 else t.s[p].cpuTime) + if t'.process == p then 1 else 0
  {
    hide Waiters, Others;
    var q := t.qs.blocked;
    WaitersIn(t.s, q, |q|, t.At(t.process).pid, t.process);
    assert q[..|q|] == q;
    NextCharges(t.Stops(t.process), p);
  }

  lemma SleepCharges(t: Table, ticks: nat, p: nat)
    requires t.Fit() && t.process >= 0 && p < |t.s| && Alone(t)
    ensures var t' := t.Sleeps(t.process, ticks).Next();
            && p < |t'.s| && t'.process != t.process
            && t'.s[p].cpuTime == t.s[p].cpuTime + if t'.process == p then 1 else 0
  {
    hide TimeOf, Deltas, Inserted, SpotFrom;
    NextCharges(t.Sleeps(t.process, ticks), p);
  }

  lemma TimerCharges(t: Table, p: nat)
    requires t.Fit() && p < |t.s|
    ensures Charges(t, Timer, p)
  {
    hide Deltas, Ticked, Ripe, TimeOf;
    assert t.Ticks().s[p].cpuTime == t.s[p].cpuTime;
    NextCharges(t.Charged(), p);
  }

  lemma TalksCharge(t: Table, other: nat, status: BlockedStatus, length: int, early: bool, p: nat)
    requires t.Fit() && t.process >= 0 && p < |t.s| && Alone(t)
    ensures var t' := t.Talks(other, status, length, early);
            && p < |t'.s|
            && t'.s[p].cpuTime == t.s[p].cpuTime + if t'.process == p && t.process != p then 1 else 0
  {
    var curr := t.process as nat;
    var t0 := t.Edit(curr, t.At(curr).(length := length));
    var t1 := t0.Exchanges(curr, other, status, length);
    ExchangesFree(t0, curr, other, status, length, p);
    NextCharges(t1, p);
    hide Table.Exchanges, Meets;
  }

  lemma ExchangesFree(t: Table, curr: nat, other: nat, status: BlockedStatus, length: int, p: nat)
    requires p < |t.s|
    ensures var t' := t.Exchanges(curr, other, status, length);
            && |t'.s| == |t.s| && t'.s[p].cpuTime == t.s[p].cpuTime && t'.process == t.process
            && (!Meets(t.s, curr, other) ==> t'.qs.ready == t.qs.ready)
  {
  }

  lemma TalkCharges(t: Table, pid: nat, status: BlockedStatus, length: int, buffer: bool, early: bool, p: nat)
    requires t.Fit() && t.process >= 0 && p < |t.s| && Alone(t)
    ensures var t' := t.TalksTo(pid, status, length, buffer, early);
            && p < |t'.s|
            && t'.s[p].cpuTime == t.s[p].cpuTime + if t'.process == p && t.process != p then 1 else 0
  {
    if Find(t.s, pid) != NIL {
      TalksCharge(t, Find(t.s, pid), status, length, early, p);
    }
    hide Table.Talks;
  }

  lemma OthersCharge(t: Table, request: Request, p: nat)
    requires t.Fit() && t.Serves(request) && p < |t.s|
    requires request.Create? || request.GetPid? || request.Kill? || request.Sighandler?
    ensures Charges(t, request, p)
  {
    hide Minus;
  }
}
