// The process table and the dispatcher: c/pcb.c, c/sleep.c, c/msg.c, set_pcb_signal
// of c/signal.c, and c/disp.c.
module Kernels {
  import opened Bits
  import opened Pcbs
  import opened DeltaQueue
  import opened Dispatcher
  import opened Masks
  import opened Places

  // Only links differ.
  ghost predicate SameButLinks(s: seq<Pcb>, s': seq<Pcb>) {
    |s'| == |s| && forall i :: 0 <= i < |s| ==> s'[i] == s[i].(next := s'[i].next)
  }

  // Only p, now x, and links differ.
  ghost predicate Changed(s: seq<Pcb>, s': seq<Pcb>, p: nat, x: Pcb) {
    && |s'| == |s|
    && forall i :: 0 <= i < |s| ==> s'[i] == (if i == p then x else s[i]).(next := s'[i].next)
  }

  lemma SeenSame(s: seq<Pcb>, s': seq<Pcb>)
    requires SameButLinks(s, s')
    ensures Unlinked(s') == Unlinked(s)
  {
    forall i | 0 <= i < |s| ensures Unlinked(s')[i] == Unlinked(s)[i] {
    }
  }

  lemma SeenChange(s: seq<Pcb>, s': seq<Pcb>, p: nat, x: Pcb)
    requires Changed(s, s', p, x) && p < |s|
    ensures Unlinked(s') == Unlinked(s)[p := x.(next := NIL)]
  {
    forall i | 0 <= i < |s| ensures Unlinked(s')[i] == Unlinked(s)[p := x.(next := NIL)][i] {
    }
  }

  lemma GainsLast(q: seq<nat>, p: nat)
    ensures Gains(q, q + [p], p)
  {
  }

  lemma GainsAt(q: seq<nat>, k: nat, p: nat)
    requires Distinct(q) && k <= |q| && p !in q
    ensures Gains(q, With(q, k, p), p)
  {
    forall x: nat ensures x in With(q, k, p) <==> x in q || x == p {
      WithMembers(q, k, p, x);
    }
  }

  lemma Offered(s: seq<Pcb>, s': seq<Pcb>, q: seq<nat>, p: nat)
    requires Relinked(s, s', Members(q) + {p})
    ensures OthersKeep(s, s', q, p) && SameButLinks(s, s')
  {
    forall i | 0 <= i < |s| && i != p && i !in q ensures s'[i] == s[i] {
      OffQueue(q, i);
    }
  }

  lemma TakesOut(s: seq<Pcb>, qs: Queues, hands: set<nat>, ticking: bool, s': seq<Pcb>, p: nat, w: Where)
    requires World(s, qs, hands, ticking) && p in qs.At(w) && p < |s|
    requires Relinked(s, s', Members(qs.At(w))) && s'[p].next == NIL && Chained(s', Minus(qs.At(w), p))
    requires ticking && w == InSleep ==> p == Link(qs.sleep, 0)
    ensures World(s', qs.Set(w, Minus(qs.At(w), p)), hands + {p}, ticking)
  {
    var q := qs.At(w);
    assert Chained(s, q);
    forall x: nat ensures x in Minus(q, p) <==> x in q && x != p {
      MinusMembers(q, p, x);
    }
    Takes(s, qs, hands, ticking, s', p, w, Minus(q, p));
  }

  lemma Polled(s: seq<Pcb>, s': seq<Pcb>, q: seq<nat>, p: nat)
    requires q != [] && p == q[0] && Distinct(q) && Relinked(s, s', {p})
    ensures Relinked(s, s', Members(q)) && Loses(q, q[1..], p)
  {
    assert p in Members(q);
    forall x: nat ensures x in q[1..] <==> x in q && x != p {
      MinusMembers(q, p, x);
    }
  }

  // pcb_array at first
  const ZEROED: Pcb := Pcb(0, Ready, 0, NotBlocked, NIL, 0, 0, 0, 0, {}, 0)

  lemma AllStopped(s: seq<Pcb>, ticking: bool)
    requires |s| == PCB_TABLE_SIZE && Chained(s, seq(PCB_TABLE_SIZE, i => i))
    requires forall p: nat :: p < |s| ==> s[p].pid == p + 1 && s[p].state == Stopped
    ensures World(s, Queues(seq(PCB_TABLE_SIZE, i => i), [], [], []), {}, ticking)
  {
    var q := seq(PCB_TABLE_SIZE, i => i);
    var qs := Queues(q, [], [], []);
    forall p: nat | p < |s| ensures Home(s, qs, {}, ticking, p) {
      assert q[p] == p;
      forall w: Where ensures Belongs(s, qs, {}, p, w) {
      }
    }
    forall w: Where ensures Chained(s, qs.At(w)) {
    }
  }

  // ------------------------------------------------------------------ waiters

  // Those that waited for pid are ready, and everyone else is as before.
  ghost predicate Unblocks(s: seq<Pcb>, s': seq<Pcb>, woken: seq<nat>) {
    && |s'| == |s|
    && forall x: nat :: x < |s| ==>
         s'[x] == (if x in woken then s[x].(blockedId := 0, state := Ready, blockedStatus := NotBlocked) else s[x])
                  .(next := s'[x].next)
  }

  lemma SeenUnblocked(s: seq<Pcb>, qs: Queues, process: int, s': seq<Pcb>, pid: nat)
    requires forall i :: 0 <= i < |qs.blocked| ==> qs.blocked[i] < |s|
    requires Unblocks(s, s', Waiters(s, qs.blocked, |qs.blocked|, pid))
    ensures var q := qs.blocked;
            Table(Unlinked(s), qs, process).Unblocks(pid)
            == Table(Unlinked(s'),
                     qs.(blocked := Others(s, q, |q|, pid), ready := qs.ready + Waiters(s, q, |q|, pid)), process)
  {
    WaitersSame(s, Unlinked(s), qs.blocked, |qs.blocked|, pid);
    var t := Table(Unlinked(s), qs, process).Unblocks(pid);
    forall x | 0 <= x < |s| ensures Unlinked(s')[x] == t.s[x] {
    }
  }

  // The queues after one more entry, p, was looked at.
  lemma NextWaiter(s: seq<Pcb>, q: seq<nat>, n: nat, pid: nat, ready: seq<nat>)
    requires n < |q| && forall i :: 0 <= i < |q| ==> q[i] < |s|
    ensures (q[n..] + Others(s, q, n, pid))[1..] == q[n + 1..] + Others(s, q, n, pid)
    ensures s[q[n]].blockedId == pid ==>
      && Waiters(s, q, n + 1, pid) == Waiters(s, q, n, pid) + [q[n]]
      && ready + Waiters(s, q, n + 1, pid) == ready + Waiters(s, q, n, pid) + [q[n]]
      && Others(s, q, n + 1, pid) == Others(s, q, n, pid)
    ensures s[q[n]].blockedId != pid ==>
      && Waiters(s, q, n + 1, pid) == Waiters(s, q, n, pid)
      && q[n + 1..] + Others(s, q, n + 1, pid) == q[n + 1..] + Others(s, q, n, pid) + [q[n]]
  {
  }

  lemma UnblocksSame(s: seq<Pcb>, s1: seq<Pcb>, s2: seq<Pcb>, woken: seq<nat>, p: nat)
    requires Unblocks(s, s1, woken) && p < |s| && s1[p].state == Blocked
    requires Changed(s1, s2, p, s1[p].(state := Blocked))
    ensures Unblocks(s, s2, woken)
  {
  }

  lemma UnblocksMore(s: seq<Pcb>, s1: seq<Pcb>, s2: seq<Pcb>, woken: seq<nat>, p: nat)
    requires Unblocks(s, s1, woken) && p < |s| && p !in woken
    requires Changed(s1, s2, p, s1[p].(blockedId := 0, state := Ready, blockedStatus := NotBlocked))
    ensures Unblocks(s, s2, woken + [p])
  {
  }

  // One round of a queue.
  lemma Rotates(q: seq<nat>, i: nat)
    requires i < |q|
    ensures (q[i..] + q[..i])[1..] + [q[i]] == q[i + 1..] + q[..i + 1]
  {
  }

  // The first of the first n that is blocked in a send.
  ghost function FirstSender(s: seq<Pcb>, q: seq<nat>, n: nat): int
    requires n <= |q| && forall i :: 0 <= i < |q| ==> q[i] < |s|
  {
    if n == 0 then NIL
    else
      var p := FirstSender(s, q, n - 1);
      if p == NIL && s[q[n - 1]].blockedStatus == Sending then q[n - 1] else p
  }

  lemma {:induction false} FirstSenderIs(s: seq<Pcb>, q: seq<nat>, n: nat)
    requires n <= |q| && forall i :: 0 <= i < |q| ==> q[i] < |s|
    ensures var p := FirstSender(s, q, n);
            if p == NIL then forall i :: 0 <= i < n ==> s[q[i]].blockedStatus != Sending
            else exists i :: 0 <= i < n && q[i] == p && s[p].blockedStatus == Sending
                             && forall j :: 0 <= j < i ==> s[q[j]].blockedStatus != Sending
  {
    if n > 0 {
      FirstSenderIs(s, q, n - 1);
    }
  }

  // ------------------------------------------------------------------ kernel

  class Kernel {
    const pcbs: array<Pcb>
    const stopped: PcbQueue
    const ready: PcbQueue
    const blocked: PcbQueue
    const sleeping: PcbQueue
    // The running process, NULL for the idle process.
    var process: int
    // A tick is under way.
    ghost var ticking: bool

    function QueueOf(w: Where): PcbQueue
      requires w != Nowhere
    {
      match w
      case InStopped => stopped
      case InReady => ready
      case InBlocked => blocked
      case InSleep => sleeping
    }

    ghost function Qs(): Queues
      reads stopped, ready, blocked, sleeping
    {
      Queues(stopped.contents, ready.contents, blocked.contents, sleeping.contents)
    }

    // What the dispatcher's requests are about.
    ghost function View(): (v: Table)
      reads this`process, pcbs, stopped, ready, blocked, sleeping
      ensures |v.s| == pcbs.Length
    {
      Table(Unlinked(pcbs[..]), Qs(), process)
    }

    ghost predicate Apart() {
      stopped != ready && stopped != blocked && stopped != sleeping && ready != blocked && ready != sleeping
      && blocked != sleeping
    }

    // The queues are in order and every process is in its place, but those in hand.
    ghost predicate Valid(hands: set<nat>)
      reads this`ticking, pcbs, stopped, ready, blocked, sleeping
    {
      && Apart()
      && stopped.Ends() && ready.Ends() && blocked.Ends() && sleeping.Ends()
      && World(pcbs[..], Qs(), hands, ticking)
    }

    // initpcb, sleepinit
    constructor ()
      ensures Valid({}) && !ticking && View() == FirstTable()
      ensures fresh(pcbs) && fresh(stopped) && fresh(ready) && fresh(blocked) && fresh(sleeping)
    {
      pcbs := new Pcb[PCB_TABLE_SIZE](_ => ZEROED);
      stopped := new PcbQueue();
      ready := new PcbQueue();
      blocked := new PcbQueue();
      sleeping := new PcbQueue();
      process, ticking := NIL, false;
      new;
      InitPcbs();
    }

    // Lines 38-45 of c/pcb.c
    method InitPcbs()
      requires Apart() && pcbs.Length == PCB_TABLE_SIZE && stopped.Valid(pcbs[..]) && Qs() == Queues([], [], [], [])
      requires ready.Ends() && blocked.Ends() && sleeping.Ends() && process == NIL
      requires forall p: nat :: p < pcbs.Length ==> pcbs[p] == ZEROED
      modifies pcbs, stopped
      ensures Valid({}) && View() == FirstTable()
    {
      for i := 0 to PCB_TABLE_SIZE
        invariant stopped.Valid(pcbs[..]) && stopped.contents == seq(i, x => x)
        invariant forall p: nat :: p < i ==> pcbs[p] == FirstPcb(p).(next := pcbs[p].next)
        invariant forall p: nat :: i <= p < pcbs.Length ==> pcbs[p] == ZEROED
      {
        ghost var s := pcbs[..];
        pcbs[i] := pcbs[i].(pid := i + 1, blockedId := 0, cpuTime := 0, blockedStatus := NotBlocked, state := Stopped);
        ChainedOff(s, pcbs[..], stopped.contents, i);
        stopped.Offer(pcbs, i);
      }
      AllStopped(pcbs[..], ticking);
      assert View().s == FirstTable().s;
    }

    // ------------------------------------------------------ queue operations

    // pcb_offer
    method Enqueue(queue: PcbQueue, p: nat, ghost w: Where, ghost hands: set<nat>)
      requires Valid(hands) && p in hands && p < pcbs.Length
      requires w != Nowhere && w != InSleep && queue == QueueOf(w)
      requires PlaceOf(pcbs[p]) == w && (w == InBlocked ==> Blockable(pcbs[p]))
      modifies pcbs, queue
      ensures Valid(hands - {p}) && Qs() == old(Qs()).Set(w, old(queue.contents) + [p])
      ensures SameButLinks(old(pcbs[..]), pcbs[..]) && View() == old(View()).(qs := Qs())
    {
      ghost var s, qs := pcbs[..], Qs();
      assert queue.contents == qs.At(w) && Chained(s, qs.At(w));
      HomeOf(s, qs, hands, ticking, p, w);
      GainsLast(queue.contents, p);
      queue.Offer(pcbs, p);
      Offered(s, pcbs[..], qs.At(w), p);
      Puts(s, qs, hands, ticking, pcbs[..], p, w, qs.At(w) + [p]);
      SeenSame(s, pcbs[..]);
    }

    // pcb_poll
    method PollFrom(queue: PcbQueue, ghost w: Where, ghost hands: set<nat>) returns (p: int)
      requires Valid(hands) && w != Nowhere && queue == QueueOf(w)
      modifies pcbs, queue
      ensures p == Link(old(queue.contents), 0)
      ensures p == NIL ==> Valid(hands) && Qs() == old(Qs()) && pcbs[..] == old(pcbs[..])
      ensures p != NIL ==>
        && 0 <= p < pcbs.Length && p !in hands && old(queue.contents) != [] && PlaceOf(pcbs[p]) == w
        && Valid(hands + {p}) && Qs() == old(Qs()).Set(w, old(queue.contents)[1..])
        && (w == InBlocked ==> Blockable(pcbs[p]))
      ensures SameButLinks(old(pcbs[..]), pcbs[..]) && View() == old(View()).(qs := Qs())
    {
      ghost var s, qs, q := pcbs[..], Qs(), queue.contents;
      assert q == qs.At(w) && Chained(s, q);
      p := queue.Poll(pcbs);
      if p == NIL {
        assert pcbs[..] == s;
      } else {
        assert q != [] && p in q;
        Polled(s, pcbs[..], q, p);
        OnlyOnce(s, qs, hands, ticking, w, Nowhere, p);
        HomeOf(s, qs, hands, ticking, p, w);
        Takes(s, qs, hands, ticking, pcbs[..], p, w, q[1..]);
      }
      SeenSame(s, pcbs[..]);
    }

    // pcb_remove
    method RemoveFrom(queue: PcbQueue, p: nat, ghost w: Where, ghost hands: set<nat>) returns (found: bool)
      requires Valid(hands) && w != Nowhere && queue == QueueOf(w) && p < pcbs.Length
      requires ticking && w == InSleep ==> p == Link(sleeping.contents, 0)
      modifies pcbs, queue
      ensures found <==> p !in hands && PlaceOf(old(pcbs[p])) == w
      ensures found <==> p in old(queue.contents)
      ensures found ==> Valid(hands + {p}) && Qs() == old(Qs()).Set(w, Minus(old(queue.contents), p))
      ensures !found ==> Valid(hands) && Qs() == old(Qs()) && pcbs[..] == old(pcbs[..])
      ensures SameButLinks(old(pcbs[..]), pcbs[..]) && View() == old(View()).(qs := Qs())
    {
      ghost var s, qs := pcbs[..], Qs();
      assert queue.contents == qs.At(w) && Chained(s, qs.At(w));
      HomeOf(s, qs, hands, ticking, p, w);
      found := queue.Remove(pcbs, p);
      if found {
        TakesOut(s, qs, hands, ticking, pcbs[..], p, w);
      }
      SeenSame(s, pcbs[..]);
    }

    // Assigning fields other than the link.
    method Update(p: nat, x: Pcb, ghost hands: set<nat>)
      requires Valid(hands) && p < pcbs.Length && x.next == pcbs[p].next && GoodPid(x.pid, p)
      requires p in hands || (PlaceOf(x) == PlaceOf(pcbs[p]) && (PlaceOf(x) == InBlocked ==> Blockable(x))
                              && (PlaceOf(x) == InSleep ==>
                                     x.ret >= if ticking && p == Link(sleeping.contents, 0) then -1 else 0))
      modifies pcbs
      ensures Valid(hands) && Qs() == old(Qs()) && pcbs[..] == old(pcbs[..])[p := x]
      ensures View() == old(View()).Edit(p, x.(next := NIL))
    {
      Edits(pcbs[..], Qs(), hands, ticking, p, x);
      ghost var s := pcbs[..];
      pcbs[p] := x;
      SeenChange(s, pcbs[..], p, x);
    }

    // A process has a pid of its slot.
    lemma PidOf(p: nat, hands: set<nat>)
      requires Valid(hands) && p < pcbs.Length
      ensures GoodPid(pcbs[p].pid, p)
    {
      HomeOf(pcbs[..], Qs(), hands, ticking, p, Nowhere);
    }

    // add_pcb_to_ready_queue
    method AddToReady(p: nat, ghost hands: set<nat>)
      requires Valid(hands) && p in hands && p < pcbs.Length
      modifies pcbs, ready
      ensures Valid(hands - {p}) && Qs() == old(Qs()).(ready := old(ready.contents) + [p])
      ensures Changed(old(pcbs[..]), pcbs[..], p, Readied(old(pcbs[p]))) && View() == old(View()).Readies(p)
    {
      PidOf(p, hands);
      Update(p, pcbs[p].(state := Ready), hands);
      Update(p, pcbs[p].(blockedStatus := NotBlocked), hands);
      Enqueue(ready, p, InReady, hands);
    }

    // add_pcb_to_blocked_queue
    method AddToBlocked(p: nat, ghost hands: set<nat>)
      requires Valid(hands) && p in hands && p < pcbs.Length
      requires pcbs[p].blockedStatus in {Sending, Receiving, Waiting} && Blockable(pcbs[p])
      modifies pcbs, blocked
      ensures Valid(hands - {p}) && Qs() == old(Qs()).(blocked := old(blocked.contents) + [p])
      ensures Changed(old(pcbs[..]), pcbs[..], p, old(pcbs[p]).(state := Blocked))
      ensures View() == old(View()).Edit(p, old(View()).At(p).(state := Blocked)).(qs := Qs())
    {
      PidOf(p, hands);
      Update(p, pcbs[p].(state := Blocked), hands);
      Enqueue(blocked, p, InBlocked, hands);
    }

    // add_pcb_to_stopped_queue: the slot gets its next pid.
    method AddToStopped(p: nat, ghost hands: set<nat>)
      requires Valid(hands) && p in hands && p < pcbs.Length
      modifies pcbs, stopped
      ensures Valid(hands - {p}) && Qs() == old(Qs()).(stopped := old(stopped.contents) + [p])
      ensures Changed(old(pcbs[..]), pcbs[..], p, Recycled(old(pcbs[p])))
      ensures View() == old(View()).Edit(p, Recycled(old(View()).At(p))).(qs := Qs())
    {
      PidOf(p, hands);
      NextPidGood(pcbs[p].pid, p);
      Update(p, pcbs[p].(pid := NextPid(pcbs[p].pid)), hands);
      Update(p, pcbs[p].(cpuTime := 0), hands);
      Update(p, pcbs[p].(state := Stopped), hands);
      Enqueue(stopped, p, InStopped, hands);
    }

    // get_next_pcb, which is taken to return NULL when no process is ready.
    method GetNextPcb(ghost hands: set<nat>) returns (p: int)
      requires Valid(hands)
      modifies pcbs, ready
      ensures p == Link(old(ready.contents), 0)
      ensures p == NIL ==> Valid(hands) && Qs() == old(Qs()) && pcbs[..] == old(pcbs[..])
      ensures p != NIL ==>
        && 0 <= p < pcbs.Length && p !in hands && old(ready.contents) != [] && PlaceOf(old(pcbs[p])) == InReady
        && Valid(hands + {p}) && Qs() == old(Qs()).(ready := old(ready.contents)[1..])
        && Changed(old(pcbs[..]), pcbs[..], p, Picked(old(pcbs[p])))
      ensures View() == old(View()).Next().(process := process)
    {
      p := PollFrom(ready, InReady, hands);
      if p != NIL {
        PidOf(p, hands + {p as nat});
        Update(p, pcbs[p].(state := Running), hands + {p as nat});
        Update(p, pcbs[p].(cpuTime := pcbs[p].cpuTime + 1), hands + {p as nat});
      }
    }

    // pid_to_pcb
    function PidToPcb(pid: nat): (p: int)
      requires pcbs.Length == PCB_TABLE_SIZE
      reads pcbs
      ensures p == Find(pcbs[..], pid)
    {
      if pid >= 1 && pcbs[(pid - 1) % PCB_TABLE_SIZE].state != Stopped then (pid - 1) % PCB_TABLE_SIZE else NIL
    }

    // A live process is found by its pid, and no other process has it.
    lemma PidFindsProcess(hands: set<nat>, p: nat)
      requires Valid(hands) && p < pcbs.Length
      ensures pcbs.Length == PCB_TABLE_SIZE
      ensures pcbs[p].state != Stopped ==> PidToPcb(pcbs[p].pid) == p
      ensures forall x: nat :: x < pcbs.Length && pcbs[x].pid == pcbs[p].pid ==> x == p
    {
      PidOf(p, hands);
      forall x: nat | x < pcbs.Length && pcbs[x].pid == pcbs[p].pid ensures x == p {
        PidOf(x, hands);
      }
    }

    // peek_next_sender: the first one blocked in a send; the queue stays as it is.
    method PeekNextSender(ghost hands: set<nat>) returns (result: int)
      requires Valid(hands)
      modifies pcbs, blocked
      ensures Valid(hands) && Qs() == old(Qs()) && SameButLinks(old(pcbs[..]), pcbs[..]) && View() == old(View())
      ensures forall i :: 0 <= i < |old(blocked.contents)| ==> old(blocked.contents)[i] < |old(pcbs[..])|
      ensures result == FirstSender(old(pcbs[..]), old(blocked.contents), |old(blocked.contents)|)
    {
      ghost var s, qs, q := pcbs[..], Qs(), blocked.contents;
      ChainPlaces(s, qs.At(InBlocked));
      var size := blocked.size;
      result := NIL;
      assert q[0..] + q[..0] == q;
      for i := 0 to size
        invariant Valid(hands) && Qs() == qs.(blocked := q[i..] + q[..i]) && SameButLinks(s, pcbs[..])
        invariant result == FirstSender(s, q, i)
      {
        var entry := RotateOne(s, qs, i, hands);
        if result == NIL && pcbs[entry].blockedStatus == Sending {
          result := entry;
        }
      }
      assert q[|q|..] + q[..|q|] == q;
      SeenSame(s, pcbs[..]);
    }

    // peek_any_receiver: nobody is blocked on pid 0, so it finds nobody.
    method PeekAnyReceiver(ghost hands: set<nat>) returns (result: int)
      requires Valid(hands)
      modifies pcbs, blocked
      ensures Valid(hands) && Qs() == old(Qs()) && SameButLinks(old(pcbs[..]), pcbs[..]) && View() == old(View())
      ensures result == NIL
    {
      ghost var s, qs, q := pcbs[..], Qs(), blocked.contents;
      var size := blocked.size;
      result := NIL;
      assert q[0..] + q[..0] == q;
      for i := 0 to size
        invariant Valid(hands) && Qs() == qs.(blocked := q[i..] + q[..i]) && SameButLinks(s, pcbs[..])
        invariant result == NIL
      {
        var entry := RotateOne(s, qs, i, hands);
        if result == NIL && pcbs[entry].blockedId == 0 {
          result := entry;
        }
      }
      assert q[|q|..] + q[..|q|] == q;
      SeenSame(s, pcbs[..]);
    }

    // Lines 102 and 106, 118 and 122 of c/pcb.c: the first entry goes to the end.
    method RotateOne(ghost s: seq<Pcb>, ghost qs: Queues, ghost i: nat, ghost hands: set<nat>) returns (entry: nat)
      requires Valid(hands) && i < |qs.blocked| && SameButLinks(s, pcbs[..])
      requires Qs() == qs.(blocked := qs.blocked[i..] + qs.blocked[..i])
      modifies pcbs, blocked
      ensures Valid(hands) && Qs() == qs.(blocked := qs.blocked[i + 1..] + qs.blocked[..i + 1])
      ensures SameButLinks(s, pcbs[..]) && entry == qs.blocked[i] && entry < pcbs.Length && Blockable(pcbs[entry])
    {
      Rotates(qs.blocked, i);
      entry := PollFrom(blocked, InBlocked, hands);
      Enqueue(blocked, entry, InBlocked, hands + {entry});
      assert hands + {entry} - {entry} == hands;
    }

    // unblock_pcb_waiting_for_pid: those waiting for pid go to the end of the ready
    // queue, in order; the others keep theirs.
    method UnblockWaitersFor(pid: nat, ghost hands: set<nat>)
      requires Valid(hands)
      modifies pcbs, blocked, ready
      ensures forall i :: 0 <= i < |old(blocked.contents)| ==> old(blocked.contents)[i] < |old(pcbs[..])|
      ensures var s, q := old(pcbs[..]), old(blocked.contents);
              && Valid(hands)
              && Qs() == old(Qs()).(blocked := Others(s, q, |q|, pid),
                                     ready := old(ready.contents) + Waiters(s, q, |q|, pid))
              && Unblocks(s, pcbs[..], Waiters(s, q, |q|, pid))
      ensures View() == old(View()).Unblocks(pid)
    {
      ghost var s, qs, q := pcbs[..], Qs(), blocked.contents;
      ChainPlaces(s, qs.At(InBlocked));
      var size := blocked.size;
      assert q[0..] + Others(s, q, 0, pid) == q && qs.ready + Waiters(s, q, 0, pid) == qs.ready;
      assert Distinct(q) && Unblocks(s, s, Waiters(s, q, 0, pid));
      hide World, Waiters, Others;
      for i := 0 to size
        invariant Valid(hands)
        invariant Qs() == qs.(blocked := q[i..] + Others(s, q, i, pid), ready := qs.ready + Waiters(s, q, i, pid))
        invariant Unblocks(s, pcbs[..], Waiters(s, q, i, pid))
      {
        UnblockOne(pid, s, qs, i, hands);
      }
      SeenUnblocked(s, qs, process, pcbs[..], pid);
    }

    // Lines 134-140 of c/pcb.c
    method UnblockOne(pid: nat, ghost s: seq<Pcb>, ghost qs: Queues, ghost i: nat, ghost hands: set<nat>)
      requires Valid(hands) && i < |qs.blocked| && Distinct(qs.blocked)
      requires forall i :: 0 <= i < |qs.blocked| ==> qs.blocked[i] < |s|
      requires Qs() == qs.(blocked := qs.blocked[i..] + Others(s, qs.blocked, i, pid),
                           ready := qs.ready + Waiters(s, qs.blocked, i, pid))
      requires Unblocks(s, pcbs[..], Waiters(s, qs.blocked, i, pid))
      modifies pcbs, blocked, ready
      ensures Valid(hands)
      ensures Qs() == qs.(blocked := qs.blocked[i + 1..] + Others(s, qs.blocked, i + 1, pid),
                          ready := qs.ready + Waiters(s, qs.blocked, i + 1, pid))
      ensures Unblocks(s, pcbs[..], Waiters(s, qs.blocked, i + 1, pid))
    {
      hide World;
      ghost var q := qs.blocked;
      NextWaiter(s, q, i, pid, qs.ready);
      WaitersIn(s, q, i, pid, q[i]);
      var entry := PollFrom(blocked, InBlocked, hands);
      ghost var s1 := pcbs[..];
      if pcbs[entry].blockedId == pid {
        WakeWaiter(entry, hands + {entry as nat});
        UnblocksMore(s, s1, pcbs[..], Waiters(s, q, i, pid), entry);
      } else {
        StillBlocked(pcbs[entry]);
        AddToBlocked(entry, hands + {entry as nat});
        UnblocksSame(s, s1, pcbs[..], Waiters(s, q, i, pid), entry);
      }
      assert hands + {entry as nat} - {entry as nat} == hands;
    }

    // Lines 136-137
    method WakeWaiter(p: nat, ghost hands: set<nat>)
      requires Valid(hands) && p in hands && p < pcbs.Length
      modifies pcbs, ready
      ensures Valid(hands - {p}) && Qs() == old(Qs()).(ready := old(ready.contents) + [p])
      ensures Changed(old(pcbs[..]), pcbs[..], p, Awaited(old(pcbs[p])))
    {
      PidOf(p, hands);
      Update(p, pcbs[p].(blockedId := 0), hands);
      AddToReady(p, hands);
    }

    // Lines 183-185 of c/pcb.c, for the running process: it is in none of the queues.
    method RemoveFromAll(p: nat, ghost hands: set<nat>)
      requires Valid(hands) && p in hands && p < pcbs.Length && !ticking
      modifies pcbs, ready, blocked, sleeping
      ensures Valid(hands) && Qs() == old(Qs()) && pcbs[..] == old(pcbs[..]) && View() == old(View())
    {
      var found := RemoveFrom(ready, p, InReady, hands);
      found := RemoveFrom(blocked, p, InBlocked, hands);
      found := RemoveFrom(sleeping, p, InSleep, hands);
    }

    // cleanup_pcb, of the running process: whoever waited for it is ready, and it is
    // stopped, its slot at its next pid.
    method CleanupPcb(p: nat, ghost hands: set<nat>)
      requires Valid(hands) && p in hands && p < pcbs.Length && !ticking
      modifies pcbs, stopped, ready, blocked, sleeping
      ensures forall i :: 0 <= i < |old(blocked.contents)| ==> old(blocked.contents)[i] < |old(pcbs[..])|
      ensures var s, q, pid := old(pcbs[..]), old(blocked.contents), old(pcbs[p].pid);
              && Valid(hands - {p})
              && Qs() == old(Qs()).(stopped := old(stopped.contents) + [p], blocked := Others(s, q, |q|, pid),
                                    ready := old(ready.contents) + Waiters(s, q, |q|, pid))
      ensures forall x: nat :: x < pcbs.Length && x in blocked.contents ==> pcbs[x].blockedId != old(pcbs[p].pid)
      ensures pcbs[p].pid == NextPid(old(pcbs[p].pid)) && pcbs[p].state == Stopped
      ensures View() == old(View()).Stops(p)
    {
      hide World;
      ghost var s, q := pcbs[..], blocked.contents;
      RemoveFromAll(p, hands);
      var pid := pcbs[p].pid;
      UnblockWaitersFor(pid, hands);
      ghost var s1 := pcbs[..];
      AddToStopped(p, hands);
      NobodyWaits(s, s1, pcbs[..], q, pid, p, pcbs[p]);
    }

    // sleep
    method Sleep(p: nat, milliseconds: nat, ghost hands: set<nat>)
      requires Valid(hands) && p in hands && p < pcbs.Length && !ticking
      modifies pcbs, sleeping
      ensures Valid(hands - {p})
      ensures View() == old(View()).Sleeps(p, TicksFor(milliseconds))
    {
      var ticks := milliseconds / MS_PER_CLOCK_TICK + if milliseconds % MS_PER_CLOCK_TICK != 0 then 1 else 0;
      RoundedUp(milliseconds, ticks);
      SleepTicks(p, ticks, hands);
    }

    method SleepTicks(p: nat, ticks: nat, ghost hands: set<nat>)
      requires Valid(hands) && p in hands && p < pcbs.Length && !ticking
      modifies pcbs, sleeping
      ensures Valid(hands - {p})
      ensures View() == old(View()).Sleeps(p, ticks)
    {
      ghost var s, qs, q := pcbs[..], Qs(), sleeping.contents;
      assert Chained(s, qs.At(InSleep));
      PidOf(p, hands);
      HomeOf(s, Qs(), hands, ticking, p, InSleep);
      Update(p, pcbs[p].(ret := ticks), hands);
      ghost var s1 := pcbs[..];
      ChainPlaces(s, Qs().At(InSleep));
      ghost var k := AddSleeper(p, hands);
      SleepsFrom(s, s1, pcbs[..], q, p, k, ticks);
      SeenAsleep(s, qs, process, pcbs[..], p, k, ticks);
    }

    method AddSleeper(p: nat, ghost hands: set<nat>) returns (ghost k: nat)
      requires Valid(hands) && p in hands && p < pcbs.Length && !ticking && pcbs[p].ret >= 0
      modifies pcbs, sleeping
      ensures Valid(hands - {p}) && k <= |old(sleeping.contents)|
      ensures Qs() == old(Qs()).(sleep := With(old(sleeping.contents), k, p))
      ensures Joined(old(pcbs[..]), pcbs[..], old(sleeping.contents), p)
      ensures Delayed(old(pcbs[..]), pcbs[..], old(sleeping.contents), p, k)
    {
      ghost var s, qs, q := pcbs[..], Qs(), sleeping.contents;
      assert q == qs.At(InSleep) && Chained(s, q);
      HomeOf(s, qs, hands, ticking, p, InSleep);
      k := AddToSleepQueue(pcbs, sleeping, p);
      SleeperPut(s, qs, hands, pcbs[..], p, k);
    }

    // wake, of the first sleeper
    method Wake(p: nat, ghost hands: set<nat>)
      requires Valid(hands) && p !in hands && p < pcbs.Length && PlaceOf(pcbs[p]) == InSleep
      requires ticking ==> p == Link(sleeping.contents, 0)
      modifies pcbs, sleeping, ready
      ensures Valid(hands)
      ensures Qs() == old(Qs()).(ready := old(ready.contents) + [p], sleep := Minus(old(sleeping.contents), p))
      ensures Changed(old(pcbs[..]), pcbs[..], p, Readied(old(pcbs[p]))) && View() == old(View()).Wakes(p)
    {
      var found := RemoveFrom(sleeping, p, InSleep, hands);
      AddToReady(p, hands + {p});
      assert hands + {p} - {p} == hands;
    }

    // tick: the first sleeper's difference falls by one, and all at their end wake.
    method Tick(ghost hands: set<nat>)
      requires Valid(hands) && !ticking
      modifies this`ticking, pcbs, sleeping, ready
      ensures Valid(hands) && !ticking && View() == old(View()).Ticks()
      ensures forall x: nat :: x < pcbs.Length && x !in old(sleeping.contents) ==>
              pcbs[x].state == old(pcbs[..])[x].state
    {
      ghost var s, qs := pcbs[..], Qs();
      ghost var q := qs.At(InSleep);
      ChainPlaces(s, q);
      var head := sleeping.Peek();
      if head == NIL {
        NoneTick(View());
        return;
      }
      FirstTick(head, hands);
      ghost var n := WakeRipe(head, hands, s, qs);
      TickDone(s, qs, pcbs[..], Qs(), hands, n);
      SeenTicked(s, qs, process, pcbs[..], Qs());
      ticking := false;
    }

    // Lines 42-45 of c/sleep.c
    method WakeRipe(first: nat, ghost hands: set<nat>, ghost s: seq<Pcb>, ghost qs: Queues) returns (ghost n: nat)
      requires Valid(hands) && ticking && qs.sleep != [] && first == qs.sleep[0]
               && TickedSoFar(s, qs, pcbs[..], Qs(), 0)
      modifies pcbs, sleeping, ready
      ensures Valid(hands) && TickedSoFar(s, qs, pcbs[..], Qs(), n)
      ensures n < |qs.sleep| ==> pcbs[..][qs.sleep[n]].ret > 0
    {
      n := 0;
      var head: int := first;
      while head != NIL && pcbs[head].ret <= 0
        invariant Valid(hands) && n <= |qs.sleep| && head == Link(qs.sleep, n)
        invariant TickedSoFar(s, qs, pcbs[..], Qs(), n)
        decreases |qs.sleep| - n
      {
        head := WakeHead(head, hands, s, qs, n);
        n := n + 1;
      }
    }

    // Line 41 of c/sleep.c
    method FirstTick(head: nat, ghost hands: set<nat>)
      requires Valid(hands) && !ticking && sleeping.contents != [] && head == sleeping.contents[0]
      modifies this`ticking, pcbs
      ensures Valid(hands) && ticking && Qs() == old(Qs())
      ensures TickedSoFar(old(pcbs[..]), old(Qs()), pcbs[..], Qs(), 0)
    {
      ghost var s, qs := pcbs[..], Qs();
      ChainPlaces(s, qs.At(InSleep));
      assert qs.sleep == qs.At(InSleep);
      assert head in qs.sleep;
      OnlyOnce(s, qs, hands, false, InSleep, Nowhere, head);
      HomeOf(s, qs, hands, false, head, InSleep);
      MayTick(s, qs, hands);
      ticking := true;
      Update(head, pcbs[head].(ret := pcbs[head].ret - 1), hands);
      FirstTicked(s, qs, pcbs[..], head);
    }

    // Lines 43-44 of c/sleep.c
    method WakeHead(head: nat, ghost hands: set<nat>, ghost s: seq<Pcb>, ghost qs: Queues, ghost n: nat)
      returns (next: int)
      requires Valid(hands) && ticking && n < |qs.sleep| && head == qs.sleep[n] && head < pcbs.Length
               && pcbs[head].ret <= 0
      requires TickedSoFar(s, qs, pcbs[..], Qs(), n)
      modifies pcbs, sleeping, ready
      ensures Valid(hands) && ticking && TickedSoFar(s, qs, pcbs[..], Qs(), n + 1) && next == Link(qs.sleep, n + 1)
    {
      ghost var s1, qs1 := pcbs[..], Qs();
      assert qs1.sleep == qs1.At(InSleep) && qs1.sleep[0] == head;
      assert head in qs1.sleep;
      OnlyOnce(s1, qs1, hands, true, InSleep, Nowhere, head);
      Wake(head, hands);
      NextTicked(s, qs, s1, qs1, pcbs[..], Qs(), n, head);
      next := sleeping.Peek();
    }

    // ---------------------------------------------------------------- messages

    // Lines 26-28, 44-46, 68-70 and 81-87 of c/msg.c: the running process waits for
    // another to take part.
    method Block(p: nat, status: BlockedStatus, id: nat, ghost hands: set<nat>)
      requires Valid(hands) && p in hands && p < pcbs.Length && id > 0
      requires status == Waiting || (status in {Sending, Receiving} && pcbs[p].length > 0)
      modifies pcbs, blocked
      ensures Valid(hands - {p}) && Qs() == old(Qs()).(blocked := old(blocked.contents) + [p])
      ensures Changed(old(pcbs[..]), pcbs[..], p,
                      old(pcbs[p]).(state := Blocked, blockedStatus := status, blockedId := id))
      ensures View() == old(View()).Blocks(p, status, id)
    {
      PidOf(p, hands);
      Update(p, pcbs[p].(blockedStatus := status), hands);
      Update(p, pcbs[p].(blockedId := id), hands);
      AddToBlocked(p, hands);
    }

    // Lines 37-42 and 74-79 of c/msg.c: the message is passed, the shorter of the two
    // lengths; the other process, taken from the blocked queue, is ready.
    method Meet(other: nat, length: int, ghost hands: set<nat>) returns (n: int)
      requires Valid(hands) && other in hands && other < pcbs.Length
      modifies pcbs, ready
      ensures n == Shorter(length, old(pcbs[other].length))
      ensures Valid(hands - {other}) && Qs() == old(Qs()).(ready := old(ready.contents) + [other])
      ensures Changed(old(pcbs[..]), pcbs[..], other,
                      old(pcbs[other]).(state := Ready, blockedStatus := NotBlocked, blockedId := 0, ret := n))
      ensures View() == old(View()).Edit(other, Readied(old(View()).At(other)).(blockedId := 0, ret := n)).(qs := Qs())
    {
      n := if length > pcbs[other].length then pcbs[other].length else length;
      PidOf(other, hands);
      AddToReady(other, hands);
      Update(other, pcbs[other].(blockedId := 0), hands - {other});
      Update(other, pcbs[other].(ret := n), hands - {other});
    }

    // Lines 24-30 and 66-72 of c/msg.c: the other process, taken from the blocked
    // queue, waits for somebody else; it goes back, last but for this one.
    method Refuse(curr: nat, other: nat, status: BlockedStatus, ghost hands: set<nat>)
      requires Valid(hands) && curr in hands && curr < pcbs.Length && other in hands && other < pcbs.Length
               && curr != other
      requires PlaceOf(pcbs[other]) == InBlocked && Blockable(pcbs[other])
      requires status in {Sending, Receiving} && pcbs[curr].length > 0
      modifies pcbs, blocked
      ensures Valid(hands - {other} - {curr})
      ensures Qs() == old(Qs()).(blocked := old(blocked.contents) + [other] + [curr])
      ensures View() == old(View()).(qs := old(Qs()).(blocked := old(blocked.contents) + [other]))
                        .Blocks(curr, status, old(pcbs[other].pid))
    {
      PidOf(other, hands);
      StillBlocked(pcbs[other]);
      AddToBlocked(other, hands);
      Block(curr, status, pcbs[other].pid, hands - {other});
    }

    // send, by the running process, without a receiver from anybody.
    method Send(curr: nat, dest: nat, length: int) returns (ret: int)
      requires Valid({curr}) && curr < pcbs.Length && pcbs[curr].state == Running && dest < pcbs.Length
      requires length > 0 && pcbs[curr].length > 0
      modifies pcbs, blocked, ready
      ensures ret == if Meets(old(pcbs[..]), curr, dest) then Shorter(length, old(pcbs[dest].length)) else BLOCKERR
      ensures Valid(if Meets(old(pcbs[..]), curr, dest) then {curr} else {})
      ensures View() == old(View()).Exchanges(curr, dest, Sending, length)
    {
      hide World, Minus, Members;
      var anyReceiver := PeekAnyReceiver({curr});
      BlockedHome(dest, {curr});
      var found := RemoveFrom(blocked, dest, InBlocked, {curr});
      if found || anyReceiver != NIL {
        var d: int := dest;
        if !found {
          d := anyReceiver;
        }
        PidOf(d, {curr} + {dest});
        if pcbs[d].pid != 0 && pcbs[d].blockedId != pcbs[curr].pid {
          Refuse(curr, d, Sending, {curr} + {dest});
          assert {curr} + {dest} - {dest} - {curr} == {};
          return BLOCKERR;
        }
        ret := Meet(d, length, {curr} + {dest});
        assert {curr} + {dest} - {dest} == {curr};
      } else {
        PidOf(dest, {curr});
        Block(curr, Sending, pcbs[dest].pid, {curr});
        assert {curr} - {curr} == {};
        ret := BLOCKERR;
      }
    }

    // recv, from a given process.
    method Recv(from: nat, curr: nat, length: int) returns (ret: int)
      requires Valid({curr}) && curr < pcbs.Length && pcbs[curr].state == Running && from < pcbs.Length
      requires length > 0 && pcbs[curr].length > 0
      modifies pcbs, blocked, ready
      ensures ret == if Meets(old(pcbs[..]), curr, from) then Shorter(length, old(pcbs[from].length)) else BLOCKERR
      ensures Valid(if Meets(old(pcbs[..]), curr, from) then {curr} else {})
      ensures View() == old(View()).Exchanges(curr, from, Receiving, length)
    {
      hide World, Minus, Members;
      BlockedHome(from, {curr});
      var found := RemoveFrom(blocked, from, InBlocked, {curr});
      if found {
        if pcbs[from].blockedId != pcbs[curr].pid {
          Refuse(curr, from, Receiving, {curr} + {from});
          assert {curr} + {from} - {from} - {curr} == {};
          return BLOCKERR;
        }
        ret := Meet(from, length, {curr} + {from});
        assert {curr} + {from} - {from} == {curr};
      } else {
        PidOf(from, {curr});
        Block(curr, Receiving, pcbs[from].pid, {curr});
        assert {curr} - {curr} == {};
        ret := BLOCKERR;
      }
    }

    lemma BlockedHome(p: nat, hands: set<nat>)
      requires Valid(hands) && p < pcbs.Length
      ensures p !in hands && PlaceOf(pcbs[p]) == InBlocked ==> Blockable(pcbs[p]) && p in blocked.contents
    {
      assert blocked.contents == Qs().At(InBlocked);
      HomeOf(pcbs[..], Qs(), hands, ticking, p, InBlocked);
    }

    // ---------------------------------------------------------------- signals

    // set_pcb_signal
    method SetPcbSignal(p: nat, signal: int, ghost hands: set<nat>) returns (ret: int)
      requires Valid(hands) && !ticking && p < pcbs.Length && (p in hands ==> pcbs[p].state == Running)
      modifies pcbs, ready, blocked, sleeping
      ensures Valid(hands)
      ensures ret == old(View()).SignalResult(signal) && View() == old(View()).Signals(p, signal)
    {
      if signal < 0 || signal >= SIGNAL_TABLE_SIZE {
        return SYSKILL_SIG_INVALID;
      }
      ret := 0;
      if signal in pcbs[p].handlers {
        ghost var s := pcbs[..];
        PidOf(p, hands);
        HomeOf(s, Qs(), hands, ticking, p, InSleep);
        HomeOf(s, Qs(), hands, ticking, p, InBlocked);
        MaskBounds(pcbs[p].pending, signal);
        Update(p, pcbs[p].(pending := SetBit(pcbs[p].pending, signal)), hands);
        if pcbs[p].state == Blocked {
          Interrupt(p, hands);
        }
      }
    }

    // Lines 81-98 of c/signal.c: a signal ends what the process is blocked on.
    method Interrupt(p: nat, ghost hands: set<nat>)
      requires Valid(hands) && !ticking && p < pcbs.Length && p !in hands && pcbs[p].state == Blocked
      modifies pcbs, ready, blocked, sleeping
      ensures Valid(hands)
      ensures View() == old(View()).Interrupts(p)
    {
      HomeOf(pcbs[..], Qs(), hands, ticking, p, Nowhere);
      match pcbs[p].blockedStatus
      case Sleeping =>
        Wake(p, hands);
      case Receiving =>
        Fail(p, hands);
      case Sending =>
        Fail(p, hands);
      case Waiting =>
        Withdraw(p, hands);
      case NotBlocked =>
        assert false;
      case OnDevice =>
        assert false;
    }

    // Lines 86-88 of c/signal.c
    method Fail(p: nat, ghost hands: set<nat>)
      requires Valid(hands) && p < pcbs.Length && p !in hands && PlaceOf(pcbs[p]) == InBlocked
      modifies pcbs, ready, blocked
      ensures Valid(hands) && View() == old(View()).Returns(p, BLOCKED_PROC_SIGNALED).Withdraws(p)
    {
      PidOf(p, hands);
      BlockedHome(p, hands);
      Update(p, pcbs[p].(ret := BLOCKED_PROC_SIGNALED), hands);
      Withdraw(p, hands);
    }

    method Withdraw(p: nat, ghost hands: set<nat>)
      requires Valid(hands) && p < pcbs.Length && p !in hands && PlaceOf(pcbs[p]) == InBlocked
      modifies pcbs, ready, blocked
      ensures Valid(hands) && View() == old(View()).Withdraws(p)
    {
      var found := RemoveFrom(blocked, p, InBlocked, hands);
      AddToReady(p, hands + {p});
      assert hands + {p} - {p} == hands;
    }

    // -------------------------------------------------------------- dispatcher

    ghost function InHand(): set<nat>
      reads this`process
    {
      if process < 0 then {} else {process}
    }

    // Between requests only the running process is in no queue.
    ghost predicate Resting()
      reads this, pcbs, stopped, ready, blocked, sleeping
    {
      && !ticking && Valid(InHand())
      && (process == NIL || (0 <= process < pcbs.Length && pcbs[process].state == Running))
    }

    method Next()
      requires Valid({}) && !ticking
      modifies this`process, pcbs, ready
      ensures Resting() && process == Link(old(ready.contents), 0)
      ensures forall i: nat :: i < pcbs.Length && PlaceOf(old(pcbs[..])[i]) == InBlocked ==>
              PlaceOf(pcbs[i]) == InBlocked
      ensures View() == old(View()).Next()
    {
      process := GetNextPcb({});
      assert process != NIL ==> {} + {process as nat} == InHand();
    }

    method SetRet(p: nat, ret: int)
      requires Resting() && p < pcbs.Length && PlaceOf(pcbs[p]) != InSleep
      modifies pcbs
      ensures Resting() && Qs() == old(Qs()) && pcbs[..] == old(pcbs[..])[p := old(pcbs[p]).(ret := ret)]
      ensures View() == old(View()).Returns(p, ret)
    {
      PidOf(p, InHand());
      HomeOf(pcbs[..], Qs(), InHand(), ticking, p, InBlocked);
      HomeOf(pcbs[..], Qs(), InHand(), ticking, p, InSleep);
      Update(p, pcbs[p].(ret := ret), InHand());
    }

    // create: whether there was memory, and what the new signal table holds.
    method Create(memory: bool, table: set<nat>, ghost hands: set<nat>) returns (ret: int)
      requires Valid(hands)
      modifies pcbs, stopped, ready
      ensures Valid(hands)
      ensures forall i: nat :: i < pcbs.Length && i in hands ==> pcbs[i].state == old(pcbs[..])[i].state
      ensures ret == old(View()).CreateResult(memory) && View() == old(View()).Creates(memory, table)
    {
      if !memory { return CREATE_FAILURE; }
      var p := PollFrom(stopped, InStopped, hands);
      if p == NIL { return CREATE_FAILURE; }
      PidOf(p, hands + {p as nat});
      Update(p, pcbs[p].(enabled := 0, handlers := table - {0} + {KILL_SIGNAL_NUM}), hands + {p as nat});
      AddToReady(p, hands + {p as nat});
      assert hands + {p as nat} - {p as nat} == hands;
      ret := pcbs[p].pid;
    }

    // handle_syscall_kill
    method HandleKill(pid: nat, signal: int) returns (ret: int)
      requires Resting() && process != NIL
      modifies pcbs, ready, blocked, sleeping
      ensures Resting()
      ensures pcbs.Length == PCB_TABLE_SIZE && View().Returns(process, ret) == old(View()).Kills(pid, signal)
    {
      PidOf(process, InHand());
      var target := PidToPcb(pid);
      FindSeen(pcbs[..], pid);
      if target == NIL { return SYSKILL_TARGET_DNE; }
      ret := SetPcbSignal(target, signal, InHand());
      assert pcbs[process].(next := NIL) == View().s[process];
    }

    // handle_syscall_wait
    method HandleWait(pid: nat)
      requires Resting() && process != NIL
      modifies this`process, pcbs, ready, blocked
      ensures Resting()
      ensures pcbs.Length == PCB_TABLE_SIZE && View() == old(View()).Waits(pid)
    {
      PidOf(process, InHand());
      HomeOf(pcbs[..], Qs(), InHand(), ticking, process, InSleep);
      var target := PidToPcb(pid);
      FindSeen(pcbs[..], pid);
      if target == NIL || pid == 0 {
        SetRet(process, SYSPID_DNE);
        return;
      }
      Block(process, Waiting, pid, InHand());
      assert InHand() - {process as nat} == {};
      HomeOf(pcbs[..], Qs(), {}, ticking, process, InBlocked);
      Update(process, pcbs[process].(ret := 0), {});
      Next();
    }

    // Lines 76-79 and 241-245: a process that blocked makes way for the next one. To
    // which of the two the result is then assigned (line 82) C leaves open.
    method MakeWay(curr: nat, early: bool)
      requires Valid({}) && !ticking && curr < pcbs.Length && PlaceOf(pcbs[curr]) == InBlocked
      modifies this`process, pcbs, ready
      ensures Resting()
      ensures var t := old(View()).Next(); View() == t.Returns(if early then curr else t.process, SYSPID_DNE)
    {
      Next();
      if early {
        SetRet(curr, SYSPID_DNE);
      } else if process != NIL {
        SetRet(process, SYSPID_DNE);
      }
    }

    // Whether a process that takes part in an exchange is in `wait` on this one: what
    // send and recv then do to its arguments is not modelled.
    predicate InWait(target: int)
      requires 0 <= process < pcbs.Length && (target == NIL || 0 <= target < pcbs.Length)
      reads this`process, pcbs
    {
      && target != NIL && pcbs[target].state == Blocked && pcbs[target].blockedStatus == Waiting
      && pcbs[target].blockedId == pcbs[process].pid
    }

    // handle_syscall_send
    method HandleSend(pid: nat, length: int, buffer: bool, early: bool)
      requires Resting() && process != NIL && pcbs.Length == PCB_TABLE_SIZE && !InWait(PidToPcb(pid))
      modifies this`process, pcbs, blocked, ready
      ensures Resting()
      ensures View() == old(View()).TalksTo(pid, Sending, length, buffer, early)
    {
      var dest := PidToPcb(pid);
      FindSeen(pcbs[..], pid);
      if dest == NIL {
        SetRet(process, SYSPID_DNE);
        return;
      }
      if pid == pcbs[process].pid {
        SetRet(process, SYSPID_SELF);
        return;
      }
      if length <= 0 || !buffer {
        SetRet(process, SYSERR_OTHER);
        return;
      }
      Talk(dest, Sending, length, early);
    }

    // handle_syscall_recv
    method HandleRecv(pid: nat, length: int, pidAddress: bool, buffer: bool, early: bool)
      requires Resting() && process != NIL && pcbs.Length == PCB_TABLE_SIZE && pid != 0 && !InWait(PidToPcb(pid))
      modifies this`process, pcbs, blocked, ready
      ensures Resting()
      ensures View() == if pidAddress then old(View()).TalksTo(pid, Receiving, length, buffer, early)
                        else old(View()).Returns(process, SYSERR_OTHER)
    {
      FindSeen(pcbs[..], pid);
      if !pidAddress {
        SetRet(process, SYSERR_OTHER);
        return;
      }
      var from := PidToPcb(pid);
      if from == NIL {
        SetRet(process, SYSPID_DNE);
        return;
      }
      if pid == pcbs[process].pid {
        SetRet(process, SYSPID_SELF);
        return;
      }
      if length <= 0 || !buffer {
        SetRet(process, SYSERR_OTHER);
        return;
      }
      Talk(from, Receiving, length, early);
    }

    // Lines 240-245 and 275-281: the exchange, and what becomes of its result.
    method Talk(other: nat, status: BlockedStatus, length: int, early: bool)
      requires Resting() && process != NIL && other < pcbs.Length && length > 0 && status in {Sending, Receiving}
      requires !InWait(other)
      modifies this`process, pcbs, blocked, ready
      ensures Resting()
      ensures View() == old(View()).Talks(other, status, length, early)
    {
      hide World;
      var curr := process;
      var ret := Exchange(curr, other, status, length);
      if ret == BLOCKERR {
        MakeWay(curr, early);
      } else {
        SetRet(process, ret);
      }
    }

    // The call of send or recv; the length is one of the system call's arguments.
    method Exchange(curr: nat, other: nat, status: BlockedStatus, length: int) returns (ret: int)
      requires Resting() && curr == process && other < pcbs.Length && length > 0 && status in {Sending, Receiving}
      requires !InWait(other)
      modifies pcbs, blocked, ready
      ensures ret == if Meets(old(pcbs[..]), curr, other) then Shorter(length, old(pcbs[other].length)) else BLOCKERR
      ensures ret == BLOCKERR <==> !Meets(old(pcbs[..]), curr, other)
      ensures if ret == BLOCKERR then Valid({}) && PlaceOf(pcbs[curr]) == InBlocked else Resting()
      ensures View() == old(View()).Edit(curr, old(View()).At(curr).(length := length))
                                   .Exchanges(curr, other, status, length)
    {
      PidOf(curr, InHand());
      BlockedHome(other, InHand());
      ghost var s, qs := pcbs[..], Qs();
      HomeOf(s, qs, InHand(), false, other, InSleep);
      HomeOf(s, qs, InHand(), false, curr, InSleep);
      Update(curr, pcbs[curr].(length := length), InHand());
      ghost var t := View();
      if status == Sending {
        ret := Send(curr, other, length);
      } else {
        ret := Recv(other, curr, length);
      }
      ExchangeSeen(t, curr, other, status, length, View());
      assert pcbs[curr].(next := NIL) == View().s[curr];
    }

    // Lines 89-92
    method HandleSleep(milliseconds: nat)
      requires Resting() && process != NIL
      modifies this`process, pcbs, sleeping, ready
      ensures Resting()
      ensures pcbs.Length == PCB_TABLE_SIZE && View() == old(View()).Sleeps(old(process), TicksFor(milliseconds)).Next()
    {
      HomeOf(pcbs[..], Qs(), InHand(), ticking, process, InSleep);
      ghost var t := View();
      AtRest();
      if milliseconds == 0 {
        SetRet(process, 0);
      }
      ReturnsAsleep(t, process, TicksFor(milliseconds));
      assert InHand() - {process as nat} == {};
      Sleep(process, milliseconds, InHand());
      Next();
    }

    // Lines 130-138
    method HandleTimer()
      requires Resting()
      modifies this, pcbs, sleeping, ready
      ensures Resting()
      ensures View() == old(View()).Charged().Next()
    {
      TickOn();
      if process != NIL {
        ChargeTick(process);
      }
      Next();
    }

    // The running process is not among the sleepers.
    method TickOn()
      requires Resting()
      modifies this`ticking, pcbs, sleeping, ready
      ensures Resting() && View() == old(View()).Ticks()
    {
      if process != NIL {
        HomeOf(pcbs[..], Qs(), InHand(), ticking, process, InSleep);
      }
      Tick(InHand());
    }

    // Lines 132-135
    method ChargeTick(p: nat)
      requires Resting() && process == p
      modifies pcbs, ready
      ensures Valid({}) && !ticking
      ensures View() == old(View()).Charges()
    {
      PidOf(p, InHand());
      Update(p, pcbs[p].(cpuTime := pcbs[p].cpuTime + 1), InHand());
      assert InHand() - {p} == {};
      AddToReady(p, InHand());
    }

    // Lines 64-67, and 355-360 for an unusable stack.
    method HandleStop()
      requires Resting() && process != NIL
      modifies this`process, pcbs, stopped, ready, blocked, sleeping
      ensures Resting()
      ensures View() == old(View()).Stops(old(process)).Next()
    {
      assert InHand() - {process as nat} == {};
      CleanupPcb(process, InHand());
      Next();
    }

    // Lines 59-62
    method HandleYield()
      requires Resting() && process != NIL
      modifies this`process, pcbs, ready
      ensures Resting()
      ensures View() == old(View()).Readies(old(process)).Next()
    {
      assert InHand() - {process as nat} == {};
      AddToReady(process, InHand());
      Next();
    }

    // handle_syscall_sighandler: whether the addresses are good, and whether the new
    // handler is a function or NULL.
    method HandleSighandler(signal: int, newHandler: bool, oldHandler: bool, install: bool)
      requires Resting() && process != NIL
      modifies pcbs
      ensures Resting()
      ensures pcbs.Length == PCB_TABLE_SIZE
      ensures View() == old(View()).Handles(signal, newHandler, oldHandler, install)
    {
      if signal < 0 || signal >= SIGNAL_TABLE_SIZE || signal == KILL_SIGNAL_NUM {
        SetRet(process, INVALID_SIGNAL);
      } else if install && !newHandler {
        SetRet(process, SYSHANDLER_NEWHANDLER_INVALID);
      } else if !oldHandler {
        SetRet(process, SYSHANDLER_OLDHANDLER_INVALID);
      } else {
        PidOf(process, InHand());
        var table := pcbs[process].handlers;
        Update(process, pcbs[process].(handlers := if install then table + {signal} else table - {signal}), InHand());
        SetRet(process, 0);
      }
    }

    // Lines 362-371, for a usable stack. With no signal in the mask the search never ends.
    method HandleSigReturn(ret: int)
      requires Resting() && process != NIL && pcbs[process].enabled > 0
      modifies pcbs
      ensures Resting()
      ensures View() == old(View()).Edit(process, Ended(old(View()).At(process), ret))
    {
      PidOf(process, InHand());
      var highest := HighestBit(pcbs[process].enabled);
      MaskBounds(pcbs[process].enabled, highest);
      Update(process, pcbs[process].(ret := ret, enabled := ClearBit(pcbs[process].enabled, highest)), InHand());
    }

    // Lines 46-49 of c/ctsw.c and 107-121 of c/signal.c, but for the stack.
    method Deliver()
      requires Resting() && process != NIL
      modifies pcbs
      ensures Resting() && View() == old(View()).Delivers()
      ensures pcbs[..] == old(pcbs[..])[process := Delivered(old(pcbs[process]))]
    {
      PidOf(process, InHand());
      if pcbs[process].pending != 0 {
        var highest := HighestBit(pcbs[process].pending);
        MaskBounds(pcbs[process].pending, highest);
        MaskBounds(pcbs[process].enabled, highest);
        if pcbs[process].pending > pcbs[process].enabled {
          var x := pcbs[process];
          Update(process, x.(pending := ClearBit(x.pending, highest), enabled := SetBit(x.enabled, highest)), InHand());
        }
      }
    }

    // One round of dispatch: a request of the running process, switched to before, or, when
    // none is running, of the timer.
    method Step(request: Request)
      requires Resting() && pcbs.Length == PCB_TABLE_SIZE
      requires if process == NIL then request.Timer? else Modelled(request)
      modifies this, pcbs, stopped, ready, blocked, sleeping
      ensures Resting() && View() == old(View()).Round(request)
    {
      if process != NIL {
        Deliver();
      }
      Act(request);
    }

    method Act(request: Request)
      requires Resting() && pcbs.Length == PCB_TABLE_SIZE
      requires if process == NIL then request.Timer? else Served(request, pcbs[process].enabled)
      modifies this, pcbs, stopped, ready, blocked, sleeping
      ensures Resting() && View() == old(View()).Dispatch(request)
    {
      if request.SleepFor? {
        HandleSleep(request.milliseconds);
      } else if request.Timer? {
        HandleTimer();
      } else {
        Serve(request);
      }
    }

    method Serve(request: Request)
      requires Resting() && pcbs.Length == PCB_TABLE_SIZE && process != NIL && Served(request, pcbs[process].enabled)
      requires !request.SleepFor? && !request.Timer?
      modifies this`process, pcbs, stopped, ready, blocked, sleeping
      ensures Resting() && View() == old(View()).Dispatch(request)
    {
      match request
      case Create(memory, table) =>
        var ret := Create(memory, table, InHand());
        SetRet(process, ret);
      case Yield => HandleYield();
      case Stop => HandleStop();
      case GetPid => SetRet(process, pcbs[process].pid);
      case Kill(pid, signal) =>
        var ret := HandleKill(pid, signal);
        SetRet(process, ret);
      case SendTo(pid, length, buffer, early) => HandleSend(pid, length, buffer, early);
      case RecvFrom(pid, length, pidAddress, buffer, early) => HandleRecv(pid, length, pidAddress, buffer, early);
      case Sighandler(signal, newHandler, oldHandler, install) =>
        HandleSighandler(signal, newHandler, oldHandler, install);
      case SigReturn(stack, ret) =>
        if !stack {
          HandleStop();
        } else {
          HandleSigReturn(ret);
        }
      case Wait(pid) => HandleWait(pid);
    }

    // What is in the queues of the table is in its place.
    lemma AtRest()
      requires Resting()
      ensures View().Fit() && View().Settled() && pcbs.Length == PCB_TABLE_SIZE
    {
      var s, qs, hands := pcbs[..], Qs(), InHand();
      ChainPlaces(s, qs.At(InStopped));
      ChainPlaces(s, qs.At(InReady));
      ChainPlaces(s, qs.At(InBlocked));
      ChainPlaces(s, qs.At(InSleep));
      assert Chained(s, qs.At(InSleep));
      forall x | x in qs.sleep ensures x < |s| && PlaceOf(View().s[x]) == InSleep && x != process {
        OnlyOnce(s, qs, hands, false, InSleep, Nowhere, x);
      }
      forall x | x in qs.ready ensures x !in qs.sleep {
        OnlyOnce(s, qs, hands, false, InReady, InSleep, x);
      }
    }

    // A request that is made and not modelled.
    predicate Declines(request: Request)
      reads this`process, pcbs
    {
      || pcbs.Length != PCB_TABLE_SIZE
      || !(-1 <= process < pcbs.Length)
      || (process != NIL && !Modelled(request))
    }

    predicate Modelled(request: Request)
      requires pcbs.Length == PCB_TABLE_SIZE && 0 <= process < pcbs.Length
      reads this`process, pcbs
    {
      Served(request, Delivered(pcbs[process]).enabled)
    }

    // The same once the process was switched to, with these signals running.
    predicate Served(request: Request, enabled: Mask)
      requires pcbs.Length == PCB_TABLE_SIZE && 0 <= process < pcbs.Length
      reads this`process, pcbs
    {
      match request
      case SendTo(pid, _, _, _) => !InWait(PidToPcb(pid))
      case RecvFrom(pid, _, _, _, _) => pid != 0 && !InWait(PidToPcb(pid))
      case SigReturn(stack, _) => stack ==> enabled > 0
      case _ => true
    }
  }

  lemma StillBlocked(p: Pcb)
    requires PlaceOf(p) == InBlocked
    ensures p.state == Blocked && p.blockedStatus in {Sending, Receiving, Waiting}
  {
  }

  // p sleeps at k, for so many ticks; apart from links and sleepers' times nothing
  // else changed.
  ghost predicate AsleepIn(s: seq<Pcb>, s': seq<Pcb>, q: seq<nat>, p: nat, k: nat, ticks: int) {
    && (forall i :: 0 <= i < |q| ==> q[i] < |s|) && |s'| == |s| && p < |s| && k <= |q|
    && var ds := Deltas(s, q);
    && Spot(ds, ticks, k)
    && (forall i :: 0 <= i < |With(q, k, p)| ==> With(q, k, p)[i] < |s|)
    && Deltas(s', With(q, k, p)) == Inserted(ds, ticks, k)
    && s'[p] == Dozing(s[p], s'[p].ret).(next := s'[p].next)
    && (forall i :: 0 <= i < |s| && i != p && i !in q ==> s'[i] == s[i])
    && (forall i :: 0 <= i < |s| && i != p ==> s'[i] == s[i].(ret := s'[i].ret, next := s'[i].next))
  }

  lemma SeenAsleep(s: seq<Pcb>, qs: Queues, process: int, s': seq<Pcb>, p: nat, k: nat, ticks: nat)
    requires AsleepIn(s, s', qs.sleep, p, k, ticks) && Distinct(qs.sleep) && p !in qs.sleep
    ensures Table(Unlinked(s), qs, process).Sleeps(p, ticks)
            == Table(Unlinked(s'), qs.(sleep := With(qs.sleep, k, p)), process)
  {
    var t, q := Table(Unlinked(s), qs, process), With(qs.sleep, k, p);
    var ds := Deltas(s, qs.sleep);
    assert Deltas(t.s, qs.sleep) == ds;
    SpotUnique(ds, ticks, k, SpotFrom(ds, ticks, 0));
    GainsAt(qs.sleep, k, p);
    WithMembers(qs.sleep, k, p, p);
    SeenTimed(t.s[p := Dozing(t.s[p], ticks)], s', q);
  }

  lemma SeenTimed(s: seq<Pcb>, s': seq<Pcb>, q: seq<nat>)
    requires |s'| == |s| && Distinct(q) && forall i :: 0 <= i < |q| ==> q[i] < |s|
    requires forall x :: 0 <= x < |s| ==> s'[x].(next := NIL) == s[x].(ret := s'[x].ret)
    requires forall x: nat :: x < |s| && x !in q ==> s'[x].ret == s[x].ret
    ensures Unlinked(s') == Timed(s, q, Deltas(s', q))
  {
    forall x: nat | x < |s| ensures Unlinked(s')[x] == Timed(s, q, Deltas(s', q))[x] {
      if x in q {
        var i: nat :| i < |q| && q[i] == x;
        TimeIs(q, Deltas(s', q), i);
      }
    }
  }

  lemma RoundedUp(milliseconds: nat, ticks: nat)
    requires ticks == milliseconds / MS_PER_CLOCK_TICK + if milliseconds % MS_PER_CLOCK_TICK != 0 then 1 else 0
    ensures ticks == TicksFor(milliseconds)
  {
  }

  lemma SleepsFrom(s: seq<Pcb>, s1: seq<Pcb>, s': seq<Pcb>, q: seq<nat>, p: nat, k: nat, ticks: int)
    requires p < |s| && s1 == s[p := s[p].(ret := ticks)] && p !in q
    requires (forall i :: 0 <= i < |q| ==> q[i] < |s|) && k <= |q|
    requires Joined(s1, s', q, p) && Delayed(s1, s', q, p, k)
    ensures AsleepIn(s, s', q, p, k, ticks)
  {
    assert Deltas(s1, q) == Deltas(s, q);
  }

  lemma SleeperPut(s: seq<Pcb>, qs: Queues, hands: set<nat>, s': seq<Pcb>, p: nat, k: nat)
    requires World(s, qs, hands, false) && p in hands && p < |s| && s[p].ret >= 0 && k <= |qs.sleep|
    requires Joined(s, s', qs.sleep, p) && Delayed(s, s', qs.sleep, p, k) && Chained(s', With(qs.sleep, k, p))
    ensures World(s', qs.(sleep := With(qs.sleep, k, p)), hands - {p}, false)
  {
    var q, q' := qs.sleep, With(qs.sleep, k, p);
    assert q == qs.At(InSleep);
    HomeOf(s, qs, hands, false, p, InSleep);
    GainsAt(q, k, p);
    var ds := Deltas(s, q);
    forall i | 0 <= i < |ds| ensures ds[i] >= 0 {
      assert q[i] in q;
      HomeOf(s, qs, hands, false, q[i], InSleep);
    }
    InsertNonNegative(ds, s[p].ret, k);
    forall x: nat | x < |s| && x in q' ensures s'[x].ret >= 0 {
      var i :| 0 <= i < |q'| && q'[i] == x;
      assert Deltas(s', q')[i] == s'[x].ret;
    }
    Puts(s, qs, hands, false, s', p, InSleep, q');
  }

  lemma NobodyWaits(s: seq<Pcb>, s1: seq<Pcb>, s2: seq<Pcb>, q: seq<nat>, pid: nat, p: nat, x: Pcb)
    requires forall i :: 0 <= i < |q| ==> q[i] < |s|
    requires Unblocks(s, s1, Waiters(s, q, |q|, pid)) && p < |s| && Changed(s1, s2, p, x)
             && x.blockedId == s1[p].blockedId
    ensures forall y: nat :: y < |s| && y in Others(s, q, |q|, pid) ==> s2[y].blockedId != pid
  {
    forall y: nat | y < |s| && y in Others(s, q, |q|, pid) ensures s2[y].blockedId != pid {
      WaitersIn(s, q, |q|, pid, y);
    }
  }

  // The i-th sleeper has its new time, and is ready if it is one of the first n.
  ghost predicate SleeperTicked(s: seq<Pcb>, s': seq<Pcb>, q: seq<nat>, ds: seq<int>, n: nat, i: nat) {
    && i < |q| == |ds| && q[i] < |s| == |s'|
    && var x := s[q[i]].(ret := ds[i]);
    && s'[q[i]] == (if i < n then Readied(x) else x).(next := s'[q[i]].next)
  }

  // During a tick, after n sleepers were woken.
  ghost predicate TickedSoFar(s: seq<Pcb>, qs: Queues, s': seq<Pcb>, qs': Queues, n: nat) {
    && Distinct(qs.sleep) && (forall i :: 0 <= i < |qs.sleep| ==> qs.sleep[i] < |s|) && |s'| == |s| && n <= |qs.sleep|
    && var ds := Ticked(Deltas(s, qs.sleep));
    && qs' == qs.(sleep := qs.sleep[n..], ready := qs.ready + qs.sleep[..n])
    && (forall i :: 0 <= i < n ==> ds[i] <= 0)
    && (forall i: nat :: i < |qs.sleep| ==> SleeperTicked(s, s', qs.sleep, ds, n, i))
    && (forall x: nat :: x < |s| && x !in qs.sleep ==> s'[x] == s[x].(next := s'[x].next))
  }

  // What a tick comes to: those who are due are ready, in order, the others' times
  // are lowered, and processes not asleep are as before.
  ghost predicate TicksOver(s: seq<Pcb>, qs: Queues, s': seq<Pcb>, qs': Queues)
    requires forall i :: 0 <= i < |qs.sleep| ==> qs.sleep[i] < |s|
  {
    var ds := Ticked(Deltas(s, qs.sleep));
    var n := Ripe(ds);
    && |s'| == |s|
    && qs' == qs.(sleep := qs.sleep[n..], ready := qs.ready + qs.sleep[..n])
    && (forall i: nat :: i < |qs.sleep| ==> SleeperTicked(s, s', qs.sleep, ds, n, i))
    && (forall x: nat :: x < |s| && x !in qs.sleep ==> s'[x] == s[x].(next := s'[x].next))
  }

  lemma SeenTicked(s: seq<Pcb>, qs: Queues, process: int, s': seq<Pcb>, qs': Queues)
    requires (forall i :: 0 <= i < |qs.sleep| ==> qs.sleep[i] < |s|) && Distinct(qs.sleep)
    requires TicksOver(s, qs, s', qs')
    ensures Table(Unlinked(s), qs, process).Ticks() == Table(Unlinked(s'), qs', process)
  {
    var t, q, ds := Table(Unlinked(s), qs, process), qs.sleep, Ticked(Deltas(s, qs.sleep));
    var n := Ripe(ds);
    assert Deltas(t.s, q) == Deltas(s, q);
    forall x: nat | x < |s| ensures Unlinked(s')[x] == Woken(Timed(t.s, q, ds), q[..n])[x] {
      if x in q {
        var i: nat :| i < |q| && q[i] == x;
        assert SleeperTicked(s, s', q, ds, n, i);
        TimeIs(q, ds, i);
        AmongFirst(q, n, i);
      }
    }
  }

  lemma NoneTick(t: Table)
    requires t.qs.sleep == []
    ensures t.Ticks() == t
  {
    assert Woken(Timed(t.s, [], []), []) == t.s;
    assert t.qs.ready + [] == t.qs.ready;
    assert Ticked(Deltas(t.s, [])) == [];
  }

  lemma MayTick(s: seq<Pcb>, qs: Queues, hands: set<nat>)
    requires World(s, qs, hands, false)
    ensures World(s, qs, hands, true)
  {
    forall p: nat | p < |s| ensures Home(s, qs, hands, true, p) {
      assert Home(s, qs, hands, false, p);
    }
  }

  lemma FirstTicked(s: seq<Pcb>, qs: Queues, s': seq<Pcb>, head: nat)
    requires Distinct(qs.sleep) && qs.sleep != [] && head == qs.sleep[0]
    requires forall i :: 0 <= i < |qs.sleep| ==> qs.sleep[i] < |s|
    requires s' == s[head := s[head].(ret := s[head].ret - 1)]
    ensures TickedSoFar(s, qs, s', qs, 0)
  {
    assert qs.sleep[0..] == qs.sleep && qs.ready + qs.sleep[..0] == qs.ready;
  }

  lemma NextTicked(s: seq<Pcb>, qs: Queues, s1: seq<Pcb>, qs1: Queues, s2: seq<Pcb>, qs2: Queues, n: nat, head: nat)
    requires TickedSoFar(s, qs, s1, qs1, n) && n < |qs.sleep| && head == qs.sleep[n] && s1[head].ret <= 0
    requires qs2 == qs1.(ready := qs1.ready + [head], sleep := Minus(qs1.sleep, head))
    requires Changed(s1, s2, head, Readied(s1[head]))
    ensures TickedSoFar(s, qs, s2, qs2, n + 1)
  {
    assert qs1.sleep[1..] == qs.sleep[n + 1..];
    assert qs.ready + qs.sleep[..n] + [head] == qs.ready + qs.sleep[..n + 1];
    assert head in qs.sleep;
    var q, ds, n' := qs.sleep, Ticked(Deltas(s, qs.sleep)), n + 1;
    assert SleeperTicked(s, s1, q, ds, n, n) && s1[head].ret == ds[n];
    assert qs1.sleep[0] == head;
    forall i: nat | i < |q| ensures SleeperTicked(s, s2, q, ds, n', i) {
      assert SleeperTicked(s, s1, q, ds, n, i);
    }
  }

  // The first one left has time left.
  lemma TickDone(s: seq<Pcb>, qs: Queues, s': seq<Pcb>, qs': Queues, hands: set<nat>, n: nat)
    requires TickedSoFar(s, qs, s', qs', n) && World(s', qs', hands, true)
    requires n < |qs.sleep| ==> s'[qs.sleep[n]].ret > 0
    ensures World(s', qs', hands, false) && TicksOver(s, qs, s', qs')
  {
    var ds := Ticked(Deltas(s, qs.sleep));
    if n < |qs.sleep| {
      assert SleeperTicked(s, s', qs.sleep, ds, n, n);
    }
    RipeIs(ds, n);
    forall p: nat | p < |s'| ensures Home(s', qs', hands, false, p) {
      assert Home(s', qs', hands, true, p);
    }
  }

  // Any run, from the start of the first process to the first request that is not
  // modelled: between requests the kernel is in order, and what the requests did is what
  // the dispatcher's functions say. If nobody goes to sleep for no time and no sleeper is
  // woken by a signal, the sleep queue is what the sleeps and timer interrupts of these
  // requests make it, and every sleeper wakes on the last tick of its sleep.
  method Run(table: set<nat>, requests: seq<Request>) returns (kernel: Kernel, served: nat)
    ensures kernel.Resting()
    ensures served <= |requests| && kernel.View() == Course(Booted(table), requests[..served])
    ensures served < |requests| ==> kernel.Declines(requests[served])
    ensures Punctual(Booted(table), requests[..served])
  {
    kernel := Start(table);
    served := 0;
    ghost var t0 := Booted(table);
    BootedKept(table);
    while served < |requests| && !kernel.Declines(requests[served])
      invariant kernel.Resting() && served <= |requests| && kernel.View() == Course(t0, requests[..served])
      invariant fresh(kernel) && fresh(kernel.pcbs) && fresh(kernel.stopped) && fresh(kernel.ready)
      invariant fresh(kernel.blocked) && fresh(kernel.sleeping)
      invariant Kept(t0, requests[..served])
    {
      hide *;
      kernel.AtRest();
      KeptNext(t0, requests, served);
      OneRequest(kernel, requests[served]);
      served := served + 1;
    }
    AllPunctual(t0, requests[..served]);
  }

  method Start(table: set<nat>) returns (kernel: Kernel)
    ensures kernel.Resting() && kernel.View() == Booted(table)
    ensures fresh(kernel) && fresh(kernel.pcbs) && fresh(kernel.stopped) && fresh(kernel.ready)
    ensures fresh(kernel.blocked) && fresh(kernel.sleeping)
  {
    kernel := new Kernel();
    var root := kernel.Create(true, table, {});
    kernel.Next();
  }

  // One request, where none is made while no process runs.
  method OneRequest(kernel: Kernel, request: Request)
    requires kernel.Resting() && !kernel.Declines(request)
    modifies kernel, kernel.pcbs, kernel.stopped, kernel.ready, kernel.blocked, kernel.sleeping
    ensures kernel.Resting() && kernel.View() == OneRound(old(kernel.View()), request)
  {
    kernel.AtRest();
    if kernel.process != NIL || request.Timer? {
      kernel.Step(request);
    }
  }

  // In every state of a run each process is in exactly one place, and its state says
  // which; the queues' sizes and tails are those of their chains.
  lemma ExactlyOnePlace(kernel: Kernel, p: nat)
    requires kernel.Resting() && p < kernel.pcbs.Length
    ensures var s, q := kernel.pcbs[p].state, kernel.Qs();
            && (p in q.stopped <==> s == Stopped)
            && (p in q.ready <==> s == Ready)
            && (p == kernel.process <==> s == Running)
            && (p in q.blocked || p in q.sleep <==> s == Blocked)
            && !(p in q.blocked && p in q.sleep)
    ensures p in kernel.blocked.contents ==> kernel.pcbs[p].blockedId > 0
    ensures Distinct(kernel.stopped.contents) && Distinct(kernel.ready.contents)
    ensures Distinct(kernel.blocked.contents) && Distinct(kernel.sleeping.contents)
    ensures kernel.stopped.Ends() && kernel.ready.Ends() && kernel.blocked.Ends() && kernel.sleeping.Ends()
  {
    var s, qs, hands := kernel.pcbs[..], kernel.Qs(), kernel.InHand();
    HomeOf(s, qs, hands, false, p, InStopped);
    HomeOf(s, qs, hands, false, p, InReady);
    HomeOf(s, qs, hands, false, p, InBlocked);
    HomeOf(s, qs, hands, false, p, InSleep);
    assert Chained(s, qs.At(InStopped)) && Chained(s, qs.At(InReady));
    assert Chained(s, qs.At(InBlocked)) && Chained(s, qs.At(InSleep));
  }

  // An exchange changes the state of the running process, if it blocks.
  lemma ExchangeSeen(t: Table, curr: nat, other: nat, status: BlockedStatus, length: int, t': Table)
    requires curr < |t.s| && other < |t.s| && t' == t.Exchanges(curr, other, status, length)
             && t.s[curr].state == Running
    ensures |t'.s| == |t.s|
    ensures t'.s[curr] == if Meets(t.s, curr, other) then t.s[curr]
                          else t.s[curr].(state := Blocked, blockedStatus := status, blockedId := t.s[other].pid)
  {
  }

  lemma FindSeen(s: seq<Pcb>, pid: nat)
    requires |s| == PCB_TABLE_SIZE
    ensures Find(Unlinked(s), pid) == Find(s, pid)
  {
  }
}
