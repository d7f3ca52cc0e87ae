// Where every process is: value-level facts about the process table of c/pcb.c
// and its four queues.
module Places {
  import opened Pcbs
  import opened DeltaQueue

  const PCB_TABLE_SIZE: nat := 32
  const PID_MAX: nat := 32768

  datatype Where = InStopped | InReady | InBlocked | InSleep | Nowhere

  // The queue that the state of a process calls for.
  function PlaceOf(p: Pcb): Where {
    match p.state
    case Stopped => InStopped
    case Ready => InReady
    case Running => Nowhere
    case Blocked =>
      match p.blockedStatus
      case Sleeping => InSleep
      case Sending => InBlocked
      case Receiving => InBlocked
      case Waiting => InBlocked
      case NotBlocked => Nowhere
      case OnDevice => Nowhere
  }

  datatype Queues = Queues(stopped: seq<nat>, ready: seq<nat>, blocked: seq<nat>, sleep: seq<nat>) {
    function At(w: Where): seq<nat> {
      match w
      case InStopped => stopped
      case InReady => ready
      case InBlocked => blocked
      case InSleep => sleep
      case Nowhere => []
    }

    function Set(w: Where, q: seq<nat>): Queues {
      match w
      case InStopped => this.(stopped := q)
      case InReady => this.(ready := q)
      case InBlocked => this.(blocked := q)
      case InSleep => this.(sleep := q)
      case Nowhere => this
    }
  }

  // What is blocked waits for a pid; a message has a length.
  predicate Blockable(p: Pcb) {
    p.blockedId > 0 && (p.blockedStatus == Waiting || p.length > 0)
  }

  // Slot i only has pids i + 1, i + 33, ...
  ghost predicate GoodPid(pid: nat, i: nat) {
    1 <= pid <= PID_MAX && (pid - 1) % PCB_TABLE_SIZE == i
  }

  // A process in hand is in no queue and not linked; any other is in exactly the
  // queue its state calls for. Sleepers' times are not negative, but that of the first
  // may have gone below zero during a tick.
  ghost predicate Home(s: seq<Pcb>, qs: Queues, hands: set<nat>, ticking: bool, p: nat)
    requires p < |s|
  {
    && (forall w: Where :: Belongs(s, qs, hands, p, w))
    && (if p in hands then s[p].next == NIL else PlaceOf(s[p]) != Nowhere)
    && GoodPid(s[p].pid, p)
    && (p in qs.blocked ==> Blockable(s[p]))
    && (p in qs.sleep ==> s[p].ret >= if ticking && p == Link(qs.sleep, 0) then -1 else 0)
  }

  ghost predicate Belongs(s: seq<Pcb>, qs: Queues, hands: set<nat>, p: nat, w: Where)
    requires p < |s|
  {
    p in qs.At(w) <==> p !in hands && w != Nowhere && PlaceOf(s[p]) == w
  }

  lemma HomeOf(s: seq<Pcb>, qs: Queues, hands: set<nat>, ticking: bool, p: nat, w: Where)
    requires World(s, qs, hands, ticking) && p < |s|
    ensures Home(s, qs, hands, ticking, p) && Belongs(s, qs, hands, p, w)
  {
    assert Home(s, qs, hands, ticking, p);
  }

  lemma SetAt(qs: Queues, w: Where, q: seq<nat>, w': Where)
    requires w != Nowhere
    ensures qs.Set(w, q).At(w') == if w' == w then q else qs.At(w')
  {
  }

  ghost predicate World(s: seq<Pcb>, qs: Queues, hands: set<nat>, ticking: bool) {
    && |s| == PCB_TABLE_SIZE
    && (forall w: Where :: Chained(s, qs.At(w)))
    && (forall p: nat :: p < |s| ==> Home(s, qs, hands, ticking, p))
  }

  // A process is in only one queue.
  lemma OnlyOnce(s: seq<Pcb>, qs: Queues, hands: set<nat>, ticking: bool, w: Where, w': Where, p: nat)
    requires World(s, qs, hands, ticking) && p in qs.At(w) && w != w'
    ensures p < |s| && p !in qs.At(w') && p !in hands && PlaceOf(s[p]) == w
  {
    ChainPlaces(s, qs.At(w));
    HomeOf(s, qs, hands, ticking, p, w);
    HomeOf(s, qs, hands, ticking, p, w');
  }

  // q' is q and p.
  ghost predicate Gains(q: seq<nat>, q': seq<nat>, p: nat) {
    forall x: nat :: x in q' <==> x in q || x == p
  }

  ghost predicate Loses(q: seq<nat>, q': seq<nat>, p: nat) {
    forall x: nat :: x in q' <==> x in q && x != p
  }

  // PCBs other than p keep all but the links of a queue, and the times of sleepers.
  ghost predicate OthersKeep(s: seq<Pcb>, s': seq<Pcb>, q: seq<nat>, p: nat) {
    && |s'| == |s|
    && (forall i :: 0 <= i < |s| && i != p ==> s'[i] == s[i].(ret := s'[i].ret, next := s'[i].next))
    && (forall i :: 0 <= i < |s| && i != p && i !in q ==> s'[i] == s[i])
  }

  // Putting a process in hand into a queue.
  lemma Puts(s: seq<Pcb>, qs: Queues, hands: set<nat>, ticking: bool, s': seq<Pcb>, p: nat, w: Where, q': seq<nat>)
    requires World(s, qs, hands, ticking) && p in hands && p < |s| && w != Nowhere
    requires OthersKeep(s, s', qs.At(w), p) && PlaceOf(s'[p]) == w && GoodPid(s'[p].pid, p)
    requires Chained(s', q') && Gains(qs.At(w), q', p)
    requires w == InBlocked ==> Blockable(s'[p])
    requires w == InSleep ==> !ticking
    requires forall x: nat :: x < |s| && x in q' && w == InSleep ==> s'[x].ret >= 0
    requires w != InSleep ==> forall i :: 0 <= i < |s| && i != p ==> s'[i].ret == s[i].ret
    ensures World(s', qs.Set(w, q'), hands - {p}, ticking)
  {
    var qs', hands' := qs.Set(w, q'), hands - {p};
    forall w': Where ensures Chained(s', qs'.At(w')) {
      SetAt(qs, w, q', w');
      if w' != w {
        OtherChain(s, qs, hands, ticking, s', p, w, w');
      }
    }
    forall x: nat | x < |s'| ensures Home(s', qs', hands', ticking, x) {
      assert x != p ==> PlaceOf(s'[x]) == PlaceOf(s[x]);
      forall w': Where ensures Belongs(s', qs', hands', x, w') {
        SetAt(qs, w, q', w');
        HomeOf(s, qs, hands, ticking, x, w');
        HomeOf(s, qs, hands, ticking, x, w);
      }
      HomeOf(s, qs, hands, ticking, x, w);
      HomeOf(s, qs, hands, ticking, x, InBlocked);
      HomeOf(s, qs, hands, ticking, x, InSleep);
      SetAt(qs, w, q', InBlocked);
      SetAt(qs, w, q', InSleep);
    }
  }

  lemma OtherChain(s: seq<Pcb>, qs: Queues, hands: set<nat>, ticking: bool, s': seq<Pcb>, p: nat, w: Where, w': Where)
    requires World(s, qs, hands, ticking) && p < |s| && w' != w && (p in hands || p in qs.At(w))
    requires OthersKeep(s, s', qs.At(w), p)
    ensures Chained(s', qs.At(w'))
  {
    var q := qs.At(w');
    forall i: nat | i < |q| ensures LinkAt(s', q, i) {
      assert LinkAt(s, q, i);
      assert q[i] in q;
      OnlyOnce(s, qs, hands, ticking, w', w, q[i]);
    }
  }

  // Taking a process out of its queue.
  lemma Takes(s: seq<Pcb>, qs: Queues, hands: set<nat>, ticking: bool, s': seq<Pcb>, p: nat, w: Where, q': seq<nat>)
    requires World(s, qs, hands, ticking) && p in qs.At(w) && p < |s|
    requires Relinked(s, s', Members(qs.At(w))) && s'[p].next == NIL
    requires Chained(s', q') && Loses(qs.At(w), q', p)
    requires ticking && w == InSleep ==> p == Link(qs.sleep, 0)
    ensures World(s', qs.Set(w, q'), hands + {p}, ticking)
  {
    var qs', hands' := qs.Set(w, q'), hands + {p};
    HomeOf(s, qs, hands, ticking, p, w);
    forall i | 0 <= i < |s| && i != p && i !in qs.At(w) ensures s'[i] == s[i] {
      OffQueue(qs.At(w), i);
    }
    forall w': Where ensures Chained(s', qs'.At(w')) {
      SetAt(qs, w, q', w');
      if w' != w {
        OtherChain(s, qs, hands, ticking, s', p, w, w');
      }
    }
    forall x: nat | x < |s'| ensures Home(s', qs', hands', ticking, x) {
      assert PlaceOf(s'[x]) == PlaceOf(s[x]);
      forall w': Where ensures Belongs(s', qs', hands', x, w') {
        SetAt(qs, w, q', w');
        HomeOf(s, qs, hands, ticking, x, w');
        HomeOf(s, qs, hands, ticking, x, w);
      }
      HomeOf(s, qs, hands, ticking, x, w);
      HomeOf(s, qs, hands, ticking, x, InBlocked);
      HomeOf(s, qs, hands, ticking, x, InSleep);
      SetAt(qs, w, q', InBlocked);
      SetAt(qs, w, q', InSleep);
    }
  }

  // A change of a PCB that does not call for another queue.
  lemma Edits(s: seq<Pcb>, qs: Queues, hands: set<nat>, ticking: bool, p: nat, x: Pcb)
    requires World(s, qs, hands, ticking) && p < |s| && x.next == s[p].next && GoodPid(x.pid, p)
    requires p in hands || (PlaceOf(x) == PlaceOf(s[p]) && (PlaceOf(x) == InBlocked ==> Blockable(x))
                            && (PlaceOf(x) == InSleep ==> x.ret >= if ticking && p == Link(qs.sleep, 0) then -1 else 0))
    ensures World(s[p := x], qs, hands, ticking)
  {
    var s' := s[p := x];
    forall w: Where ensures Chained(s', qs.At(w)) {
      var q := qs.At(w);
      forall i: nat | i < |q| ensures LinkAt(s', q, i) {
        assert LinkAt(s, q, i);
      }
    }
    forall y: nat | y < |s'| ensures Home(s', qs, hands, ticking, y) {
      assert Home(s, qs, hands, ticking, y);
      forall w: Where ensures Belongs(s', qs, hands, y, w) {
        HomeOf(s, qs, hands, ticking, y, w);
      }
      HomeOf(s, qs, hands, ticking, y, InBlocked);
      HomeOf(s, qs, hands, ticking, y, InSleep);
    }
  }
}
