// The sleep queue of c/sleep.c: each sleeper holds the ticks it sleeps longer than
// the one before it (in its ret field).
module DeltaQueue {
  import opened Pcbs

  // Sum of the first k.
  ghost function Sum(ds: seq<int>, k: nat): int
    requires k <= |ds|
  {
    if k == 0 then 0 else Sum(ds, k - 1) + ds[k - 1]
  }

  // Ticks until sleeper i is due.
  ghost function Due(ds: seq<int>, i: nat): int
    requires i < |ds|
  {
    Sum(ds, i + 1)
  }

  ghost predicate NonNegative(ds: seq<int>) {
    forall i :: 0 <= i < |ds| ==> ds[i] >= 0
  }

  lemma {:induction false} SumSame(a: seq<int>, b: seq<int>, k: nat)
    requires k <= |a| && k <= |b| && forall i :: 0 <= i < k ==> a[i] == b[i]
    ensures Sum(a, k) == Sum(b, k)
  {
    if k > 0 { SumSame(a, b, k - 1); }
  }

  // ------------------------------------------------------------- insertion

  // k is the place of a sleeper due in d ticks: behind those due before.
  ghost predicate Spot(ds: seq<int>, d: int, k: nat) {
    && k <= |ds|
    && Behind(ds, d, k)
    && (k < |ds| ==> Due(ds, k) >= d)
  }

  ghost predicate Behind(ds: seq<int>, d: int, k: nat)
    requires k <= |ds|
  {
    forall i: nat :: i < k ==> Due(ds, i) < d
  }

  // What is left of d ticks behind the first k sleepers.
  ghost predicate Left(ds: seq<int>, d: int, k: nat, rest: int) {
    k <= |ds| && rest == d - Sum(ds, k)
  }

  lemma LeftNext(ds: seq<int>, d: int, k: nat, rest: int)
    requires Left(ds, d, k, rest) && k < |ds|
    ensures Left(ds, d, k + 1, rest - ds[k])
    ensures ds[k] < rest <==> Due(ds, k) < d
  {
  }

  ghost function Inserted(ds: seq<int>, d: int, k: nat): (r: seq<int>)
    requires k <= |ds|
    ensures |r| == |ds| + 1
  {
    var rest := d - Sum(ds, k);
    if k == |ds| then ds + [rest] else ds[..k] + [rest, ds[k] - rest] + ds[k + 1..]
  }

  // The new sleeper is due in d ticks, and nobody else's time changes.
  lemma {:induction false} InsertDue(ds: seq<int>, d: int, k: nat, i: nat)
    requires k <= |ds| && i <= |ds|
    ensures Due(Inserted(ds, d, k), i) == if i < k then Due(ds, i) else if i == k then d else Due(ds, i - 1)
  {
    var ds' := Inserted(ds, d, k);
    if i < k {
      SumSame(ds, ds', i + 1);
    } else if i == k {
      SumSame(ds, ds', k);
    } else {
      InsertDue(ds, d, k, i - 1);
      assert Due(ds', i) == Due(ds', i - 1) + ds'[i];
    }
  }

  // Differences stay non-negative; with a sleep of a tick or more, the first stays
  // positive.
  lemma InsertNonNegative(ds: seq<int>, d: int, k: nat)
    requires NonNegative(ds) && Spot(ds, d, k) && d >= 0
    ensures NonNegative(Inserted(ds, d, k))
    ensures d > 0 && (ds == [] || ds[0] > 0) ==> Inserted(ds, d, k)[0] > 0
  {
    if k > 0 { assert Due(ds, k - 1) < d; }
    if k < |ds| { assert Due(ds, k) >= d; }
    assert Sum(ds, 0) == 0;
  }

  // ------------------------------------------------------------------ a tick

  // What a sleeper holds, and is returned when a signal wakes it, is its remaining time
  // if and only if all ahead of it are due at once.
  lemma {:induction false} HeldIsRemaining(ds: seq<int>, k: nat)
    requires NonNegative(ds) && k < |ds|
    ensures ds[k] == Due(ds, k) <==> forall i :: 0 <= i < k ==> ds[i] == 0
  {
    SumZero(ds, k);
  }

  lemma {:induction false} SumZero(ds: seq<int>, k: nat)
    requires NonNegative(ds) && k <= |ds|
    ensures Sum(ds, k) >= 0
    ensures Sum(ds, k) == 0 <==> forall i :: 0 <= i < k ==> ds[i] == 0
  {
    if k > 0 {
      SumZero(ds, k - 1);
    }
  }

  // How many are at their end.
  ghost function Ripe(ds: seq<int>): (n: nat)
    ensures n <= |ds|
    ensures forall i :: 0 <= i < n ==> ds[i] <= 0
    ensures n < |ds| ==> ds[n] > 0
  {
    if ds == [] || ds[0] > 0 then 0 else 1 + Ripe(ds[1..])
  }

  lemma RipeIs(ds: seq<int>, n: nat)
    requires n <= |ds| && (forall i :: 0 <= i < n ==> ds[i] <= 0) && (n < |ds| ==> ds[n] > 0)
    ensures Ripe(ds) == n
  {
    assert !(Ripe(ds) < n);
    assert !(n < Ripe(ds));
  }

  ghost function Ticked(ds: seq<int>): (r: seq<int>)
    ensures |r| == |ds|
  {
    if ds == [] then [] else ds[0 := ds[0] - 1]
  }

  lemma {:induction false} TickedSum(ds: seq<int>, k: nat)
    requires 0 < k <= |ds|
    ensures Sum(Ticked(ds), k) == Sum(ds, k) - 1
  {
    if k == 1 {
      assert Sum(ds, 1) == Sum(ds, 0) + ds[0];
      assert Sum(Ticked(ds), 1) == Sum(Ticked(ds), 0) + Ticked(ds)[0];
    } else {
      TickedSum(ds, k - 1);
    }
  }

  lemma {:induction false} DropSum(ds: seq<int>, n: nat, k: nat)
    requires n + k <= |ds|
    ensures Sum(ds[n..], k) == Sum(ds, n + k) - Sum(ds, n)
  {
    if k > 0 { DropSum(ds, n, k - 1); }
  }

  // Woken from a positive head, all differences were 1 and then 0.
  lemma {:induction false} RipeSum(ds: seq<int>, n: nat)
    requires NonNegative(ds) && n <= Ripe(Ticked(ds))
    ensures Sum(ds, n) == if n == 0 || ds[0] == 0 then 0 else 1
    ensures n > 0 ==> ds[0] <= 1
  {
    if n > 0 {
      RipeSum(ds, n - 1);
      assert Ticked(ds)[n - 1] <= 0 && Ticked(ds)[0] <= 0;
      assert Sum(ds, 1) == Sum(ds, 0) + ds[0];
    }
  }

  // With a positive head, a tick wakes exactly the sleepers due on it, and all
  // others are due one tick earlier.
  lemma TickDue(ds: seq<int>, i: nat)
    requires NonNegative(ds) && i < |ds| && ds[0] > 0
    ensures var n := Ripe(Ticked(ds));
            && (i < n <==> Due(ds, i) == 1)
            && (i >= n ==> Due(Ticked(ds)[n..], i - n) == Due(ds, i) - 1 >= 1)
  {
    var n := Ripe(Ticked(ds));
    if i < n {
      RipeSum(ds, i + 1);
    } else {
      RipeSum(ds, n);
      DropSum(Ticked(ds), n, i - n + 1);
      TickedSum(ds, i + 1);
      if n > 0 { TickedSum(ds, n); }
      DueMore(ds, n, i);
    }
  }

  // One not woken is due more than a tick after those woken.
  lemma {:induction false} DueMore(ds: seq<int>, n: nat, i: nat)
    requires NonNegative(ds) && n == Ripe(Ticked(ds)) <= i < |ds| && ds[0] > 0
    ensures Due(ds, i) >= 2
    decreases i
  {
    if i > n {
      DueMore(ds, n, i - 1);
      assert Due(ds, i) == Due(ds, i - 1) + ds[i];
    } else {
      RipeSum(ds, n);
      assert Due(ds, i) == Sum(ds, n) + ds[n] && Ticked(ds)[n] > 0;
    }
  }

  // A sleep of no ticks at the head takes the tick for itself: the others' times
  // stay as they are.
  lemma TickAbsorbed(ds: seq<int>, i: nat)
    requires NonNegative(ds) && i < |ds| && ds[0] == 0
    ensures var n := Ripe(Ticked(ds)); i >= n ==> Due(Ticked(ds)[n..], i - n) == Due(ds, i)
  {
    var n := Ripe(Ticked(ds));
    if i >= n {
      assert Ticked(ds)[0] <= 0;
      RipeSum(ds, n);
      DropSum(Ticked(ds), n, i - n + 1);
      TickedSum(ds, i + 1);
      TickedSum(ds, n);
    }
  }

  lemma TickNonNegative(ds: seq<int>)
    requires NonNegative(ds)
    ensures var ds' := Ticked(ds)[Ripe(Ticked(ds))..]; NonNegative(ds') && (ds' == [] || ds'[0] > 0)
  {
    var n := Ripe(Ticked(ds));
    if ds != [] && n == 0 {
      assert Ticked(ds)[0] > 0;
    }
  }

  // ------------------------------------------------------------ early removal

  // Taking sleeper k out does not give its time back: those behind it are due its
  // difference earlier. Nobody is affected exactly if that is zero or it is last.
  lemma {:induction false} RemovedDue(ds: seq<int>, k: nat, i: nat)
    requires k < |ds| && i < |ds| - 1
    ensures Due(ds[..k] + ds[k + 1..], i) == if i < k then Due(ds, i) else Due(ds, i + 1) - ds[k]
  {
    var ds' := ds[..k] + ds[k + 1..];
    if i < k {
      SumSame(ds, ds', i + 1);
    } else {
      if i == k {
        SumSame(ds, ds', k);
        assert Sum(ds, k + 1) == Sum(ds, k) + ds[k];
        assert Due(ds, i + 1) == Sum(ds, k + 1) + ds[k + 1];
      } else {
        RemovedDue(ds, k, i - 1);
      }
      assert Sum(ds', i + 1) == Sum(ds', i) + ds'[i];
    }
  }

  ghost predicate SameTime(ds: seq<int>, k: nat, i: nat)
    requires k < |ds| && i < |ds| - 1
  {
    Due(ds[..k] + ds[k + 1..], i) == Due(ds, if i < k then i else i + 1)
  }

  lemma RemovedKeepsTimes(ds: seq<int>, k: nat)
    requires k < |ds|
    ensures (forall i: nat :: i < |ds| - 1 ==> SameTime(ds, k, i)) <==> ds[k] == 0 || k == |ds| - 1
  {
    if k < |ds| - 1 && ds[k] != 0 {
      RemovedDue(ds, k, k);
      assert !SameTime(ds, k, k);
    } else {
      forall i: nat | i < |ds| - 1 ensures SameTime(ds, k, i) {
        RemovedDue(ds, k, i);
      }
    }
  }

  // ------------------------------------------------------------------- runs

  // The sleepers in order, with their differences.
  datatype Line = Line(q: seq<nat>, ds: seq<int>)

  datatype Event = FallAsleep(p: nat, ticks: nat) | Tick

  ghost function SpotFrom(ds: seq<int>, d: int, k: nat): (r: nat)
    requires k <= |ds| && Behind(ds, d, k)
    ensures Spot(ds, d, r)
    decreases |ds| - k
  {
    if k == |ds| || Due(ds, k) >= d then k else SpotFrom(ds, d, k + 1)
  }

  // There is only one place.
  lemma SpotUnique(ds: seq<int>, d: int, k: nat, k': nat)
    requires Spot(ds, d, k) && Spot(ds, d, k')
    ensures k == k'
  {
    assert !(k < k');
    assert !(k' < k);
  }

  ghost function Step(l: Line, e: Event): (r: Line)
    requires |l.q| == |l.ds|
    ensures |r.q| == |r.ds|
  {
    match e
    case FallAsleep(p, ticks) =>
      var k := SpotFrom(l.ds, ticks, 0);
      Line(With(l.q, k, p), Inserted(l.ds, ticks, k))
    case Tick =>
      var n := Ripe(Ticked(l.ds));
      Line(l.q[n..], Ticked(l.ds)[n..])
  }

  // Nobody sleeps less than a tick, and nobody who is asleep falls asleep.
  ghost predicate Allowed(l: Line, e: Event) {
    e.FallAsleep? ==> e.ticks > 0 && e.p !in l.q
  }

  ghost predicate InOrder(l: Line) {
    |l.q| == |l.ds| && Distinct(l.q) && NonNegative(l.ds) && (l.ds == [] || l.ds[0] > 0)
  }

  ghost predicate DueIn(l: Line, p: nat, ticks: int) {
    exists i: nat :: i < |l.q| && i < |l.ds| && l.q[i] == p && Due(l.ds, i) == ticks
  }

  lemma StepInOrder(l: Line, e: Event)
    requires InOrder(l) && Allowed(l, e)
    ensures InOrder(Step(l, e))
  {
    match e
    case FallAsleep(p, ticks) =>
      var k := SpotFrom(l.ds, ticks, 0);
      WithMembers(l.q, k, p, p);
      InsertNonNegative(l.ds, ticks, k);
    case Tick =>
      TickNonNegative(l.ds);
  }

  // A tick brings every sleeper one nearer, waking it on its last; other events
  // change nobody's time.
  lemma StepDue(l: Line, e: Event, p: nat, ticks: int)
    requires InOrder(l) && Allowed(l, e) && DueIn(l, p, ticks)
    ensures ticks > 0
    ensures e.FallAsleep? ==> DueIn(Step(l, e), p, ticks)
    ensures e.Tick? && ticks > 1 ==> DueIn(Step(l, e), p, ticks - 1)
    ensures e.Tick? && ticks == 1 ==> p !in Step(l, e).q
  {
    var i: nat :| i < |l.q| && l.q[i] == p && Due(l.ds, i) == ticks;
    var l' := Step(l, e);
    TickDue(l.ds, i);
    match e
    case FallAsleep(x, d) =>
      var k := SpotFrom(l.ds, d, 0);
      var i' := if i < k then i else i + 1;
      InsertDue(l.ds, d, k, i');
      assert l'.q[i'] == p;
    case Tick =>
      var n := Ripe(Ticked(l.ds));
      if i >= n {
        assert l'.q[i - n] == p;
      }
  }

  // Whoever falls asleep for some ticks is due after them.
  lemma AsleepDue(l: Line, p: nat, ticks: nat)
    requires InOrder(l) && Allowed(l, FallAsleep(p, ticks))
    ensures DueIn(Step(l, FallAsleep(p, ticks)), p, ticks)
  {
    var k := SpotFrom(l.ds, ticks, 0);
    InsertDue(l.ds, ticks, k, k);
    assert Step(l, FallAsleep(p, ticks)).q[k] == p;
  }

  ghost function Run(l: Line, es: seq<Event>): (r: Line)
    requires |l.q| == |l.ds|
    ensures |r.q| == |r.ds|
  {
    if es == [] then l else Step(Run(l, es[..|es| - 1]), es[|es| - 1])
  }

  ghost predicate AllAllowed(l: Line, es: seq<Event>)
    requires |l.q| == |l.ds|
  {
    es == [] || (AllAllowed(l, es[..|es| - 1]) && Allowed(Run(l, es[..|es| - 1]), es[|es| - 1]))
  }

  ghost function Ticks(es: seq<Event>): nat {
    if es == [] then 0 else Ticks(es[..|es| - 1]) + if es[|es| - 1].Tick? then 1 else 0
  }

  lemma {:induction false} RunDue(l: Line, es: seq<Event>, p: nat, ticks: nat)
    requires InOrder(l) && AllAllowed(l, es) && DueIn(l, p, ticks) && Ticks(es) < ticks
    ensures InOrder(Run(l, es)) && DueIn(Run(l, es), p, ticks - Ticks(es))
  {
    if es != [] {
      var init := es[..|es| - 1];
      RunDue(l, init, p, ticks);
      StepInOrder(Run(l, init), es[|es| - 1]);
      StepDue(Run(l, init), es[|es| - 1], p, ticks - Ticks(init));
    }
  }

  // A sleeper wakes on exactly its last tick: it is asleep before that, whatever
  // else happens, and not after it.
  lemma WakesOnTime(l: Line, p: nat, ticks: nat, es: seq<Event>)
    requires InOrder(l) && Allowed(l, FallAsleep(p, ticks))
    requires AllAllowed(Step(l, FallAsleep(p, ticks)), es)
    ensures var r := Run(Step(l, FallAsleep(p, ticks)), es);
            && (Ticks(es) < ticks ==> p in r.q)
            && (Ticks(es) == ticks && es[|es| - 1].Tick? ==> p !in r.q)
  {
    var l' := Step(l, FallAsleep(p, ticks));
    AsleepDue(l, p, ticks);
    StepInOrder(l, FallAsleep(p, ticks));
    if Ticks(es) < ticks {
      RunDue(l', es, p, ticks);
    } else if Ticks(es) == ticks && es[|es| - 1].Tick? {
      RunDue(l', es[..|es| - 1], p, ticks);
      StepDue(Run(l', es[..|es| - 1]), Tick, p, 1);
    }
  }

  lemma {:induction false} RunSplit(l: Line, a: seq<Event>, b: seq<Event>)
    requires |l.q| == |l.ds|
    ensures Run(l, a + b) == Run(Run(l, a), b)
    ensures AllAllowed(l, a + b) ==> AllAllowed(l, a) && AllAllowed(Run(l, a), b)
  {
    if b == [] {
      assert a + b == a;
    } else {
      assert (a + b)[..|a + b| - 1] == a + b[..|b| - 1];
      RunSplit(l, a, b[..|b| - 1]);
    }
  }

  lemma {:induction false} TicksSplit(a: seq<Event>, b: seq<Event>)
    ensures Ticks(a + b) == Ticks(a) + Ticks(b)
  {
    if b == [] {
      assert a + b == a;
    } else {
      assert (a + b)[..|a + b| - 1] == a + b[..|b| - 1];
      TicksSplit(a, b[..|b| - 1]);
    }
  }

  lemma {:induction false} RunInOrder(l: Line, es: seq<Event>)
    requires InOrder(l) && AllAllowed(l, es)
    ensures InOrder(Run(l, es))
  {
    if es != [] {
      RunInOrder(l, es[..|es| - 1]);
      StepInOrder(Run(l, es[..|es| - 1]), es[|es| - 1]);
    }
  }

  // In a run that starts with nobody asleep: whoever fell asleep after `before` for
  // some ticks wakes on exactly that one of the ticks that follow.
  lemma RunWakesOnTime(before: seq<Event>, p: nat, ticks: nat, es: seq<Event>)
    requires AllAllowed(Line([], []), before + [FallAsleep(p, ticks)] + es)
    ensures var r := Run(Line([], []), before + [FallAsleep(p, ticks)] + es);
            && (Ticks(es) < ticks ==> p in r.q)
            && (Ticks(es) == ticks && es != [] && es[|es| - 1].Tick? ==> p !in r.q)
  {
    var l, e := Line([], []), FallAsleep(p, ticks);
    RunSplit(l, before + [e], es);
    RunSplit(l, before, [e]);
    RunInOrder(l, before);
    var l' := Run(l, before);
    assert Run(l', []) == l' && [e][..0] == [];
    assert Run(l', [e]) == Step(l', e) && Allowed(l', e);
    WakesOnTime(l', p, ticks, es);
  }

  // ------------------------------------------------------------- in memory

  // The differences the sleepers hold.
  ghost function Deltas(s: seq<Pcb>, q: seq<nat>): (ds: seq<int>)
    requires forall i :: 0 <= i < |q| ==> q[i] < |s|
    ensures |ds| == |q|
  {
    seq(|q|, i requires 0 <= i < |q| => s[q[i]].ret)
  }

  // Other PCBs than the new sleeper keep all but their links and differences; those
  // not asleep keep all.
  ghost predicate Joined(s: seq<Pcb>, s': seq<Pcb>, q: seq<nat>, entry: nat) {
    && |s'| == |s| && entry < |s|
    && s'[entry] == s[entry].(state := Blocked, blockedStatus := Sleeping, ret := s'[entry].ret, next := s'[entry].next)
    && (forall i :: 0 <= i < |s| && i != entry ==> s'[i] == s[i].(ret := s'[i].ret, next := s'[i].next))
    && (forall i :: 0 <= i < |s| && i != entry && i !in q ==> s'[i] == s[i])
  }

  ghost function Dozing(p: Pcb, ret: int): Pcb {
    p.(state := Blocked, blockedStatus := Sleeping, ret := ret)
  }

  lemma ChainPlaces(s: seq<Pcb>, q: seq<nat>)
    requires Chained(s, q)
    ensures forall i :: 0 <= i < |q| ==> q[i] < |s|
  {
    forall i: nat | i < |q| ensures q[i] < |s| {
      assert LinkAt(s, q, i);
    }
  }

  // A PCB off the chain does not matter to it.
  lemma ChainedOff(s: seq<Pcb>, s': seq<Pcb>, q: seq<nat>, p: nat)
    requires Chained(s, q) && |s'| == |s| && p !in q
    requires forall i :: 0 <= i < |s| && i != p ==> s'[i].next == s[i].next
    ensures Chained(s', q)
  {
    forall i: nat | i < |q| ensures LinkAt(s', q, i) {
      assert LinkAt(s, q, i);
    }
  }

  // add_pcb_to_sleep_queue. The ticks to sleep are in the ret field of the entry;
  // k is its place in the queue.
  method AddToSleepQueue(pcbs: array<Pcb>, queue: PcbQueue, entry: nat) returns (ghost k: nat)
    requires queue.Valid(pcbs[..]) && entry < pcbs.Length && entry !in queue.contents && pcbs[entry].next == NIL
    modifies queue, pcbs
    ensures queue.Valid(pcbs[..]) && k <= |old(queue.contents)| && queue.contents == With(old(queue.contents), k, entry)
    ensures Joined(old(pcbs[..]), pcbs[..], old(queue.contents), entry)
    ensures Delayed(old(pcbs[..]), pcbs[..], old(queue.contents), entry, k)
  {
    ghost var s, q := pcbs[..], queue.contents;
    ChainPlaces(s, q);
    pcbs[entry] := pcbs[entry].(state := Blocked);
    pcbs[entry] := pcbs[entry].(blockedStatus := Sleeping);
    var prev, curr;
    prev, curr, k := FindSpot(pcbs, queue, entry, s);
    ghost var s1, rest := pcbs[..], pcbs[entry].ret;
    ChainedOff(s, s1, q, entry);
    if curr == NIL {
      queue.Offer(pcbs, entry);
      LastDelayed(s, s1, pcbs[..], q, entry, rest);
      return;
    }
    LinkSleeper(pcbs, queue, entry, prev, curr, k);
    InnerDelayed(s, s1, pcbs[..], q, entry, k, rest);
  }

  // Lines 63-69: pass the sleepers due before the entry, taking their differences from it.
  method FindSpot(pcbs: array<Pcb>, queue: PcbQueue, entry: nat, ghost s: seq<Pcb>)
    returns (prev: int, curr: int, ghost k: nat)
    requires Chained(s, queue.contents) && queue.head == Link(queue.contents, 0)
    requires forall i :: 0 <= i < |queue.contents| ==> queue.contents[i] < |s|
    requires entry < pcbs.Length == |s| && entry !in queue.contents
    requires pcbs[..] == s[entry := Dozing(s[entry], s[entry].ret)]
    modifies pcbs
    ensures k <= |queue.contents| && curr == Link(queue.contents, k)
    ensures prev == if k == 0 then NIL else queue.contents[k - 1]
    ensures pcbs[..] == s[entry := Dozing(s[entry], pcbs[entry].ret)]
    ensures Left(Deltas(s, queue.contents), s[entry].ret, k, pcbs[entry].ret)
    ensures Spot(Deltas(s, queue.contents), s[entry].ret, k)
  {
    ghost var q, d, ds := queue.contents, s[entry].ret, Deltas(s, queue.contents);
    prev, curr, k := NIL, queue.head, 0;
    while curr != NIL && pcbs[curr].ret < pcbs[entry].ret
      invariant k <= |q| && curr == Link(q, k) && prev == (if k == 0 then NIL else q[k - 1])
      invariant pcbs[..] == s[entry := Dozing(s[entry], pcbs[entry].ret)] && Left(ds, d, k, pcbs[entry].ret)
      invariant Behind(ds, d, k)
      decreases |q| - k
    {
      assert LinkAt(s, q, k);
      LeftNext(ds, d, k, pcbs[entry].ret);
      pcbs[entry] := pcbs[entry].(ret := pcbs[entry].ret - pcbs[curr].ret);
      prev := curr;
      curr := pcbs[curr].next;
      k := k + 1;
    }
    if k < |q| { LeftNext(ds, d, k, pcbs[entry].ret); }
  }

  // The entry is at k in the queue, and the differences are those with its sleep
  // inserted there.
  ghost predicate Delayed(s: seq<Pcb>, s': seq<Pcb>, q: seq<nat>, entry: nat, k: nat) {
    && (forall i :: 0 <= i < |q| ==> q[i] < |s|) && |s'| == |s| && entry < |s| && k <= |q|
    && var ds := Deltas(s, q);
    && Spot(ds, s[entry].ret, k)
    && (forall i :: 0 <= i < |With(q, k, entry)| ==> With(q, k, entry)[i] < |s|)
    && Deltas(s', With(q, k, entry)) == Inserted(ds, s[entry].ret, k)
  }

  lemma LastDelayed(s: seq<Pcb>, s1: seq<Pcb>, s2: seq<Pcb>, q: seq<nat>, entry: nat, rest: int)
    requires Chained(s, q) && entry < |s| && entry !in q && Relinked(s1, s2, Members(q) + {entry})
    requires forall i :: 0 <= i < |q| ==> q[i] < |s|
    requires s1 == s[entry := Dozing(s[entry], rest)] && Left(Deltas(s, q), s[entry].ret, |q|, rest)
    requires Spot(Deltas(s, q), s[entry].ret, |q|)
    ensures With(q, |q|, entry) == q + [entry]
    ensures Joined(s, s2, q, entry) && Delayed(s, s2, q, entry, |q|)
  {
    assert With(q, |q|, entry) == q + [entry];
    OnlyMembers(s, s1, s2, q, entry, entry, rest, 0);
    assert Deltas(s2, q + [entry]) == Deltas(s, q) + [rest];
  }

  // Sleeper x, not the new one, loses y ticks; links change on the queue only.
  lemma OnlyMembers(s: seq<Pcb>, s1: seq<Pcb>, s2: seq<Pcb>, q: seq<nat>, entry: nat, x: nat, rest: int, y: int)
    requires entry < |s| && x < |s| && |s1| == |s| && Relinked(s1, s2, Members(q) + {entry}) && (x in q || x == entry)
    requires s1[entry] == Dozing(s[entry], rest)
    requires x != entry ==> s1[x] == s[x].(ret := s[x].ret - y)
    requires forall i :: 0 <= i < |s| && i != entry && i != x ==> s1[i] == s[i]
    ensures Joined(s, s2, q, entry)
    ensures s2[entry].ret == rest && (x != entry ==> s2[x].ret == s[x].ret - y)
    ensures forall i :: 0 <= i < |s| && i != entry && i != x ==> s2[i].ret == s[i].ret
  {
    forall i | 0 <= i < |s| && i != entry && i !in q
      ensures s2[i] == s[i]
    {
      OffQueue(q, i);
    }
  }

  lemma OffQueue(q: seq<nat>, i: int)
    requires i !in q
    ensures i !in Members(q)
  {
  }

  // Lines 76-85: link the entry in before curr, which is at k.
  method LinkSleeper(pcbs: array<Pcb>, queue: PcbQueue, entry: nat, prev: int, curr: nat, ghost k: nat)
    requires queue.Valid(pcbs[..]) && entry < pcbs.Length && entry !in queue.contents
    requires k < |queue.contents| && curr == queue.contents[k] && curr < pcbs.Length
    requires prev == if k == 0 then NIL else queue.contents[k - 1]
    modifies queue, pcbs
    ensures queue.Valid(pcbs[..]) && queue.contents == With(old(queue.contents), k, entry)
    ensures var lowered := old(pcbs[curr]).(ret := old(pcbs[curr].ret) - old(pcbs[entry].ret));
            Relinked(old(pcbs[..])[curr := lowered], pcbs[..], Members(old(queue.contents)) + {entry})
  {
    ghost var s, q := pcbs[..], queue.contents;
    assert LinkAt(s, q, k);
    pcbs[curr] := pcbs[curr].(ret := pcbs[curr].ret - pcbs[entry].ret);
    pcbs[entry] := pcbs[entry].(next := curr);
    queue.size := queue.size + 1;
    queue.contents := With(q, k, entry);
    if prev == NIL {
      queue.head := entry;
    } else {
      assert LinkAt(s, q, k - 1);
      pcbs[prev] := pcbs[prev].(next := entry);
    }
    NextsKept(s, pcbs[..], q, prev, entry);
    WithChained(s, q, k, entry, pcbs[..]);
  }

  lemma InnerDelayed(s: seq<Pcb>, s1: seq<Pcb>, s2: seq<Pcb>, q: seq<nat>, entry: nat, k: nat, rest: int)
    requires Chained(s, q) && entry < |s| && entry !in q && k < |q|
    requires forall i :: 0 <= i < |q| ==> q[i] < |s|
    requires s1 == s[entry := Dozing(s[entry], rest)] && Left(Deltas(s, q), s[entry].ret, k, rest)
    requires Relinked(s1[q[k] := s1[q[k]].(ret := s1[q[k]].ret - s1[entry].ret)], s2, Members(q) + {entry})
    requires Spot(Deltas(s, q), s[entry].ret, k)
    ensures Joined(s, s2, q, entry) && Delayed(s, s2, q, entry, k)
  {
    var s1' := s1[q[k] := s1[q[k]].(ret := s1[q[k]].ret - rest)];
    OnlyMembers(s, s1', s2, q, entry, q[k], rest, rest);
    InnerDeltas(s, s2, q, entry, k, rest);
  }

  lemma InnerDeltas(s: seq<Pcb>, s2: seq<Pcb>, q: seq<nat>, entry: nat, k: nat, rest: int)
    requires entry < |s| == |s2| && entry !in q && k < |q| && Distinct(q)
    requires forall i :: 0 <= i < |q| ==> q[i] < |s|
    requires Left(Deltas(s, q), s[entry].ret, k, rest)
    requires s2[entry].ret == rest && s2[q[k]].ret == s[q[k]].ret - rest
    requires forall i :: 0 <= i < |s| && i != entry && i != q[k] ==> s2[i].ret == s[i].ret
    ensures forall i :: 0 <= i < |With(q, k, entry)| ==> With(q, k, entry)[i] < |s|
    ensures Deltas(s2, With(q, k, entry)) == Inserted(Deltas(s, q), s[entry].ret, k)
  {
    var q', ds' := With(q, k, entry), Inserted(Deltas(s, q), s[entry].ret, k);
    forall i | 0 <= i < |q'| ensures q'[i] < |s| && s2[q'[i]].ret == ds'[i] {
      assert q'[i] == if i < k then q[i] else if i == k then entry else q[i - 1];
    }
    assert Deltas(s2, q') == ds';
  }
}
