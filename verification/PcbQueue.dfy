// Process control blocks and the queues they are linked into: pcb.h and
// c/pcbqueue.c. A pointer to a PCB is its place in pcb_array.
module Pcbs {
  import opened Masks

  const NIL: int := -1

  datatype State = Ready | Stopped | Running | Blocked

  datatype BlockedStatus = NotBlocked | Sending | Receiving | Waiting | Sleeping | OnDevice

  datatype Pcb = Pcb(pid: nat, state: State, blockedId: nat, blockedStatus: BlockedStatus, next: int,
                     ret: int, cpuTime: nat, pending: Mask, enabled: Mask, handlers: set<nat>, length: int)

  // --------------------------------------------------------------- chains

  // The place of element i, NULL past the end.
  function Link(q: seq<nat>, i: nat): int {
    if i < |q| then q[i] else NIL
  }

  ghost predicate Distinct(q: seq<nat>) {
    forall i, j :: 0 <= i < j < |q| ==> q[i] != q[j]
  }

  ghost predicate LinkAt(s: seq<Pcb>, q: seq<nat>, i: nat)
    requires i < |q|
  {
    q[i] < |s| && s[q[i]].next == Link(q, i + 1)
  }

  // The PCBs of q are linked in this order.
  ghost predicate Chained(s: seq<Pcb>, q: seq<nat>) {
    Distinct(q) && forall i: nat :: i < |q| ==> LinkAt(s, q, i)
  }

  // Only links were changed, and only of PCBs among the given ones.
  ghost predicate Relinked(s: seq<Pcb>, s': seq<Pcb>, among: set<nat>) {
    && |s'| == |s|
    && (forall i :: 0 <= i < |s| ==> s'[i] == s[i].(next := s'[i].next))
    && (forall i :: 0 <= i < |s| && i !in among ==> s'[i] == s[i])
  }

  ghost function Members(q: seq<nat>): set<nat> {
    set i | 0 <= i < |q| :: q[i]
  }

  // Without the element at k.
  function Without(q: seq<nat>, k: nat): seq<nat>
    requires k < |q|
  {
    q[..k] + q[k + 1..]
  }

  lemma WithoutAt(q: seq<nat>, k: nat, i: nat)
    requires k < |q| && i < |q| - 1
    ensures Without(q, k)[i] == q[if i < k then i else i + 1]
  {
  }

  lemma WithoutMembers(q: seq<nat>, k: nat, p: nat)
    requires Distinct(q) && k < |q|
    ensures Distinct(Without(q, k))
    ensures p in Without(q, k) <==> p in q && p != q[k]
  {
    if p in q && p != q[k] {
      var i :| 0 <= i < |q| && q[i] == p;
      WithoutAt(q, k, if i < k then i else i - 1);
    }
  }

  // Without p, the others in the same order.
  function Minus(q: seq<nat>, p: nat): seq<nat> {
    if q == [] then [] else if q[0] == p then q[1..] else [q[0]] + Minus(q[1..], p)
  }

  lemma {:induction false} MinusAt(q: seq<nat>, k: nat)
    requires Distinct(q) && k < |q|
    ensures Minus(q, q[k]) == Without(q, k)
  {
    if k > 0 {
      MinusAt(q[1..], k - 1);
      assert Without(q, k) == [q[0]] + Without(q[1..], k - 1);
    }
  }

  lemma {:induction false} MinusMembers(q: seq<nat>, p: nat, x: nat)
    requires Distinct(q) && p in q
    ensures x in Minus(q, p) <==> x in q && x != p
  {
    if q[0] == p {
      assert x in q[1..] <==> x in q && x != p;
    } else {
      MinusMembers(q[1..], p, x);
    }
  }

  // With p put in at k.
  function With(q: seq<nat>, k: nat, p: nat): seq<nat>
    requires k <= |q|
  {
    q[..k] + [p] + q[k..]
  }

  lemma WithMembers(q: seq<nat>, k: nat, p: nat, x: nat)
    requires Distinct(q) && k <= |q| && p !in q
    ensures Distinct(With(q, k, p))
    ensures x in With(q, k, p) <==> x in q || x == p
  {
    var q' := With(q, k, p);
    if x in q {
      var i :| 0 <= i < |q| && q[i] == x;
      assert q'[if i < k then i else i + 1] == x;
    }
    assert q'[k] == p;
  }

  lemma WithoutChained(s: seq<Pcb>, q: seq<nat>, k: nat, s': seq<Pcb>)
    requires Chained(s, q) && k < |q| && |s'| == |s|
    requires forall i: nat :: i < |q| && i + 1 != k && i != k ==> NextKept(s, s', q, i)
    requires k > 0 ==> q[k - 1] < |s| && s'[q[k - 1]].next == Link(q, k + 1)
    ensures Chained(s', Without(q, k))
  {
    var q' := Without(q, k);
    WithoutMembers(q, k, 0);
    forall i: nat | i < |q'| ensures LinkAt(s', q', i) {
      var i' := if i < k then i else i + 1;
      WithoutAt(q, k, i);
      assert LinkAt(s, q, i');
      if i + 1 < |q'| { WithoutAt(q, k, i + 1); }
      if i + 1 != k { assert NextKept(s, s', q, i'); }
    }
  }

  ghost predicate NextKept(s: seq<Pcb>, s': seq<Pcb>, q: seq<nat>, i: nat)
    requires i < |q|
  {
    q[i] < |s| && q[i] < |s'| && s'[q[i]].next == s[q[i]].next
  }

  // Changing the links of two PCBs keeps those of the others.
  lemma NextsKept(s: seq<Pcb>, s': seq<Pcb>, q: seq<nat>, a: int, b: int)
    requires Chained(s, q) && |s'| == |s|
    requires forall x: nat :: x < |s| && x != a && x != b ==> s'[x].next == s[x].next
    ensures forall i: nat :: i < |q| && q[i] != a && q[i] != b ==> NextKept(s, s', q, i)
  {
    forall i: nat | i < |q| && q[i] != a && q[i] != b ensures NextKept(s, s', q, i) {
      assert LinkAt(s, q, i);
    }
  }

  lemma WithChained(s: seq<Pcb>, q: seq<nat>, k: nat, p: nat, s': seq<Pcb>)
    requires Chained(s, q) && k <= |q| && p < |s| && p !in q && |s'| == |s|
    requires forall i: nat :: i < |q| && i + 1 != k ==> NextKept(s, s', q, i)
    requires k > 0 ==> q[k - 1] < |s| && s'[q[k - 1]].next == p
    requires s'[p].next == Link(q, k)
    ensures Chained(s', With(q, k, p))
  {
    var q' := With(q, k, p);
    WithMembers(q, k, p, p);
    forall i: nat | i < |q'| ensures LinkAt(s', q', i) {
      if i != k {
        var i' := if i < k then i else i - 1;
        assert q'[i] == q[i'];
        assert LinkAt(s, q, i');
        if i + 1 != k { assert NextKept(s, s', q, i'); }
      }
    }
  }

  // ----------------------------------------------------------- pcb_queue_t

  class PcbQueue {
    var head: int
    var tail: int
    var size: int
    ghost var contents: seq<nat>

    ghost predicate Valid(s: seq<Pcb>)
      reads this
    {
      Chained(s, contents) && Ends()
    }

    // Head, tail and size are those of the chain.
    ghost predicate Ends()
      reads this
    {
      && head == Link(contents, 0)
      && tail == (if contents == [] then NIL else contents[|contents| - 1])
      && size == |contents|
    }

    // init_pcb_queue
    constructor ()
      ensures contents == [] && Ends()
    {
      head, tail, size, contents := NIL, NIL, 0, [];
    }

    // pcb_peek
    function Peek(): int
      reads this
    {
      head
    }

    // pcb_poll
    method Poll(pcbs: array<Pcb>) returns (node: int)
      requires Valid(pcbs[..])
      modifies this, pcbs
      ensures Valid(pcbs[..]) && node == Link(old(contents), 0)
      ensures contents == if node == NIL then old(contents) else old(contents)[1..]
      ensures node != NIL ==> 0 <= node < pcbs.Length && pcbs[node].next == NIL
      ensures Relinked(old(pcbs[..]), pcbs[..], if node == NIL then {} else {node as nat})
    {
      if head == NIL { return NIL; }
      ghost var s, q := pcbs[..], contents;
      assert LinkAt(s, q, 0);
      size := size - 1;
      node := head;
      head := pcbs[head].next;
      if head == NIL {
        tail := NIL;
      }
      pcbs[node] := pcbs[node].(next := NIL);
      NextsKept(s, pcbs[..], q, node, node);
      WithoutChained(s, q, 0, pcbs[..]);
      assert Without(q, 0) == q[1..];
      contents := q[1..];
    }

    // pcb_offer
    method Offer(pcbs: array<Pcb>, entry: nat)
      requires Valid(pcbs[..]) && entry < pcbs.Length && entry !in contents
      modifies this, pcbs
      ensures Valid(pcbs[..]) && contents == old(contents) + [entry]
      ensures Relinked(old(pcbs[..]), pcbs[..], Members(old(contents)) + {entry})
    {
      ghost var s, q := pcbs[..], contents;
      contents := q + [entry];
      assert With(q, |q|, entry) == contents;
      size := size + 1;
      if head == NIL {
        head := entry;
        tail := entry;
        pcbs[entry] := pcbs[entry].(next := NIL);
        NextsKept(s, pcbs[..], q, entry, entry);
        WithChained(s, q, |q|, entry, pcbs[..]);
        return;
      }
      assert LinkAt(s, q, |q| - 1);
      ghost var last := tail;
      pcbs[tail] := pcbs[tail].(next := entry);
      tail := pcbs[tail].next;
      pcbs[entry] := pcbs[entry].(next := NIL);
      NextsKept(s, pcbs[..], q, last, entry);
      WithChained(s, q, |q|, entry, pcbs[..]);
    }

    // pcb_remove
    method Remove(pcbs: array<Pcb>, entry: nat) returns (found: bool)
      requires Valid(pcbs[..]) && entry < pcbs.Length
      modifies this, pcbs
      ensures Valid(pcbs[..])
      ensures found <==> entry in old(contents)
      ensures found ==> contents == Minus(old(contents), entry) && pcbs[entry].next == NIL
      ensures !found ==> contents == old(contents) && pcbs[..] == old(pcbs[..])
      ensures Relinked(old(pcbs[..]), pcbs[..], Members(old(contents)))
    {
      var prev, curr := NIL, head;
      ghost var k := 0;
      while curr != NIL && curr != entry
        invariant k <= |contents| && curr == Link(contents, k)
        invariant prev == if k == 0 then NIL else contents[k - 1]
        invariant forall i :: 0 <= i < k ==> contents[i] != entry
        decreases |contents| - k
      {
        assert LinkAt(pcbs[..], contents, k);
        prev := curr;
        curr := pcbs[curr].next;
        k := k + 1;
      }
      if curr == NIL { return false; }
      if prev == NIL {
        var node := Poll(pcbs);
        return true;
      }
      MinusAt(contents, k);
      Unlink(pcbs, prev, curr, k);
      found := true;
    }

    // Lines 98-104, for element k and the one before it.
    method Unlink(pcbs: array<Pcb>, prev: nat, curr: nat, ghost k: nat)
      requires Valid(pcbs[..]) && 0 < k < |contents| && prev == contents[k - 1] && curr == contents[k]
      modifies this, pcbs
      ensures Valid(pcbs[..]) && contents == Without(old(contents), k) && curr < pcbs.Length && pcbs[curr].next == NIL
      ensures Relinked(old(pcbs[..]), pcbs[..], Members(old(contents)))
    {
      ghost var s, q := pcbs[..], contents;
      assert LinkAt(s, q, k - 1) && LinkAt(s, q, k);
      if pcbs[curr].next == NIL {
        tail := prev;
      }
      pcbs[prev] := pcbs[prev].(next := pcbs[curr].next);
      pcbs[curr] := pcbs[curr].(next := NIL);
      size := size - 1;
      NextsKept(s, pcbs[..], q, prev, curr);
      WithoutChained(s, q, k, pcbs[..]);
      contents := Without(q, k);
    }
  }
}
