// qsort of lib/libxc/qsort.c: quicksort in place, with the elements equal to the
// pivot kept in a block [lp, hp] that moves about between the smaller and the
// greater ones. Places count elements (es bytes each).
module Qsort {
  import opened Bits

  predicate Flips<T>(cmp: (T, T) -> int, x: T, y: T) {
    cmp(x, y) < 0 <==> cmp(y, x) > 0
  }

  predicate Chains<T>(cmp: (T, T) -> int, x: T, y: T, z: T) {
    cmp(x, y) <= 0 && cmp(y, z) <= 0 ==> cmp(x, z) <= 0
  }

  // What the comparison must be: a total order of classes of equal values.
  ghost predicate TotalPreorder<T(!new)>(cmp: (T, T) -> int) {
    && (forall x, y :: Flips(cmp, x, y))
    && (forall x, y, z :: Chains(cmp, x, y, z))
  }

  ghost predicate Sorted<T>(s: seq<T>, cmp: (T, T) -> int) {
    forall x, y :: 0 <= x < y < |s| ==> cmp(s[x], s[y]) <= 0
  }

  // The values from lo to hi.
  ghost function Values<T>(s: seq<T>, lo: nat, hi: nat): multiset<T>
    requires lo <= hi <= |s|
  {
    if lo == hi then multiset{} else Values(s, lo, hi - 1) + multiset{s[hi - 1]}
  }

  lemma {:induction false} ValuesAre<T>(s: seq<T>, lo: nat, hi: nat)
    requires lo <= hi <= |s|
    ensures Values(s, lo, hi) == multiset(s[lo..hi])
  {
    if lo < hi {
      ValuesAre(s, lo, hi - 1);
      assert s[lo..hi] == s[lo..hi - 1] + [s[hi - 1]];
    }
  }

  // t has the values of s from lo to hi in some order, and is s elsewhere.
  ghost predicate Permutes<T>(s: seq<T>, t: seq<T>, lo: nat, hi: nat) {
    && lo <= hi <= |s| == |t|
    && Values(s, lo, hi) == Values(t, lo, hi)
    && (forall x :: 0 <= x < |s| && !(lo <= x < hi) ==> s[x] == t[x])
  }

  // As many calls as this may be nested on n elements: depth is no more than the
  // logarithm of n to base 2, rounded down, and one.
  predicate Nested(depth: nat, n: nat) {
    depth >= 1 && Pow2(depth - 1) <= if n == 0 then 1 else n
  }

  lemma NestedMore(depth: nat, m: nat, n: nat)
    requires Nested(depth, m) && 2 * m <= n && n >= 2
    ensures Nested(depth + 1, n)
  {
  }

  // ------------------------------------------------------------- exchanges

  function Swapped<T>(s: seq<T>, x: nat, y: nat): (t: seq<T>)
    requires x < |s| && y < |s|
    ensures |t| == |s|
  {
    s[x := s[y]][y := s[x]]
  }

  // What was at z goes to x, y to z, x to y.
  function Rotated<T>(s: seq<T>, x: nat, y: nat, z: nat): (t: seq<T>)
    requires x < |s| && y < |s| && z < |s| && x != y && x != z
    ensures |t| == |s|
  {
    s[x := s[z]][z := s[y]][y := s[x]]
  }

  lemma SwapPermutes<T>(s: seq<T>, x: nat, y: nat, lo: nat, hi: nat)
    requires lo <= x < hi <= |s| && lo <= y < hi
    ensures Permutes(s, Swapped(s, x, y), lo, hi)
  {
    ValuesAre(s, lo, hi);
    ValuesAre(Swapped(s, x, y), lo, hi);
    var r := s[lo..hi];
    assert Swapped(s, x, y)[lo..hi] == r[x - lo := r[y - lo]][y - lo := r[x - lo]];
  }

  lemma RotatePermutes<T>(s: seq<T>, x: nat, y: nat, z: nat, lo: nat, hi: nat)
    requires lo <= x < hi <= |s| && lo <= y < hi && lo <= z < hi && x != y && x != z
    ensures Permutes(s, Rotated(s, x, y, z), lo, hi)
  {
    var t := Swapped(s, x, z);
    SwapPermutes(s, x, z, lo, hi);
    SwapPermutes(t, z, y, lo, hi);
    assert Rotated(s, x, y, z) == Swapped(t, z, y);
  }

  lemma PermutesThrough<T>(s: seq<T>, t: seq<T>, u: seq<T>, lo: nat, hi: nat)
    requires Permutes(s, t, lo, hi) && Permutes(t, u, lo, hi)
    ensures Permutes(s, u, lo, hi)
  {
  }

  // A permutation of a part is one of the whole.
  lemma PermutesWiden<T>(s: seq<T>, t: seq<T>, lo: nat, hi: nat, lo': nat, hi': nat)
    requires Permutes(s, t, lo, hi) && lo' <= lo && hi <= hi' <= |s|
    ensures Permutes(s, t, lo', hi')
  {
    ValuesSplit(s, lo', lo, hi');
    ValuesSplit(t, lo', lo, hi');
    ValuesSplit(s, lo, hi, hi');
    ValuesSplit(t, lo, hi, hi');
    ValuesSame(s, t, lo', lo);
    ValuesSame(s, t, hi, hi');
  }

  lemma {:induction false} ValuesSplit<T>(s: seq<T>, lo: nat, mid: nat, hi: nat)
    requires lo <= mid <= hi <= |s|
    ensures Values(s, lo, hi) == Values(s, lo, mid) + Values(s, mid, hi)
  {
    if mid < hi { ValuesSplit(s, lo, mid, hi - 1); }
  }

  lemma {:induction false} ValuesSame<T>(s: seq<T>, t: seq<T>, lo: nat, hi: nat)
    requires lo <= hi <= |s| == |t| && forall x :: lo <= x < hi ==> s[x] == t[x]
    ensures Values(s, lo, hi) == Values(t, lo, hi)
  {
    if lo < hi { ValuesSame(s, t, lo, hi - 1); }
  }

  lemma PermutedFrom<T>(s: seq<T>, t: seq<T>, lo: nat, hi: nat, x: nat) returns (y: nat)
    requires Permutes(s, t, lo, hi) && lo <= x < hi
    ensures lo <= y < hi && s[y] == t[x]
  {
    ValuesAre(s, lo, hi);
    ValuesAre(t, lo, hi);
    assert t[lo..hi][x - lo] in multiset(t[lo..hi]);
    assert t[x] in s[lo..hi];
    var k :| 0 <= k < |s[lo..hi]| && s[lo..hi][k] == t[x];
    y := lo + k;
  }

  // ------------------------------------------------------------- partition

  // From lo to hi: smaller values up to i, values equal to the pivot p in [lp, hp],
  // greater ones after j. What is between is not looked at yet.
  ghost predicate Parted<T>(s: seq<T>, cmp: (T, T) -> int, p: T, lo: nat, hi: nat, i: nat, lp: nat, hp: nat, j: nat) {
    && lo <= i <= lp <= hp <= j < hi <= |s|
    && (forall x :: lo <= x < i ==> cmp(s[x], p) < 0)
    && (forall x :: lp <= x <= hp ==> cmp(s[x], p) == 0)
    && (forall x :: j < x < hi ==> cmp(s[x], p) > 0)
  }

  // Line 40
  lemma EqualLeft<T>(s: seq<T>, cmp: (T, T) -> int, p: T, lo: nat, hi: nat, i: nat, lp: nat, hp: nat, j: nat)
    requires Parted(s, cmp, p, lo, hi, i, lp, hp, j) && i < lp && cmp(s[i], p) == 0
    ensures Parted(Swapped(s, i, lp - 1), cmp, p, lo, hi, i, lp - 1, hp, j)
  {
  }

  // Line 52
  lemma EqualRight<T>(s: seq<T>, cmp: (T, T) -> int, p: T, lo: nat, hi: nat, i: nat, lp: nat, hp: nat, j: nat)
    requires Parted(s, cmp, p, lo, hi, i, lp, hp, j) && j > hp && cmp(s[j], p) == 0
    ensures Parted(Swapped(s, hp + 1, j), cmp, p, lo, hi, i, lp, hp + 1, j)
  {
  }

  // Lines 57-58: the block moves one place up, past a smaller value.
  lemma BlockUp<T>(s: seq<T>, cmp: (T, T) -> int, p: T, lo: nat, hi: nat, lp: nat, hp: nat, j: nat)
    requires Parted(s, cmp, p, lo, hi, lp, lp, hp, j) && j > hp && cmp(s[j], p) < 0
    ensures Parted(Rotated(s, lp, hp + 1, j), cmp, p, lo, hi, lp + 1, lp + 1, hp + 1, j)
  {
  }

  // Lines 61-63
  lemma Exchange<T>(s: seq<T>, cmp: (T, T) -> int, p: T, lo: nat, hi: nat, i: nat, lp: nat, hp: nat, j: nat)
    requires Parted(s, cmp, p, lo, hi, i, lp, hp, j) && i < lp && j > hp && cmp(s[i], p) > 0 && cmp(s[j], p) < 0
    ensures Parted(Swapped(s, i, j), cmp, p, lo, hi, i + 1, lp, hp, j - 1)
  {
  }

  // Lines 83-84: the block moves one place down, past a greater value.
  lemma BlockDown<T>(s: seq<T>, cmp: (T, T) -> int, p: T, lo: nat, hi: nat, i: nat, lp: nat, hp: nat)
    requires Parted(s, cmp, p, lo, hi, i, lp, hp, hp) && i < lp && cmp(s[i], p) > 0
    ensures Parted(Rotated(s, hp, lp - 1, i), cmp, p, lo, hi, i, lp - 1, hp - 1, hp - 1)
  {
  }

  // qsexc
  method Qsexc<T>(a: array<T>, i: nat, j: nat)
    requires i < a.Length && j < a.Length
    modifies a
    ensures a[..] == Swapped(old(a[..]), i, j)
  {
    var c := a[i];
    a[i] := a[j];
    a[j] := c;
  }

  // qstexc
  method Qstexc<T>(a: array<T>, i: nat, j: nat, k: nat)
    requires i < a.Length && j < a.Length && k < a.Length && i != j && i != k
    modifies a
    ensures a[..] == Rotated(old(a[..]), i, j, k)
  {
    var c := a[i];
    a[i] := a[k];
    a[k] := a[j];
    a[j] := c;
  }

  // Lines 55-65, for a value above that is smaller: it changes places with the
  // block, or with a greater value below.
  method Smaller<T(!new)>(a: array<T>, cmp: (T, T) -> int, ghost p: T, ghost lo: nat, ghost hi: nat, i0: nat,
                          lp0: nat, hp0: nat, j0: nat)
    returns (exchanged: bool, i: nat, lp: nat, hp: nat, j: nat)
    requires hi <= a.Length && Parted(a[..], cmp, p, lo, hi, i0, lp0, hp0, j0) && j0 > hp0
    requires cmp(a[j0], p) < 0 && (i0 < lp0 ==> cmp(a[i0], p) > 0)
    modifies a
    ensures Permutes(old(a[..]), a[..], lo, hi) && Parted(a[..], cmp, p, lo, hi, i, lp, hp, j)
    ensures exchanged == (i0 < lp0) && lp - i == (if exchanged then lp0 - i0 - 1 else 0)
    ensures j - hp == j0 - hp0 - 1
  {
    i, lp, hp, j := i0, lp0, hp0, j0;
    if i == lp {
      BlockUp(a[..], cmp, p, lo, hi, lp, hp, j);
      RotatePermutes(a[..], i, hp + 1, j, lo, hi);
      hp := hp + 1;
      Qstexc(a, i, hp, j);
      lp := lp + 1;
      i := lp;
      exchanged := false;
    } else {
      Exchange(a[..], cmp, p, lo, hi, i, lp, hp, j);
      SwapPermutes(a[..], i, j, lo, hi);
      Qsexc(a, i, j);
      j := j - 1;
      i := i + 1;
      exchanged := true;
    }
  }

  // Lines 51-66: the value at j.
  method AboveOne<T(!new)>(a: array<T>, cmp: (T, T) -> int, ghost p: T, ghost lo: nat, ghost hi: nat, i0: nat,
                           lp0: nat, hp0: nat, j0: nat)
    returns (exchanged: bool, i: nat, lp: nat, hp: nat, j: nat)
    requires TotalPreorder(cmp) && hi <= a.Length && Parted(a[..], cmp, p, lo, hi, i0, lp0, hp0, j0) && j0 > hp0
    requires i0 < lp0 ==> cmp(a[i0], p) > 0
    modifies a
    ensures Permutes(old(a[..]), a[..], lo, hi) && Parted(a[..], cmp, p, lo, hi, i, lp, hp, j)
    ensures exchanged ==> lp - i < lp0 - i0
    ensures !exchanged ==> lp - i == lp0 - i0 && (i < lp ==> cmp(a[i], p) > 0)
    ensures j - hp == j0 - hp0 - 1
  {
    exchanged, i, lp, hp, j := false, i0, lp0, hp0, j0;
    var c := cmp(a[hp], a[j]);
    Against(cmp, p, a[hp], a[j]);
    if c == 0 {
      EqualRight(a[..], cmp, p, lo, hi, i, lp, hp, j);
      SwapPermutes(a[..], hp + 1, j, lo, hi);
      hp := hp + 1;
      Qsexc(a, hp, j);
    } else if c > 0 {
      exchanged, i, lp, hp, j := Smaller(a, cmp, p, lo, hi, i, lp, hp, j);
    } else {
      j := j - 1;
    }
  }

  // Lines 49-68: look at the values above the block, from the greatest. Stops when
  // there are none left, or after an exchange with the value at i.
  method Above<T(!new)>(a: array<T>, cmp: (T, T) -> int, ghost p: T, ghost lo: nat, ghost hi: nat, i0: nat, lp0: nat,
                        hp0: nat, j0: nat)
    returns (exchanged: bool, i: nat, lp: nat, hp: nat, j: nat)
    requires TotalPreorder(cmp) && hi <= a.Length && Parted(a[..], cmp, p, lo, hi, i0, lp0, hp0, j0)
    requires i0 < lp0 ==> cmp(a[i0], p) > 0
    modifies a
    ensures Permutes(old(a[..]), a[..], lo, hi) && Parted(a[..], cmp, p, lo, hi, i, lp, hp, j)
    ensures !exchanged ==> j == hp && lp - i == lp0 - i0 && (i < lp ==> cmp(a[i], p) > 0)
    ensures exchanged ==> (lp - i) + (j - hp) < (lp0 - i0) + (j0 - hp0)
  {
    exchanged, i, lp, hp, j := false, i0, lp0, hp0, j0;
    while j > hp && !exchanged
      invariant Permutes(old(a[..]), a[..], lo, hi) && Parted(a[..], cmp, p, lo, hi, i, lp, hp, j)
      invariant !exchanged ==> lp - i == lp0 - i0 && j - hp <= j0 - hp0 && (i < lp ==> cmp(a[i], p) > 0)
      invariant exchanged ==> (lp - i) + (j - hp) < (lp0 - i0) + (j0 - hp0)
      decreases j - hp
    {
      exchanged, i, lp, hp, j := AboveOne(a, cmp, p, lo, hi, i, lp, hp, j);
    }
  }

  // A comparison with a value of the block is one with the pivot.
  lemma Against<T(!new)>(cmp: (T, T) -> int, p: T, e: T, x: T)
    requires TotalPreorder(cmp) && cmp(e, p) == 0
    ensures cmp(e, x) == 0 <==> cmp(x, p) == 0
    ensures cmp(e, x) > 0 <==> cmp(x, p) < 0
    ensures cmp(x, e) == 0 <==> cmp(x, p) == 0
    ensures cmp(x, e) < 0 <==> cmp(x, p) < 0
  {
    assert Flips(cmp, e, p) && Flips(cmp, p, e) && Flips(cmp, e, x) && Flips(cmp, x, e);
    assert Flips(cmp, x, p) && Flips(cmp, p, x);
    assert Chains(cmp, x, e, p) && Chains(cmp, x, p, e) && Chains(cmp, e, p, x) && Chains(cmp, p, e, x);
  }

  // Lines 38-47: the value at i. Goes on with it only if it is greater, or none.
  method Below<T(!new)>(a: array<T>, cmp: (T, T) -> int, ghost p: T, ghost lo: nat, ghost hi: nat, i0: nat, lp0: nat,
                        ghost hp: nat, ghost j: nat)
    returns (done: bool, i: nat, lp: nat)
    requires TotalPreorder(cmp) && hi <= a.Length && Parted(a[..], cmp, p, lo, hi, i0, lp0, hp, j)
    modifies a
    ensures Permutes(old(a[..]), a[..], lo, hi) && Parted(a[..], cmp, p, lo, hi, i, lp, hp, j)
    ensures done ==> lp - i < lp0 - i0
    ensures !done ==> i == i0 && lp == lp0 && (i < lp ==> cmp(a[i], p) > 0)
  {
    hide TotalPreorder, Values, Rotated;
    i, lp, done := i0, lp0, false;
    if i < lp {
      var c := cmp(a[i], a[lp]);
      Against(cmp, p, a[lp], a[i]);
      if c == 0 {
        EqualLeft(a[..], cmp, p, lo, hi, i, lp, hp, j);
        SwapPermutes(a[..], i, lp - 1, lo, hi);
        lp := lp - 1;
        Qsexc(a, i, lp);
        return true, i, lp;
      }
      if c < 0 {
        i := i + 1;
        return true, i, lp;
      }
    }
  }

  // Lines 83-84
  method MoveDown<T(!new)>(a: array<T>, cmp: (T, T) -> int, ghost p: T, ghost lo: nat, ghost hi: nat, i: nat,
                           lp0: nat, hp0: nat)
    returns (lp: nat, hp: nat)
    requires hi <= a.Length && Parted(a[..], cmp, p, lo, hi, i, lp0, hp0, hp0) && i < lp0 && cmp(a[i], p) > 0
    modifies a
    ensures Permutes(old(a[..]), a[..], lo, hi) && Parted(a[..], cmp, p, lo, hi, i, lp, hp, hp)
    ensures lp == lp0 - 1
  {
    BlockDown(a[..], cmp, p, lo, hi, i, lp0, hp0);
    RotatePermutes(a[..], hp0, lp0 - 1, i, lo, hi);
    lp := lp0 - 1;
    Qstexc(a, hp0, lp, i);
    hp := hp0 - 1;
  }

  // Lines 38-85: one round of the partition, of which nothing is left to do in the end.
  method PartMore<T(!new)>(a: array<T>, cmp: (T, T) -> int, ghost p: T, ghost lo: nat, ghost hi: nat, i0: nat,
                           lp0: nat, hp0: nat, j0: nat)
    returns (ended: bool, i: nat, lp: nat, hp: nat, j: nat)
    requires TotalPreorder(cmp) && hi <= a.Length && Parted(a[..], cmp, p, lo, hi, i0, lp0, hp0, j0)
    modifies a
    ensures Permutes(old(a[..]), a[..], lo, hi) && Parted(a[..], cmp, p, lo, hi, i, lp, hp, j)
    ensures if ended then i == lp && j == hp else (lp - i) + (j - hp) < (lp0 - i0) + (j0 - hp0)
  {
    hide TotalPreorder, Values;
    ghost var s := a[..];
    var done, exchanged;
    ended, i, lp, hp, j := false, i0, lp0, hp0, j0;
    done, i, lp := Below(a, cmp, p, lo, hi, i, lp, hp, j);
    if done { return; }
    ghost var t := a[..];
    exchanged, i, lp, hp, j := Above(a, cmp, p, lo, hi, i, lp, hp, j);
    PermutesThrough(s, t, a[..], lo, hi);
    if exchanged { return; }
    if i == lp { return true, i, lp, hp, j; }
    ghost var u := a[..];
    lp, hp := MoveDown(a, cmp, p, lo, hi, i, lp, hp);
    PermutesThrough(s, u, a[..], lo, hi);
    j := hp;
  }

  // Lines 33-70 and 83-85: part the range by the value in its middle.
  method Partition<T(!new)>(a: array<T>, cmp: (T, T) -> int, lo: nat, hi: nat) returns (lp: nat, hp: nat, ghost p: T)
    requires TotalPreorder(cmp) && lo + 1 < hi <= a.Length
    modifies a
    ensures Permutes(old(a[..]), a[..], lo, hi) && Parted(a[..], cmp, p, lo, hi, lp, lp, hp, hp)
  {
    var n := (hi - lo) / 2;
    hp, lp := lo + n, lo + n;
    var i: nat, j: nat := lo, hi - 1;
    p := a[lp];
    assert Flips(cmp, p, p);
    var ended := false;
    while !ended
      invariant Permutes(old(a[..]), a[..], lo, hi) && Parted(a[..], cmp, p, lo, hi, i, lp, hp, j)
      invariant ended ==> i == lp && j == hp
      decreases !ended, (lp - i) + (j - hp)
    {
      ghost var s := a[..];
      ended, i, lp, hp, j := PartMore(a, cmp, p, lo, hi, i, lp, hp, j);
      PermutesThrough(old(a[..]), s, a[..], lo, hi);
    }
  }

  // ----------------------------------------------------------------- qs1

  // From lo0 to hi0, all is in order but what is between lo and hi.
  ghost predicate Around<T>(s: seq<T>, cmp: (T, T) -> int, lo0: nat, hi0: nat, lo: nat, hi: nat) {
    && lo0 <= lo <= hi <= hi0 <= |s|
    && (forall x, y :: lo0 <= x < y < hi0 && !(lo <= x && y < hi) ==> cmp(s[x], s[y]) <= 0)
  }

  // Reordering what is between changes nothing.
  lemma AroundPermuted<T(!new)>(s: seq<T>, t: seq<T>, cmp: (T, T) -> int, lo0: nat, hi0: nat, lo: nat, hi: nat)
    requires Around(s, cmp, lo0, hi0, lo, hi) && Permutes(s, t, lo, hi)
    ensures Around(t, cmp, lo0, hi0, lo, hi)
  {
    forall x, y | lo0 <= x < y < hi0 && !(lo <= x && y < hi)
      ensures cmp(t[x], t[y]) <= 0
    {
      var x', y' := x, y;
      if lo <= x < hi { x' := PermutedFrom(s, t, lo, hi, x); }
      if lo <= y < hi { y' := PermutedFrom(s, t, lo, hi, y); }
      assert cmp(s[x'], s[y']) <= 0;
    }
  }

  // A parted range with the part above in order leaves the part below.
  lemma AroundBelow<T(!new)>(s: seq<T>, cmp: (T, T) -> int, p: T, lo0: nat, hi0: nat, lo: nat, hi: nat, lp: nat,
                             hp: nat)
    requires TotalPreorder(cmp) && Around(s, cmp, lo0, hi0, lo, hi) && Parted(s, cmp, p, lo, hi, lp, lp, hp, hp)
    requires Sorted(s[hp + 1..hi], cmp)
    ensures Around(s, cmp, lo0, hi0, lo, lp)
  {
    forall x, y | lo0 <= x < y < hi0 && !(lo <= x && y < lp)
      ensures cmp(s[x], s[y]) <= 0
    {
      if lo <= x && y < hi {
        if x > hp {
          assert s[hp + 1..hi][x - hp - 1] == s[x] && s[hp + 1..hi][y - hp - 1] == s[y];
        } else {
          Between(cmp, p, s[x], s[y]);
        }
      }
    }
  }

  lemma AroundAbove<T(!new)>(s: seq<T>, cmp: (T, T) -> int, p: T, lo0: nat, hi0: nat, lo: nat, hi: nat, lp: nat,
                             hp: nat)
    requires TotalPreorder(cmp) && Around(s, cmp, lo0, hi0, lo, hi) && Parted(s, cmp, p, lo, hi, lp, lp, hp, hp)
    requires Sorted(s[lo..lp], cmp)
    ensures Around(s, cmp, lo0, hi0, hp + 1, hi)
  {
    forall x, y | lo0 <= x < y < hi0 && !(hp + 1 <= x && y < hi)
      ensures cmp(s[x], s[y]) <= 0
    {
      if lo <= x && y < hi {
        if y < lp {
          assert s[lo..lp][x - lo] == s[x] && s[lo..lp][y - lo] == s[y];
        } else {
          Between(cmp, p, s[x], s[y]);
        }
      }
    }
  }

  lemma Between<T(!new)>(cmp: (T, T) -> int, p: T, x: T, y: T)
    requires TotalPreorder(cmp) && cmp(x, p) <= 0 && cmp(y, p) >= 0
    ensures cmp(x, y) <= 0
  {
    assert Flips(cmp, p, y) && Flips(cmp, y, p) && Chains(cmp, x, p, y);
  }

  // Sorting a part on one side of the block leaves the range parted.
  lemma PartedAfter<T(!new)>(s: seq<T>, t: seq<T>, cmp: (T, T) -> int, p: T, lo: nat, hi: nat, lp: nat, hp: nat,
                             from: nat, to: nat)
    requires Parted(s, cmp, p, lo, hi, lp, lp, hp, hp) && Permutes(s, t, from, to)
    requires (from == lo && to == lp) || (from == hp + 1 && to == hi)
    ensures Parted(t, cmp, p, lo, hi, lp, lp, hp, hp)
  {
    forall x | from <= x < to
      ensures if from == lo && to == lp then cmp(t[x], p) < 0 else cmp(t[x], p) > 0
    {
      var y := PermutedFrom(s, t, from, to, x);
    }
  }

  // After the part above the block was sorted, the part below is left.
  lemma SortedAbove<T(!new)>(s: seq<T>, t: seq<T>, cmp: (T, T) -> int, p: T, lo0: nat, hi0: nat, lo: nat, hi: nat,
                             lp: nat, hp: nat)
    requires TotalPreorder(cmp) && Around(s, cmp, lo0, hi0, lo, hi) && Parted(s, cmp, p, lo, hi, lp, lp, hp, hp)
    requires Permutes(s, t, hp + 1, hi) && Sorted(t[hp + 1..hi], cmp)
    ensures Permutes(s, t, lo, hi) && Around(t, cmp, lo0, hi0, lo, lp)
  {
    PermutesWiden(s, t, hp + 1, hi, lo, hi);
    AroundPermuted(s, t, cmp, lo0, hi0, lo, hi);
    PartedAfter(s, t, cmp, p, lo, hi, lp, hp, hp + 1, hi);
    AroundBelow(t, cmp, p, lo0, hi0, lo, hi, lp, hp);
  }

  lemma SortedBelow<T(!new)>(s: seq<T>, t: seq<T>, cmp: (T, T) -> int, p: T, lo0: nat, hi0: nat, lo: nat, hi: nat,
                             lp: nat, hp: nat)
    requires TotalPreorder(cmp) && Around(s, cmp, lo0, hi0, lo, hi) && Parted(s, cmp, p, lo, hi, lp, lp, hp, hp)
    requires Permutes(s, t, lo, lp) && Sorted(t[lo..lp], cmp)
    ensures Permutes(s, t, lo, hi) && Around(t, cmp, lo0, hi0, hp + 1, hi)
  {
    PermutesWiden(s, t, lo, lp, lo, hi);
    AroundPermuted(s, t, cmp, lo0, hi0, lo, hi);
    PartedAfter(s, t, cmp, p, lo, hi, lp, hp, lo, lp);
    AroundAbove(t, cmp, p, lo0, hi0, lo, hi, lp, hp);
  }

  // Lines 72-78: sort the smaller part by a call; the other is left.
  method Recurse<T(!new)>(a: array<T>, cmp: (T, T) -> int, ghost p: T, ghost lo0: nat, ghost hi0: nat,
                          lo: nat, hi: nat, lp: nat, hp: nat)
    returns (lo': nat, hi': nat, ghost depth: nat)
    requires TotalPreorder(cmp) && hi0 <= a.Length && Around(a[..], cmp, lo0, hi0, lo, hi)
    requires Parted(a[..], cmp, p, lo, hi, lp, lp, hp, hp)
    modifies a
    ensures Permutes(old(a[..]), a[..], lo, hi) && Around(a[..], cmp, lo0, hi0, lo', hi')
    ensures lo <= lo' <= hi' <= hi && hi' - lo' < hi - lo
    ensures hi - lo >= 2 ==> Nested(depth + 1, hi - lo)
    decreases hi - lo, 0
  {
    hide TotalPreorder, Values, Nested;
    ghost var s := a[..];
    if lp - lo >= hi - hp {
      depth := Qs1(a, hp + 1, hi, cmp);
      assert a[..][hp + 1..hi] == a[hp + 1..hi];
      SortedAbove(s, a[..], cmp, p, lo0, hi0, lo, hi, lp, hp);
      if hi - lo >= 2 { NestedMore(depth, hi - hp - 1, hi - lo); }
      lo', hi' := lo, lp;
    } else {
      depth := Qs1(a, lo, lp, cmp);
      assert a[..][lo..lp] == a[lo..lp];
      SortedBelow(s, a[..], cmp, p, lo0, hi0, lo, hi, lp, hp);
      if hi - lo >= 2 { NestedMore(depth, lp - lo, hi - lo); }
      lo', hi' := hp + 1, hi;
    }
  }

  // Lines 33-86: one round of the loop.
  method Round<T(!new)>(a: array<T>, cmp: (T, T) -> int, ghost lo0: nat, ghost hi0: nat, lo: nat, hi: nat)
    returns (lo': nat, hi': nat, ghost depth: nat)
    requires TotalPreorder(cmp) && hi0 <= a.Length && Around(a[..], cmp, lo0, hi0, lo, hi) && hi - lo > 1
    modifies a
    ensures Permutes(old(a[..]), a[..], lo0, hi0) && Around(a[..], cmp, lo0, hi0, lo', hi')
    ensures hi' - lo' < hi - lo && Nested(depth + 1, hi0 - lo0)
    decreases hi - lo, 1
  {
    ghost var s := a[..];
    ghost var p;
    var lp, hp;
    lp, hp, p := Partition(a, cmp, lo, hi);
    ghost var t := a[..];
    AroundPermuted(s, t, cmp, lo0, hi0, lo, hi);
    PermutesWiden(s, t, lo, hi, lo0, hi0);
    lo', hi', depth := Recurse(a, cmp, p, lo0, hi0, lo, hi, lp, hp);
    PermutesWiden(t, a[..], lo, hi, lo0, hi0);
    PermutesThrough(s, t, a[..], lo0, hi0);
  }

  // qs1: sort from lo0 to hi0. `depth` is how many calls of qs1 are open at a time.
  method Qs1<T(!new)>(a: array<T>, lo0: nat, hi0: nat, cmp: (T, T) -> int) returns (ghost depth: nat)
    requires TotalPreorder(cmp) && lo0 <= hi0 <= a.Length
    modifies a
    ensures Permutes(old(a[..]), a[..], lo0, hi0)
    ensures Sorted(a[lo0..hi0], cmp)
    ensures Nested(depth, hi0 - lo0)
    decreases hi0 - lo0, 2
  {
    var lo, hi := lo0, hi0;
    depth := 1;
    while hi - lo > 1
      invariant Permutes(old(a[..]), a[..], lo0, hi0)
      invariant Around(a[..], cmp, lo0, hi0, lo, hi)
      invariant Nested(depth, hi0 - lo0)
      decreases hi - lo
    {
      ghost var s := a[..];
      ghost var d;
      lo, hi, d := Round(a, cmp, lo0, hi0, lo, hi);
      PermutesThrough(old(a[..]), s, a[..], lo0, hi0);
      if d + 1 > depth { depth := d + 1; }
    }
  }

  // qsort, of the first n elements.
  method Sort<T(!new)>(a: array<T>, n: nat, cmp: (T, T) -> int) returns (ghost depth: nat)
    requires TotalPreorder(cmp) && n <= a.Length
    modifies a
    ensures multiset(a[..n]) == old(multiset(a[..n])) && Sorted(a[..n], cmp)
    ensures a[n..] == old(a[n..])
    ensures Nested(depth, n)
  {
    ghost var s := a[..];
    depth := Qs1(a, 0, n, cmp);
    ValuesAre(s, 0, n);
    ValuesAre(a[..], 0, n);
    assert s[0..n] == s[..n] && a[0..n] == a[..n] && a[..][0..n] == a[..n];
    assert a[n..] == a[..][n..] && s[n..] == a[..][n..];
  }
}
