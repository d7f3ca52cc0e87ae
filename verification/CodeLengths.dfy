// Huffman codes given by their lengths, as section 3.2.2 of RFC 1951 assigns
// them, and the counting sort that huft_build makes from a list of lengths.
module CodeLengths {
  import opened Bits
  import opened Canonical

  function Count(lens: seq<nat>, k: nat): (n: nat)
    ensures n <= |lens|
  {
    if lens == [] then 0
    else Count(lens[..|lens| - 1], k) + if lens[|lens| - 1] == k then 1 else 0
  }

  function Counts(lens: seq<nat>): (c: seq<nat>)
    ensures |c| == BMAX + 1
    ensures forall k :: 0 <= k <= BMAX ==> c[k] == Count(lens, k)
  {
    seq(BMAX + 1, (k: nat) => Count(lens, k))
  }

  predicate Lengths(lens: seq<nat>) {
    forall y :: 0 <= y < |lens| ==> lens[y] <= BMAX
  }

  // The code of symbol y: codes of one length are consecutive, in symbol order.
  function CodeOf(lens: seq<nat>, y: nat): nat
    requires Lengths(lens) && y < |lens|
  {
    First(Counts(lens), lens[y]) + Count(lens[..y], lens[y])
  }

  // The bits of s, first one lowest, start with the code of symbol y.
  predicate StartsWith(lens: seq<nat>, y: nat, s: nat)
    requires Lengths(lens)
  {
    y < |lens| && lens[y] > 0 && Rev(lens[y], s) == CodeOf(lens, y)
  }

  // The number of strings of BMAX bits.
  const FULL: nat := 65536

  // How many of those start with one of the codes, if no two codes collide.
  function Kraft(lens: seq<nat>): nat
    requires Lengths(lens)
  {
    if lens == [] then 0
    else
      var y := lens[|lens| - 1];
      Kraft(lens[..|lens| - 1]) + if y == 0 then 0 else Pow2(BMAX - y)
  }

  // The symbols of length k, in order.
  function SymbolsOf(lens: seq<nat>, k: nat): (ys: seq<nat>)
    ensures |ys| == Count(lens, k)
  {
    if lens == [] then []
    else SymbolsOf(lens[..|lens| - 1], k) + if lens[|lens| - 1] == k then [|lens| - 1] else []
  }

  // The symbols of lengths 1 to k - 1, in order of length.
  function SymbolsBelow(lens: seq<nat>, k: nat): (ys: seq<nat>)
    requires k <= BMAX + 1
    ensures |ys| == Off(Counts(lens), k)
  {
    if k <= 1 then [] else SymbolsBelow(lens, k - 1) + SymbolsOf(lens, k - 1)
  }

  // The used symbols in order of length, equal lengths in symbol order.
  function Sorted(lens: seq<nat>): (ys: seq<nat>) {
    SymbolsBelow(lens, BMAX + 1)
  }

  function Used(lens: seq<nat>): nat {
    |Sorted(lens)|
  }

  lemma SortedAt(lens: seq<nat>, k: nat, r: nat)
    requires 1 <= k <= BMAX && r < Count(lens, k)
    ensures Off(Counts(lens), k) + r < Used(lens)
    ensures Sorted(lens)[Off(Counts(lens), k) + r] == SymbolsOf(lens, k)[r]
  {
    BelowIndex(lens, k, r, BMAX + 1);
  }

  lemma UsedTotal(lens: seq<nat>)
    requires Lengths(lens)
    ensures Used(lens) + Count(lens, 0) == |lens|
  {
    CountTotal(lens, BMAX + 1);
  }

  // No symbols are longer than g.
  lemma UsedUpTo(lens: seq<nat>, g: nat)
    requires 1 <= g <= BMAX && forall n :: g < n <= BMAX ==> Counts(lens)[n] == 0
    ensures Used(lens) == Off(Counts(lens), g) + Count(lens, g)
  {
    OffPast(lens, g, BMAX + 1);
  }

  lemma {:induction false} OffPast(lens: seq<nat>, g: nat, k: nat)
    requires 1 <= g < k <= BMAX + 1 && forall n :: g < n <= BMAX ==> Counts(lens)[n] == 0
    ensures Off(Counts(lens), k) == Off(Counts(lens), g) + Count(lens, g)
    decreases k
  {
    if g < k - 1 { OffPast(lens, g, k - 1); }
  }

  lemma {:induction false} SymbolsAre(lens: seq<nat>, k: nat, r: nat)
    requires r < Count(lens, k)
    ensures var y := SymbolsOf(lens, k)[r]; y < |lens| && lens[y] == k && Count(lens[..y], k) == r
  {
    var init := lens[..|lens| - 1];
    if r < Count(init, k) {
      SymbolsAre(init, k, r);
      var y := SymbolsOf(init, k)[r];
      assert lens[..y] == init[..y];
    }
  }

  lemma {:induction false} SymbolFound(lens: seq<nat>, y: nat)
    requires y < |lens|
    ensures Count(lens[..y], lens[y]) < Count(lens, lens[y])
    ensures SymbolsOf(lens, lens[y])[Count(lens[..y], lens[y])] == y
  {
    var init := lens[..|lens| - 1];
    if y < |init| {
      SymbolFound(init, y);
      assert lens[..y] == init[..y];
    }
  }

  lemma {:induction false} BelowIndex(lens: seq<nat>, k: nat, r: nat, k2: nat)
    requires 1 <= k < k2 <= BMAX + 1 && r < Count(lens, k)
    ensures Off(Counts(lens), k) + r < Off(Counts(lens), k2)
    ensures SymbolsBelow(lens, k2)[Off(Counts(lens), k) + r] == SymbolsOf(lens, k)[r]
    decreases k2
  {
    var below := SymbolsBelow(lens, k2 - 1);
    assert SymbolsBelow(lens, k2) == below + SymbolsOf(lens, k2 - 1);
    if k < k2 - 1 {
      BelowIndex(lens, k, r, k2 - 1);
    }
  }

  lemma {:induction false} CountTotal(lens: seq<nat>, k: nat)
    requires 1 <= k <= BMAX + 1
    ensures Off(Counts(lens), k) + Count(lens, 0) <= |lens|
    ensures Lengths(lens) && k == BMAX + 1 ==> Off(Counts(lens), k) + Count(lens, 0) == |lens|
  {
    if lens == [] {
      OffZero(k);
    } else {
      var init := lens[..|lens| - 1];
      CountTotal(init, k);
      OffSnoc(init, lens[|lens| - 1], k);
      assert init + [lens[|lens| - 1]] == lens;
    }
  }

  lemma {:induction false} OffZero(k: nat)
    requires k <= BMAX + 1
    ensures Off(Counts([]), k) == 0
  {
    if k > 1 { OffZero(k - 1); }
  }

  lemma {:induction false} OffSnoc(lens: seq<nat>, y: nat, k: nat)
    requires k <= BMAX + 1
    ensures Off(Counts(lens + [y]), k) == Off(Counts(lens), k) + if 1 <= y < k then 1 else 0
  {
    if k > 1 {
      OffSnoc(lens, y, k - 1);
      assert (lens + [y])[..|lens|] == lens;
    }
  }

  // Sum of c[j] * 2^(BMAX - j) for 1 <= j <= k.
  function Weight(c: seq<nat>, k: nat): nat
    requires k <= BMAX && |c| == BMAX + 1
  {
    if k == 0 then 0 else Weight(c, k - 1) + Shl(c[k], BMAX - k)
  }

  lemma {:induction false} WeightIsKraft(lens: seq<nat>)
    requires Lengths(lens)
    ensures Weight(Counts(lens), BMAX) == Kraft(lens)
  {
    if lens == [] {
      WeightZero(BMAX);
    } else {
      var init, y := lens[..|lens| - 1], lens[|lens| - 1];
      WeightIsKraft(init);
      WeightSnoc(init, y, BMAX);
      assert init + [y] == lens;
    }
  }

  lemma {:induction false} WeightZero(k: nat)
    requires k <= BMAX
    ensures Weight(Counts([]), k) == 0
  {
    if k > 0 {
      WeightZero(k - 1);
      ShlOne(BMAX - k);
    }
  }

  lemma {:induction false} WeightSnoc(lens: seq<nat>, y: nat, k: nat)
    requires k <= BMAX && y <= BMAX
    ensures Weight(Counts(lens + [y]), k) == Weight(Counts(lens), k) + if 1 <= y <= k then Pow2(BMAX - y) else 0
  {
    if k > 0 {
      WeightSnoc(lens, y, k - 1);
      assert (lens + [y])[..|lens|] == lens;
      ShlPlus(Count(lens, k), 1, BMAX - k);
      ShlOne(BMAX - k);
    }
  }

  // The codes of length up to k end at this share of all strings.
  lemma {:induction false} WeightIsEnd(c: seq<nat>, k: nat)
    requires 1 <= k <= BMAX && |c| == BMAX + 1
    ensures Weight(c, k) == Shl(First(c, k) + c[k], BMAX - k)
  {
    if k == 1 {
      assert Weight(c, 0) == 0;
    } else {
      WeightIsEnd(c, k - 1);
      ShlInner(First(c, k - 1) + c[k - 1], BMAX - k);
      ShlPlus(First(c, k), c[k], BMAX - k);
    }
  }

  lemma {:induction false} WeightLong(c: seq<nat>, g: nat, k: nat)
    requires g <= k <= BMAX && |c| == BMAX + 1
    requires forall n :: g < n <= BMAX ==> c[n] == 0
    ensures Weight(c, k) == Weight(c, g)
    decreases k
  {
    if g < k {
      WeightLong(c, g, k - 1);
      ShlOne(BMAX - k);
    }
  }

  // Where the codes of length g or less end among the strings of g bits.
  function EndOf(lens: seq<nat>, g: nat): nat
    requires g <= BMAX
  {
    First(Counts(lens), g) + Count(lens, g)
  }

  // Over- and undersubscribed code sets, seen from their longest length g.
  lemma KraftAtMax(lens: seq<nat>, g: nat)
    requires Lengths(lens) && 1 <= g <= BMAX
    requires forall n :: g < n <= BMAX ==> Counts(lens)[n] == 0
    ensures Kraft(lens) > FULL <==> EndOf(lens, g) > Pow2(g)
    ensures Kraft(lens) < FULL <==> EndOf(lens, g) < Pow2(g)
  {
    var c := Counts(lens);
    WeightIsKraft(lens);
    WeightLong(c, g, BMAX);
    WeightIsEnd(c, g);
    CompareFull(Weight(c, g), First(c, g) + c[g], g, BMAX - g);
  }

  lemma CompareFull(kraft: nat, end: nat, g: nat, n: nat)
    requires g + n == BMAX && kraft == Shl(end, n)
    ensures kraft > FULL <==> end > Pow2(g)
    ensures kraft < FULL <==> end < Pow2(g)
  {
    ShlCompare(end, g, n);
    FullIsPow2();
  }

  lemma FullIsPow2()
    ensures Pow2(BMAX) == FULL
  {
    assert Pow2(4) == 16;
    assert Pow2(8) == 16 * Pow2(4);
    assert Pow2(12) == 16 * Pow2(8);
    assert Pow2(16) == 16 * Pow2(12);
  }

  // Adding the i-th length to the ones before it.
  lemma CountStep(lens: seq<nat>, i: nat, k: nat)
    requires i < |lens|
    ensures Count(lens[..i + 1], k) == Count(lens[..i], k) + if lens[i] == k then 1 else 0
    ensures SymbolsOf(lens[..i + 1], k) == SymbolsOf(lens[..i], k) + if lens[i] == k then [i] else []
  {
    assert lens[..i + 1][..i] == lens[..i];
  }

  lemma {:induction false} CountPrefix(lens: seq<nat>, i: nat, k: nat)
    requires i <= |lens|
    ensures Count(lens[..i], k) <= Count(lens, k)
    decreases |lens| - i
  {
    if i == |lens| {
      assert lens[..i] == lens;
    } else {
      CountStep(lens, i, k);
      CountPrefix(lens, i + 1, k);
    }
  }

  // Each place in the sorted list belongs to one length.
  lemma {:induction false} PlaceOf(lens: seq<nat>, t: nat, k: nat) returns (k1: nat, r1: nat)
    requires 1 <= k <= BMAX + 1 && t < Off(Counts(lens), k)
    ensures 1 <= k1 < k && r1 < Count(lens, k1) && t == Off(Counts(lens), k1) + r1
    decreases k
  {
    if k == 1 {
      assert false;
    } else if t < Off(Counts(lens), k - 1) {
      k1, r1 := PlaceOf(lens, t, k - 1);
    } else {
      k1, r1 := k - 1, t - Off(Counts(lens), k - 1);
    }
  }

  // Places of different lengths are different.
  lemma PlacesApart(lens: seq<nat>, k1: nat, r1: nat, k2: nat, r2: nat)
    requires 1 <= k1 <= BMAX && 1 <= k2 <= BMAX && r1 < Count(lens, k1) && r2 < Count(lens, k2)
    requires k1 != k2 || r1 != r2
    ensures Off(Counts(lens), k1) + r1 != Off(Counts(lens), k2) + r2
  {
    if k1 < k2 {
      BelowIndex(lens, k1, r1, k2);
    } else if k2 < k1 {
      BelowIndex(lens, k2, r2, k1);
    }
  }

  // v holds, for each length, the symbols of that length among the first i.
  ghost predicate SortedSoFar(lens: seq<nat>, i: nat, v: seq<nat>)
    requires i <= |lens|
  {
    forall k: nat, r: nat :: 1 <= k <= BMAX && r < Count(lens[..i], k) ==> SortedEntry(lens, i, v, k, r)
  }

  ghost predicate SortedEntry(lens: seq<nat>, i: nat, v: seq<nat>, k: nat, r: nat)
    requires i <= |lens| && 1 <= k <= BMAX && r < Count(lens[..i], k)
  {
    Off(Counts(lens), k) + r < |v| && v[Off(Counts(lens), k) + r] == SymbolsOf(lens[..i], k)[r]
  }

  lemma SortedStep(lens: seq<nat>, i: nat, v: seq<nat>)
    requires Lengths(lens) && i < |lens| && lens[i] != 0 && SortedSoFar(lens, i, v) && |lens| <= |v|
    ensures Off(Counts(lens), lens[i]) + Count(lens[..i], lens[i]) < |v|
    ensures SortedSoFar(lens, i + 1, v[Off(Counts(lens), lens[i]) + Count(lens[..i], lens[i]) := i])
  {
    var k2, r2 := lens[i], Count(lens[..i], lens[i]);
    CountStep(lens, i, k2);
    CountPrefix(lens, i + 1, k2);
    SortedAt(lens, k2, r2);
    UsedTotal(lens);
    var v' := v[Off(Counts(lens), k2) + r2 := i];
    var next := i + 1;
    forall k: nat, r: nat | 1 <= k <= BMAX && r < Count(lens[..next], k)
      ensures SortedEntry(lens, next, v', k, r)
    {
      CountStep(lens, i, k);
      if k != k2 || r != r2 {
        CountPrefix(lens, i, k);
        PlacesApart(lens, k, r, k2, r2);
        assert SortedEntry(lens, i, v, k, r);
      }
    }
  }

  lemma SortedSkip(lens: seq<nat>, i: nat, v: seq<nat>)
    requires i < |lens| && lens[i] == 0 && SortedSoFar(lens, i, v)
    ensures SortedSoFar(lens, i + 1, v)
  {
    var next := i + 1;
    forall k: nat, r: nat | 1 <= k <= BMAX && r < Count(lens[..next], k)
      ensures SortedEntry(lens, next, v, k, r)
    {
      CountStep(lens, i, k);
      assert SortedEntry(lens, i, v, k, r);
    }
  }

  lemma SortedAll(lens: seq<nat>, v: seq<nat>)
    requires Lengths(lens) && SortedSoFar(lens, |lens|, v) && |lens| <= |v|
    ensures Used(lens) <= |v| && v[..Used(lens)] == Sorted(lens)
  {
    UsedTotal(lens);
    assert lens[..|lens|] == lens;
    forall t | 0 <= t < Used(lens)
      ensures v[t] == Sorted(lens)[t]
    {
      var k, r := PlaceOf(lens, t, BMAX + 1);
      SortedAt(lens, k, r);
      assert SortedEntry(lens, |lens|, v, k, r);
    }
  }

  lemma SomeLength(lens: seq<nat>) returns (k: nat)
    requires Lengths(lens) && Count(lens, 0) < |lens|
    ensures 1 <= k <= BMAX && Counts(lens)[k] > 0
  {
    var r;
    UsedTotal(lens);
    k, r := PlaceOf(lens, 0, BMAX + 1);
  }

  // Once codes of some length overflow, longer ones do too.
  lemma {:induction false} Overflows(c: seq<nat>, j: nat, g: nat)
    requires 1 <= j <= g < |c| && First(c, j) + c[j] > Pow2(j)
    ensures First(c, g) + c[g] > Pow2(g)
    decreases g - j
  {
    if j < g { Overflows(c, j + 1, g); }
  }

  lemma {:induction false} FirstOfShortest(c: seq<nat>, k: nat)
    requires 1 <= k < |c| && forall n :: 1 <= n < k ==> c[n] == 0
    ensures First(c, k) == 0
  {
    if k > 1 { FirstOfShortest(c, k - 1); }
  }

  // The shortest and the longest length in use.
  ghost predicate Spans(lens: seq<nat>, kmin: nat, g: nat) {
    && Lengths(lens)
    && 1 <= kmin <= g <= BMAX
    && Counts(lens)[kmin] > 0 && Counts(lens)[g] > 0
    && (forall n :: 1 <= n < kmin ==> Counts(lens)[n] == 0)
    && (forall n :: g < n <= BMAX ==> Counts(lens)[n] == 0)
  }

  // The code set huft_build enters: the given codes and, if they do not take all
  // strings, dummy codes of the longest length.
  function ShapeOf(lens: seq<nat>, g: nat, l: nat): Shape
    requires g <= BMAX && EndOf(lens, g) <= Pow2(g)
  {
    Shape(Counts(lens)[g := Count(lens, g) + Pow2(g) - EndOf(lens, g)], g, l)
  }

  // Lines 151-164: the wanted width, but no less than the shortest and no more
  // than the longest length.
  function Clamp(m: nat, kmin: nat, g: nat): nat {
    var wanted := if m < kmin then kmin else m;
    if wanted < g then wanted else g
  }

  ghost predicate ShapedBy(lens: seq<nat>, kmin: nat, g: nat) {
    Spans(lens, kmin, g) && EndOf(lens, g) <= Pow2(g)
  }

  // Among the strings left over by codes of at most g bits, in order, the first ones get
  // entries made of slots of v[] never written: as many as there are zero lengths.
  predicate UnwrittenAt(lens: seq<nat>, g: nat, s: nat)
    requires Lengths(lens) && g <= BMAX
  {
    Rev(g, s) - EndOf(lens, g) < |lens| - Used(lens)
  }

  // A string that starts with no code leads to memory never written; without codes there
  // are no tables at all.
  ghost predicate Unwritten(lens: seq<nat>, s: nat)
    requires Lengths(lens)
  {
    Count(lens, 0) == |lens| || exists kmin, g :: Spans(lens, kmin, g) && UnwrittenAt(lens, g, s)
  }

  lemma UnwrittenSpans(lens: seq<nat>, kmin: nat, g: nat, s: nat)
    requires Spans(lens, kmin, g)
    ensures Unwritten(lens, s) <==> Count(lens, 0) == |lens| || UnwrittenAt(lens, g, s)
  {
    forall kmin': nat, g': nat | Spans(lens, kmin', g') ensures g' == g {
      assert Counts(lens)[g'] > 0 && Counts(lens)[g] > 0;
    }
  }

  // How many bits are looked at for the code a stream starts with, in the tables for
  // these lengths and the wanted width m.
  ghost function NeedOf(lens: seq<nat>, m: nat, s: nat): nat {
    if exists kmin, g :: ShapedBy(lens, kmin, g) then
      var kmin, g :| ShapedBy(lens, kmin, g);
      ShapeOf(lens, g, Clamp(m, kmin, g)).Need(s)
    else 0
  }

  lemma NeedOfShape(lens: seq<nat>, m: nat, kmin: nat, g: nat, s: nat)
    requires ShapedBy(lens, kmin, g)
    ensures NeedOf(lens, m, s) == ShapeOf(lens, g, Clamp(m, kmin, g)).Need(s)
  {
    forall kmin': nat, g': nat | ShapedBy(lens, kmin', g') ensures kmin' == kmin && g' == g {
      assert Counts(lens)[kmin'] > 0 && Counts(lens)[g'] > 0 && Counts(lens)[kmin] > 0 && Counts(lens)[g] > 0;
    }
  }
}
