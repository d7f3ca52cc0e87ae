// What the tables of huft_build mean: walking them decodes the canonical code.
module HuftDecode {
  import opened Bits
  import opened Canonical
  import opened CodeLengths
  import opened HuftTables

  function SourceOf(lens: seq<nat>, s: nat, d: seq<nat>, e: seq<nat>): Source {
    Source(Sorted(lens), |lens|, s, d, e)
  }

  // The walk ends at the entry of symbol y, having consumed its code.
  ghost predicate Finds(found: Found, src: Source, y: nat, len: nat)
    requires y >= src.s ==> y - src.s < |src.e| == |src.d|
  {
    found.skipped < len && found.entry == src.SymbolEntry(y, len - found.skipped)
  }

  // Streams that start with a code lead to its symbol.
  ghost predicate DecodesSymbols(lens: seq<nat>, src: Source, tables: seq<seq<Huft>>, l: nat)
    requires Lengths(lens) && |lens| - src.s <= |src.e| == |src.d|
  {
    forall s: nat, y: nat :: StartsWith(lens, y, s) ==> Finds(Walk(tables, 0, l, s), src, y, lens[y])
  }

  // Streams that start with no code lead to a dummy entry: an invalid code, or an
  // entry made from unwritten memory while there are zero lengths left to count.
  ghost predicate RejectsOthers(lens: seq<nat>, tables: seq<seq<Huft>>, l: nat, g: nat)
    requires Lengths(lens) && g <= BMAX
  {
    forall s: nat :: (forall y: nat :: !StartsWith(lens, y, s)) ==> Rejects(Walk(tables, 0, l, s), lens, s, g)
  }

  ghost predicate Rejects(found: Found, lens: seq<nat>, s: nat, g: nat)
    requires Lengths(lens) && g <= BMAX
  {
    && found.skipped < g
    && found.entry == (if UnwrittenAt(lens, g, s)
                       then Junk(g - found.skipped)
                       else Entry(99, g - found.skipped, NoValue))
  }

  lemma {:induction false} FirstSame(c: seq<nat>, g: nat, a: nat, k: nat)
    requires k <= g < |c|
    ensures First(c[g := a], k) == First(c, k) && Off(c[g := a], k) == Off(c, k)
  {
    if k > 1 { FirstSame(c, g, a, k - 1); }
  }

  lemma ShapeValid(lens: seq<nat>, kmin: nat, g: nat, l: nat)
    requires Spans(lens, kmin, g) && 1 <= l <= g && EndOf(lens, g) <= Pow2(g)
    ensures ShapeOf(lens, g, l).Valid()
  {
    ShapeCounts(lens, g, l, g);
  }

  lemma SourceValid(lens: seq<nat>, s: nat, d: seq<nat>, e: seq<nat>)
    requires Lengths(lens) && |lens| - s <= |e| == |d|
    ensures SourceOf(lens, s, d, e).Valid()
  {
    UsedTotal(lens);
    SortedAreSymbols(lens);
  }

  lemma SortedAreSymbols(lens: seq<nat>)
    ensures forall t :: 0 <= t < Used(lens) ==> Sorted(lens)[t] < |lens|
  {
    BelowAreSymbols(lens, BMAX + 1);
  }

  lemma {:induction false} BelowAreSymbols(lens: seq<nat>, k: nat)
    requires k <= BMAX + 1
    ensures forall t :: 0 <= t < |SymbolsBelow(lens, k)| ==> SymbolsBelow(lens, k)[t] < |lens|
  {
    if k > 1 {
      BelowAreSymbols(lens, k - 1);
      var ys := SymbolsOf(lens, k - 1);
      forall t | 0 <= t < |ys|
        ensures ys[t] < |lens|
      {
        SymbolsAre(lens, k - 1, t);
      }
    }
  }

  // Every string of g bits starts with exactly one code; this finds it.
  lemma {:induction false} CodeAt(sh: Shape, x: nat, k: nat) returns (k1: nat, r1: nat)
    requires sh.Valid() && 1 <= k <= sh.g && x < sh.End(k)
    ensures sh.IsCode(k1, r1) && sh.Pos(k1, r1) <= x < sh.Pos(k1, r1) + Pow2(sh.g - k1)
  {
    if x < sh.Pos(k, 0) {
      if k == 1 {
        ShlOne(sh.g - 1);
        assert false;
      }
      sh.EndIsNextStart(k - 1);
      k1, r1 := CodeAt(sh, x, k - 1);
    } else {
      k1, r1 := k, CodeIn(sh, x, k);
    }
  }

  function CodeIn(sh: Shape, x: nat, k: nat): (r: nat)
    requires sh.Valid() && 1 <= k <= sh.g && sh.Pos(k, 0) <= x < sh.End(k)
    ensures r < sh.c[k] && sh.Pos(k, r) <= x < sh.Pos(k, r) + Pow2(sh.g - k)
  {
    var y := x - sh.Pos(k, 0);
    var r := Shr(y, sh.g - k);
    assert r < sh.c[k] && sh.Pos(k, r) <= x < sh.Pos(k, r) + Pow2(sh.g - k) by {
      Split(y, sh.g - k);
      sh.PosPlus(k, 0, r);
      sh.PosPlus(k, 0, sh.c[k]);
      ShlMono(sh.c[k], r, sh.g - k);
    }
    r
  }

  lemma ShapeCounts(lens: seq<nat>, g: nat, l: nat, k: nat)
    requires 1 <= k <= g <= BMAX && EndOf(lens, g) <= Pow2(g)
    ensures var sh := ShapeOf(lens, g, l);
            && First(sh.c, k) == First(Counts(lens), k)
            && Off(sh.c, k) == Off(Counts(lens), k)
            && sh.c[k] >= Count(lens, k)
            && (k < g ==> sh.c[k] == Count(lens, k))
  {
    FirstSame(Counts(lens), g, Count(lens, g) + Pow2(g) - EndOf(lens, g), k);
  }

  // The code of shape (k, r), r below the count of the lengths, is a symbol's.
  lemma CodeIsSymbol(lens: seq<nat>, sh: Shape, k: nat, r: nat, s: nat)
    requires Lengths(lens) && sh.Valid() && sh.IsCode(k, r) && r < Count(lens, k)
    requires First(sh.c, k) == First(Counts(lens), k)
    requires Low(s, k) == sh.Code(k, r)
    ensures StartsWith(lens, SymbolsOf(lens, k)[r], s)
  {
    SymbolsAre(lens, k, r);
    sh.CodeMatches(k, r, s);
  }

  lemma SymbolIsCode(lens: seq<nat>, sh: Shape, y: nat, s: nat)
    requires Lengths(lens) && StartsWith(lens, y, s) && sh.Valid() && sh.IsCode(lens[y], Count(lens[..y], lens[y]))
    requires First(sh.c, lens[y]) == First(Counts(lens), lens[y])
    ensures Low(s, lens[y]) == sh.Code(lens[y], Count(lens[..y], lens[y]))
  {
    sh.CodeMatches(lens[y], Count(lens[..y], lens[y]), s);
  }

  ghost predicate Built(sh: Shape, src: Source, tables: seq<seq<Huft>>, keys: seq<Key>) {
    && sh.Valid() && src.Valid()
    && Wf(sh, tables, keys) && AllPlaced(sh, src, tables, keys, sh.g, sh.c[sh.g])
    && Narrow(sh, keys)
  }

  // The walk ends at the entry of the code (k, r), having consumed the code.
  ghost predicate LeadsTo(found: Found, sh: Shape, src: Source, k: nat, r: nat)
    requires src.Valid() && k <= |sh.c|
  {
    found.skipped < k && found.entry == src.EntryAt(Off(sh.c, k) + r, k - found.skipped)
  }

  lemma WalkBuilt(sh: Shape, src: Source, tables: seq<seq<Huft>>, keys: seq<Key>, k: nat, r: nat, s: nat)
    requires Built(sh, src, tables, keys) && sh.IsCode(k, r) && Low(s, k) == sh.Code(k, r)
    ensures LeadsTo(Walk(tables, 0, sh.l, s), sh, src, k, r)
  {
    assert Before(k, r, sh.g, sh.c[sh.g]);
    assert HasPlace(sh, src, tables, keys, k, r);
    var i :| Placed(sh, src, tables, keys, k, r, i);
    WalkFinds(sh, src, tables, keys, k, r, i, s);
  }

  lemma TablesDecode(lens: seq<nat>, kmin: nat, sh: Shape, src: Source, tables: seq<seq<Huft>>, keys: seq<Key>)
    requires ShapeFor(lens, kmin, sh) && Built(sh, src, tables, keys)
    requires src == SourceOf(lens, src.s, src.d, src.e) && |lens| - src.s <= |src.e| == |src.d|
    ensures DecodesSymbols(lens, src, tables, sh.l)
    ensures RejectsOthers(lens, tables, sh.l, sh.g)
    ensures (forall n :: 0 <= n < |src.e| ==> src.e[n] <= 16 || src.e[n] == 99) ==> AlwaysSane(tables, sh.l)
  {
    forall s: nat, y: nat | StartsWith(lens, y, s)
      ensures Finds(Walk(tables, 0, sh.l, s), src, y, lens[y])
    {
      SymbolDecodes(lens, kmin, sh, src, tables, keys, y, s);
    }
    forall s: nat | forall y: nat :: !StartsWith(lens, y, s)
      ensures Rejects(Walk(tables, 0, sh.l, s), lens, s, sh.g)
    {
      OtherIsDummy(lens, kmin, sh, src, tables, keys, s);
    }
    if forall n :: 0 <= n < |src.e| ==> src.e[n] <= 16 || src.e[n] == 99 {
      forall s: nat ensures Sane(tables, 0, sh.l, s) {
        SaneBuilt(sh, src, tables, keys, s);
      }
    }
  }

  ghost predicate AlwaysSane(tables: seq<seq<Huft>>, l: nat) {
    forall s: nat :: Sane(tables, 0, l, s)
  }

  lemma SaneBuilt(sh: Shape, src: Source, tables: seq<seq<Huft>>, keys: seq<Key>, s: nat)
    requires Built(sh, src, tables, keys)
    requires forall n :: 0 <= n < |src.e| ==> src.e[n] <= 16 || src.e[n] == 99
    ensures Sane(tables, 0, sh.l, s)
  {
    RevBound(sh.g, s);
    var k, r := CodeAt(sh, Rev(sh.g, s), sh.g);
    sh.InInterval(k, r, s);
    assert Before(k, r, sh.g, sh.c[sh.g]);
    assert HasPlace(sh, src, tables, keys, k, r);
    var i :| Placed(sh, src, tables, keys, k, r, i);
    SaneCode(sh, src, tables, keys, k, r, i, s);
  }

  // A look-up needs just the bits that the shape says.
  ghost predicate Feeds(sh: Shape, tables: seq<seq<Huft>>)
    requires 1 <= sh.g < |sh.c| && sh.l > 0
  {
    forall s: nat, left: nat :: Fed(tables, 0, sh.l, s, left) <==> sh.Need(s) <= left
  }

  lemma FeedsBuilt(sh: Shape, src: Source, tables: seq<seq<Huft>>, keys: seq<Key>)
    requires Built(sh, src, tables, keys) && Spill(sh, tables, keys)
    ensures Feeds(sh, tables)
  {
    forall s: nat, left: nat ensures Fed(tables, 0, sh.l, s, left) <==> sh.Need(s) <= left {
      RevBound(sh.g, s);
      var k, r := CodeAt(sh, Rev(sh.g, s), sh.g);
      sh.InInterval(k, r, s);
      assert Before(k, r, sh.g, sh.c[sh.g]);
      assert HasPlace(sh, src, tables, keys, k, r);
      var i :| Placed(sh, src, tables, keys, k, r, i);
      FedCode(sh, src, tables, keys, k, r, i, s, left);
      NeedIs(sh, tables, keys, k, r, i, s);
    }
  }

  ghost predicate ShapeFor(lens: seq<nat>, kmin: nat, sh: Shape) {
    && Spans(lens, kmin, sh.g)
    && EndOf(lens, sh.g) <= Pow2(sh.g)
    && sh == ShapeOf(lens, sh.g, sh.l)
  }

  lemma SymbolDecodes(lens: seq<nat>, kmin: nat, sh: Shape, src: Source, tables: seq<seq<Huft>>, keys: seq<Key>,
                      y: nat, s: nat)
    requires ShapeFor(lens, kmin, sh) && Built(sh, src, tables, keys)
    requires src == SourceOf(lens, src.s, src.d, src.e) && |lens| - src.s <= |src.e| == |src.d|
    requires StartsWith(lens, y, s)
    ensures Finds(Walk(tables, 0, sh.l, s), src, y, lens[y])
  {
    hide Walk, Low, Rev, Shl, Shr;
    var k, r := lens[y], Count(lens[..y], lens[y]);
    CodeOfSymbol(lens, kmin, sh, y, s);
    ShapeCounts(lens, sh.g, sh.l, k);
    WalkBuilt(sh, src, tables, keys, k, r, s);
    EntryIsSymbol(lens, src, y, k - Walk(tables, 0, sh.l, s).skipped);
  }

  // The entry at the place of y in the counting sort is y's.
  lemma EntryIsSymbol(lens: seq<nat>, src: Source, y: nat, b: nat)
    requires Lengths(lens) && src.Valid() && y < |lens| && lens[y] > 0
    requires src == SourceOf(lens, src.s, src.d, src.e) && |lens| - src.s <= |src.e|
    ensures src.EntryAt(Off(Counts(lens), lens[y]) + Count(lens[..y], lens[y]), b) == src.SymbolEntry(y, b)
  {
    SymbolFound(lens, y);
    SortedAt(lens, lens[y], Count(lens[..y], lens[y]));
  }

  lemma OtherIsDummy(lens: seq<nat>, kmin: nat, sh: Shape, src: Source, tables: seq<seq<Huft>>, keys: seq<Key>, s: nat)
    requires ShapeFor(lens, kmin, sh) && Built(sh, src, tables, keys)
    requires src == SourceOf(lens, src.s, src.d, src.e)
    requires forall y: nat :: !StartsWith(lens, y, s)
    ensures Rejects(Walk(tables, 0, sh.l, s), lens, s, sh.g)
  {
    var r := DummyCode(lens, sh, s);
    WalkBuilt(sh, src, tables, keys, sh.g, r, s);
    ShapeCounts(lens, sh.g, sh.l, sh.g);
    DummyRejects(lens, sh, src, r, s, Walk(tables, 0, sh.l, s));
  }

  // A stream that starts with no symbol's code starts with a dummy code.
  lemma DummyCode(lens: seq<nat>, sh: Shape, s: nat) returns (r: nat)
    requires Lengths(lens) && sh.Valid() && 1 <= sh.g && EndOf(lens, sh.g) <= Pow2(sh.g)
    requires sh == ShapeOf(lens, sh.g, sh.l)
    requires forall y: nat :: !StartsWith(lens, y, s)
    ensures sh.IsCode(sh.g, r) && r >= Count(lens, sh.g)
    ensures Low(s, sh.g) == sh.Code(sh.g, r)
    ensures sh.Pos(sh.g, r) <= Rev(sh.g, s) < sh.Pos(sh.g, r) + Pow2(sh.g - sh.g)
  {
    RevBound(sh.g, s);
    var k;
    k, r := CodeAt(sh, Rev(sh.g, s), sh.g);
    sh.InInterval(k, r, s);
    ShapeCounts(lens, sh.g, sh.l, k);
    if r < Count(lens, k) {
      CodeIsSymbol(lens, sh, k, r, s);
    }
  }

  // The r-th code of length g, past the symbols, is a dummy code.
  lemma DummyRejects(lens: seq<nat>, sh: Shape, src: Source, r: nat, s: nat, found: Found)
    requires sh.Valid() && src.Valid() && src == SourceOf(lens, src.s, src.d, src.e) && Lengths(lens)
    requires forall n :: sh.g < n <= BMAX ==> Counts(lens)[n] == 0
    requires First(sh.c, sh.g) == First(Counts(lens), sh.g) && Off(sh.c, sh.g) == Off(Counts(lens), sh.g)
    requires r >= Count(lens, sh.g)
    requires sh.Pos(sh.g, r) <= Rev(sh.g, s) < sh.Pos(sh.g, r) + Pow2(sh.g - sh.g)
    requires LeadsTo(found, sh, src, sh.g, r)
    ensures Rejects(found, lens, s, sh.g)
  {
    UsedUpTo(lens, sh.g);
    UsedTotal(lens);
    assert EndOf(lens, sh.g) == First(sh.c, sh.g) + Count(lens, sh.g);
    assert Rev(sh.g, s) == First(sh.c, sh.g) + r;
  }

  // ---------------------------------------------------------- tables too wide

  // The last position among those that agree with position `from`, a multiple of
  // 2^n, on all but n bits: the n bits are ones, so the stream's next bit is one.
  lemma LastAgreeing(sh: Shape, from: nat, n: nat) returns (s: nat)
    requires sh.Valid() && 1 <= n <= sh.g && Low(from, n) == 0 && from + Pow2(n) <= Pow2(sh.g)
    ensures Rev(sh.g, s) == from + Pow2(n) - 1 && Shr(s, sh.g - n) % 2 == 1
  {
    var x := from + Pow2(n) - 1;
    s := Rev(sh.g, x);
    RevRev(sh.g, x);
    SmallShr(x, sh.g);
    OnesBehind(from, n);
    OddReversed(sh.g, n, x);
  }

  lemma OnesBehind(from: nat, n: nat)
    requires n >= 1 && Low(from, n) == 0
    ensures Low(from + Pow2(n) - 1, n) == Pow2(n) - 1
  {
    Split(from, n);
    Join(Pow2(n) - 1, Shr(from, n), n);
  }

  lemma OddReversed(g: nat, n: nat, x: nat)
    requires 1 <= n <= g && Low(x, n) == Pow2(n) - 1
    ensures Shr(Rev(g, x), g - n) % 2 == 1
  {
    hide Rev, Low, Shr;
    Pow2Mono(n - 1, n);
    TopBit(n, Low(x, n));
    RevSplit(g, n, x);
    RevLow(n, x);
    RevTop(n, Low(x, n));
  }

  // Where, in the block of a code that starts a table too wide, the codes begin that
  // are more than l bits longer than the way to the table.
  function LongFrom(sh: Shape, k: nat, r: nat, w: nat): nat
    requires sh.IsCode(k, r)
  {
    if w + sh.l < k then sh.Pos(k, r) else sh.End(k)
  }

  lemma LongBlock(sh: Shape, k: nat, r: nat, w: nat)
    requires sh.Valid() && sh.OverwideAt(k, r, w)
    ensures sh.g > w + sh.l
    ensures var from, n := LongFrom(sh, k, r, w), sh.g - w - sh.l;
            Low(from, n) == 0 && sh.Pos(k, r) <= from && from + Pow2(n) <= sh.Pos(k, r) + Pow2(sh.g - w) <= Pow2(sh.g)
  {
    sh.BlockFits(k, r, w);
    LongInBlock(sh, k, r, w);
    var n := sh.g - w - sh.l;
    LowLow(sh.Pos(k, r), n, sh.g - w);
    LowZero(n);
    ShlPow2(sh.l, n);
    MultipleBefore(sh.Pos(k, r), LongFrom(sh, k, r, w), Pow2(sh.l), n);
  }

  lemma LongInBlock(sh: Shape, k: nat, r: nat, w: nat)
    requires sh.Valid() && sh.OverwideAt(k, r, w) && sh.Pos(k, r) + Pow2(sh.g - w) <= Pow2(sh.g)
    ensures sh.g > w + sh.l
    ensures var from := LongFrom(sh, k, r, w);
            Low(from, sh.g - w - sh.l) == 0 && sh.Pos(k, r) <= from < sh.Pos(k, r) + Pow2(sh.g - w)
  {
    if w + sh.l < k {
      LowLow(sh.Pos(k, r), sh.g - w - sh.l, sh.g - w);
      LowZero(sh.g - w - sh.l);
    } else {
      sh.PosPlus(k, r, sh.c[k] - r);
      ShlOne(0);
      Join(0, First(sh.c, k) + sh.c[k], sh.g - k);
    }
  }

  // Below a multiple of 2^n further up there is room for 2^n.
  lemma MultipleBefore(start: nat, from: nat, count: nat, n: nat)
    requires Low(start, n) == 0 && Low(from, n) == 0 && from < start + Shl(count, n)
    ensures from + Pow2(n) <= start + Shl(count, n)
  {
    Split(start, n);
    Split(from, n);
    ShlPlus(Shr(start, n), count, n);
    ShlMono(Shr(start, n) + count, Shr(from, n), n);
    ShlMono(Shr(from, n), Shr(start, n) + count, n);
  }

  // A code that covers a position from there on is that long.
  lemma LongThere(sh: Shape, k: nat, r: nat, w: nat, x: nat, k1: nat, r1: nat)
    requires sh.Valid() && sh.OverwideAt(k, r, w) && sh.IsCode(k1, r1) && LongFrom(sh, k, r, w) <= x
    requires x < sh.Pos(k1, r1) + Pow2(sh.g - k1)
    ensures k1 > w + sh.l
  {
    sh.PosNext(k1, r1);
    sh.PosPlus(k1, r1 + 1, sh.c[k1] - r1 - 1);
    sh.PosPlus(k, 0, r);
    if k1 <= w + sh.l {
      sh.EndMono(k1, k);
    }
  }

  // An index of more than l bits whose bit l is set.
  lemma HighIndex(x: nat, l: nat, bits: nat)
    requires bits > l && Shr(x, l) % 2 == 1
    ensures Pow2(l) <= Low(x, bits) < Pow2(bits)
  {
    LowSucc(x, l);
    ShlOne(l);
    LowLow(x, l + 1, bits);
    Split(Low(x, bits), l + 1);
    Split(x, bits);
  }

  // In tables too wide some code's stream is led to an entry that is not the code's:
  // one never written, or one of a shorter code.
  lemma TooWide(sh: Shape, src: Source, tables: seq<seq<Huft>>, keys: seq<Key>)
    returns (k: nat, r: nat, s: nat)
    requires sh.Valid() && src.Valid() && Wf(sh, tables, keys) && AllPlaced(sh, src, tables, keys, sh.g, sh.c[sh.g])
    requires Spill(sh, tables, keys) && sh.Overwide()
    ensures sh.IsCode(k, r) && Low(s, k) == sh.Code(k, r)
    ensures var found := Walk(tables, 0, sh.l, s); found.skipped + sh.l < k && Shallow(found.entry, sh.l)
  {
    var i := SomeWide(sh, src, tables, keys);
    i := FirstWide(sh, keys, i);
    var k0: nat, r0: nat :| StartsWide(sh, keys[i], k0, r0);
    k, r, s := LongCode(sh, k0, r0, keys[i].w);
    WalkReaches(sh, tables, keys, i, s);
    HighIndex(Shr(s, keys[i].w), sh.l, keys[i].bits);
    StopsHere(sh, tables, keys, i, Shr(s, keys[i].w));
  }

  // In the block of a code that starts a table too wide there is a code more than l
  // bits longer than the way there, and a stream that starts with it whose bit after
  // those l is one.
  lemma LongCode(sh: Shape, k0: nat, r0: nat, w: nat) returns (k: nat, r: nat, s: nat)
    requires sh.Valid() && sh.OverwideAt(k0, r0, w)
    ensures sh.IsCode(k, r) && k > w + sh.l && Low(s, k) == sh.Code(k, r)
    ensures Low(s, w) == sh.Code(k0, r0) && Shr(Shr(s, w), sh.l) % 2 == 1
  {
    LongBlock(sh, k0, r0, w);
    var from, n := LongFrom(sh, k0, r0, w), sh.g - w - sh.l;
    s := LastAgreeing(sh, from, n);
    k, r := CodeAt(sh, Rev(sh.g, s), sh.g);
    LongThere(sh, k0, r0, w, Rev(sh.g, s), k, r);
    sh.InInterval(k, r, s);
    SamePrefix(sh, k0, r0, w, s);
    ShrShr(s, w, sh.l);
  }

  lemma StopsHere(sh: Shape, tables: seq<seq<Huft>>, keys: seq<Key>, i: nat, s: nat)
    requires Wf(sh, tables, keys) && Spill(sh, tables, keys) && 0 < i < |keys|
    requires Pow2(sh.l) <= Low(s, keys[i].bits) < Pow2(keys[i].bits)
    ensures var found := Walk(tables, i, keys[i].bits, s); found.skipped == 0 && Shallow(found.entry, sh.l)
  {
    assert WfTable(sh, tables, keys, i) && LinksLow(sh.l, tables[i]);
  }

  // A stream in the block of a code has the block's first bits.
  lemma SamePrefix(sh: Shape, k: nat, r: nat, w: nat, s: nat)
    requires sh.Valid() && sh.IsCode(k, r) && w <= sh.g && Low(sh.Pos(k, r), sh.g - w) == 0
    requires sh.Pos(k, r) <= Rev(sh.g, s) < sh.Pos(k, r) + Pow2(sh.g - w)
    ensures Low(s, w) == sh.Code(k, r)
  {
    StartOfBlock(sh, k, r, w, w);
    SameBlock(Rev(sh.g, s), sh.Pos(k, r), sh.g - w);
    sh.CodeBounds(k, r);
    RevPrefix(sh.g, w, s, sh.Code(k, r));
    SmallShr(sh.Code(k, r), w);
  }

  // So they do not decode the code set.
  lemma TooWideFails(lens: seq<nat>, kmin: nat, sh: Shape, src: Source, tables: seq<seq<Huft>>, keys: seq<Key>)
    requires ShapeFor(lens, kmin, sh) && sh.Valid() && src.Valid()
    requires src == SourceOf(lens, src.s, src.d, src.e) && |lens| - src.s <= |src.e| == |src.d|
    requires Wf(sh, tables, keys) && AllPlaced(sh, src, tables, keys, sh.g, sh.c[sh.g])
    requires Spill(sh, tables, keys) && sh.Overwide()
    ensures !(DecodesSymbols(lens, src, tables, sh.l) && RejectsOthers(lens, tables, sh.l, sh.g))
  {
    var k, r, s := TooWide(sh, src, tables, keys);
    var found := Walk(tables, 0, sh.l, s);
    ShapeCounts(lens, sh.g, sh.l, k);
    if r < Count(lens, k) {
      CodeIsSymbol(lens, sh, k, r, s);
      var y := SymbolsOf(lens, k)[r];
      SymbolsAre(lens, k, r);
      assert !Finds(found, src, y, lens[y]);
    } else {
      forall y: nat ensures !StartsWith(lens, y, s) {
        if StartsWith(lens, y, s) {
          NotDummy(lens, kmin, sh, k, r, y, s);
        }
      }
      assert !Rejects(found, lens, s, sh.g);
    }
  }

  // A stream that starts with a dummy code starts with no symbol's.
  lemma NotDummy(lens: seq<nat>, kmin: nat, sh: Shape, k: nat, r: nat, y: nat, s: nat)
    requires ShapeFor(lens, kmin, sh) && sh.Valid() && sh.IsCode(k, r) && Low(s, k) == sh.Code(k, r)
    requires StartsWith(lens, y, s)
    ensures k == lens[y] && r < Count(lens, k)
  {
    CodeOfSymbol(lens, kmin, sh, y, s);
    SymbolFound(lens, y);
    var k1, r1 := lens[y], Count(lens[..y], lens[y]);
    if Before(k1, r1, k, r) {
      sh.CodesDisjoint(k1, r1, k, r);
      LowLow(s, k1, k);
    } else if Before(k, r, k1, r1) {
      sh.CodesDisjoint(k, r, k1, r1);
      LowLow(s, k, k1);
    }
  }

  lemma CountPush(b: seq<nat>, x: nat, k: nat)
    ensures Count(b + [x], k) == Count(b, k) + if x == k then 1 else 0
  {
    assert (b + [x])[..|b + [x]| - 1] == b;
  }

  lemma DeepCounts(b: seq<nat>, k: nat)
    requires b == [1, 2, 3, 4, 4]
    ensures Count(b, k) == if k == 4 then 2 else if 1 <= k <= 3 then 1 else 0
  {
    CountPush([], 1, k);
    CountPush([1], 2, k);
    CountPush([1, 2], 3, k);
    CountPush([1, 2, 3], 4, k);
    CountPush([1, 2, 3, 4], 4, k);
    assert [] + [1] == [1] && [1] + [2] == [1, 2] && [1, 2] + [3] == [1, 2, 3];
    assert [1, 2, 3] + [4] == [1, 2, 3, 4] && b == [1, 2, 3, 4] + [4];
  }

  lemma DeepFirst(c: seq<nat>)
    requires |c| == BMAX + 1 && c[1] == 1 && c[2] == 1 && c[3] == 1
    ensures First(c, 2) == 2 && First(c, 4) == 14
  {
    assert First(c, 2) == 2;
    assert First(c, 3) == 6;
  }

  // A complete code set whose tables, of one bit each, are too wide.
  lemma OverwideExists(b: seq<nat>)
    requires b == [1, 2, 3, 4, 4]
    ensures Spans(b, 1, 4) && EndOf(b, 4) == Pow2(4) && ShapeOf(b, 4, 1).Overwide()
  {
    forall k: nat ensures Count(b, k) == if k == 4 then 2 else if 1 <= k <= 3 then 1 else 0 {
      DeepCounts(b, k);
    }
    DeepFirst(Counts(b));
    assert Pow2(4) == 16;
    var sh := ShapeOf(b, 4, 1);
    assert sh.c == Counts(b);
    assert sh.Pos(2, 0) == 8 && sh.End(2) == 12;
    assert Level(1, 1);
    assert sh.OverwideAt(2, 0, 1);
  }

  // The tables decode the code set and nothing else, if and only if no table is too
  // wide.
  ghost predicate Decoding(b: seq<nat>, src: Source, tables: seq<seq<Huft>>, bits: nat, g: nat)
    requires Lengths(b) && |b| - src.s <= |src.e| == |src.d| && 1 <= g <= BMAX && bits > 0 && EndOf(b, g) <= Pow2(g)
  {
    && (bits == g ==> |tables| <= 1)
    && (!ShapeOf(b, g, bits).Overwide() <==> DecodingAll(b, src, tables, bits, g))
  }

  ghost predicate DecodingAll(b: seq<nat>, src: Source, tables: seq<seq<Huft>>, bits: nat, g: nat)
    requires Lengths(b) && |b| - src.s <= |src.e| == |src.d| && 1 <= g <= BMAX && bits > 0 && EndOf(b, g) <= Pow2(g)
  {
    && DecodesSymbols(b, src, tables, bits)
    && RejectsOthers(b, tables, bits, g)
    && Feeds(ShapeOf(b, g, bits), tables)
    && ((forall n :: 0 <= n < |src.e| ==> src.e[n] <= 16 || src.e[n] == 99) ==> AlwaysSane(tables, bits))
  }

  lemma BuiltDecoding(b: seq<nat>, kmin: nat, sh: Shape, src: Source, tables: seq<seq<Huft>>, keys: seq<Key>)
    requires ShapeFor(b, kmin, sh) && sh.Valid() && src.Valid()
    requires src == SourceOf(b, src.s, src.d, src.e) && |b| - src.s <= |src.e| == |src.d|
    requires Wf(sh, tables, keys) && AllPlaced(sh, src, tables, keys, sh.g, sh.c[sh.g])
    requires Spill(sh, tables, keys)
    ensures Decoding(b, src, tables, sh.l, sh.g)
  {
    assert |tables| > 1 ==> WfTable(sh, tables, keys, 1);
    if !sh.Overwide() {
      SpillNarrow(sh, tables, keys);
      TablesDecode(b, kmin, sh, src, tables, keys);
      FeedsBuilt(sh, src, tables, keys);
    } else {
      TooWideFails(b, kmin, sh, src, tables, keys);
    }
  }

  // No stream starts with the codes of two symbols.
  lemma SymbolUnique(lens: seq<nat>, kmin: nat, g: nat, y1: nat, y2: nat, s: nat)
    requires Spans(lens, kmin, g) && EndOf(lens, g) <= Pow2(g)
    requires StartsWith(lens, y1, s) && StartsWith(lens, y2, s)
    ensures y1 == y2
  {
    var sh := ShapeOf(lens, g, g);
    ShapeValid(lens, kmin, g, g);
    CodeOfSymbol(lens, kmin, sh, y1, s);
    CodeOfSymbol(lens, kmin, sh, y2, s);
    var k1, r1, k2, r2 := lens[y1], Count(lens[..y1], lens[y1]), lens[y2], Count(lens[..y2], lens[y2]);
    if k1 < k2 || (k1 == k2 && r1 < r2) {
      sh.CodesDisjoint(k1, r1, k2, r2);
      sh.CodeBounds(k1, r1);
      LowLow(s, k1, k2);
    } else if k2 < k1 || r2 < r1 {
      sh.CodesDisjoint(k2, r2, k1, r1);
      LowLow(s, k2, k1);
    }
    SymbolFound(lens, y1);
    SymbolFound(lens, y2);
  }

  lemma CodeOfSymbol(lens: seq<nat>, kmin: nat, sh: Shape, y: nat, s: nat)
    requires ShapeFor(lens, kmin, sh) && sh.Valid() && StartsWith(lens, y, s)
    ensures sh.IsCode(lens[y], Count(lens[..y], lens[y]))
    ensures Low(s, lens[y]) == sh.Code(lens[y], Count(lens[..y], lens[y]))
  {
    SymbolFound(lens, y);
    assert Counts(lens)[lens[y]] == Count(lens, lens[y]);
    ShapeCounts(lens, sh.g, sh.l, lens[y]);
    SymbolIsCode(lens, sh, y, s);
  }
}
