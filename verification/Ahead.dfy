// Looking codes up ahead in tables, against the format: what is read is the same, and
// fails only near the end of the input.
module Ahead {
  import opened Bits
  import opened Canonical
  import opened CodeLengths
  import opened Deflate
  import opened HuftDecode
  import opened HuftTables

  // Looked up ahead, with result a, or not, with result b: what is read is the same, and
  // nothing is missed that has 15 more bits behind it.
  ghost predicate Agrees<T>(a: Parsed<T>, b: Parsed<T>, input: seq<Byte>) {
    (a.Ok? ==> a == b) && (b.Ok? && b.pos + 15 <= 8 * |input| ==> a == b)
  }

  predicate Short(lens: seq<nat>) {
    forall y :: 0 <= y < |lens| ==> lens[y] <= 15
  }

  lemma NeedBound(lens: seq<nat>, m: nat, s: nat)
    requires Short(lens)
    ensures NeedOf(lens, m, s) <= 15
  {
    if exists kmin, g :: ShapedBy(lens, kmin, g) {
      var kmin, g :| ShapedBy(lens, kmin, g);
      NeedOfShape(lens, m, kmin, g, s);
      SymbolsAre(lens, g, 0);
    }
  }

  lemma SymbolAgrees(m: nat, lens: seq<nat>, input: seq<Byte>, p: nat)
    requires Short(lens)
    ensures Agrees(Symbol(m, lens, input, p), Symbol(0, lens, input, p), input)
  {
    NeedBound(lens, m, Rest(input, p));
  }

  lemma MatchAgrees(f: Alphabets, f': Alphabets, dst: seq<nat>, input: seq<Byte>, y: nat, p: nat)
    requires f.Valid() && f' == f.(ahead := false) && f'.Valid() && Short(dst) && 257 <= y <= 285
    ensures Agrees(MatchAt(f, dst, input, y, p), MatchAt(f', dst, input, y, p), input)
  {
    var n := Field(input, p, f.lengthExtra[y - 257]);
    if n.Ok? {
      SymbolAgrees(f.DistanceLook(), dst, input, n.pos);
    }
  }

  // The literals and matches of a block, given those after its first one.
  lemma {:induction false} CodesAgree(f: Alphabets, f': Alphabets, lit: seq<nat>, dst: seq<nat>,
                                      input: seq<Byte>, p: nat, out: seq<Byte>)
    requires f.Valid() && f' == f.(ahead := false) && f'.Valid() && Short(lit) && Short(dst)
    ensures Agrees(Codes(f, lit, dst, input, p, out), Codes(f', lit, dst, input, p, out), input)
    decreases 8 * |input| - p
  {
    var y := Symbol(0, lit, input, p);
    SymbolAgrees(f.LiteralLook(lit), lit, input, p);
    if y.Ok? {
      if y.value < 256 {
        CodesAgree(f, f', lit, dst, input, y.pos, out + [y.value]);
      } else if 256 < y.value <= 285 {
        MatchAgrees(f, f', dst, input, y.value, y.pos);
        var m := MatchAt(f', dst, input, y.value, y.pos);
        if m.Ok? && 1 <= m.value.dist <= |out| {
          CodesAgree(f, f', lit, dst, input, m.pos, CopyMatch(out, m.value.dist, m.value.len));
        }
      }
    }
  }

  lemma {:induction false} ListsAgree(look: nat, cl: seq<nat>, n: nat, input: seq<Byte>, p: nat, ls: seq<nat>)
    requires |ls| <= n && Short(cl)
    ensures Agrees(LengthList(look, cl, n, input, p, ls), LengthList(0, cl, n, input, p, ls), input)
    decreases n - |ls|
  {
    var y := Symbol(0, cl, input, p);
    SymbolAgrees(look, cl, input, p);
    if |ls| < n && y.Ok? {
      var run := RunAt(y.value, ls, input, y.pos);
      if run.Ok? && |ls| + |run.value| <= n {
        ListsAgree(look, cl, n, input, run.pos, ls + run.value);
      }
    }
  }

  lemma AllAgree(look: nat, cl: seq<nat>, n: nat, input: seq<Byte>, p: nat)
    requires Short(cl)
    ensures Agrees(AllLengths(look, cl, n, input, p), AllLengths(0, cl, n, input, p), input)
  {
    ListsAgree(look, cl, n, input, p, []);
  }

  lemma AllShort(cl: seq<nat>, n: nat, input: seq<Byte>, p: nat)
    ensures var ls := AllLengths(0, cl, n, input, p); ls.Ok? ==> Short(ls.value)
  {
    LengthsRead(0, cl, n, input, p, []);
  }

  lemma SetsAgree(f: Alphabets, head: Head, input: seq<Byte>, p: nat)
    requires f.ValidOrder()
    ensures Agrees(SetLengthsAt(f.CodeLook(), f.order, head, input, p), SetLengthsAt(0, f.order, head, input, p), input)
  {
    hide LengthList, CodeLengthCode, Kraft, Count;
    if head.nb <= 19 {
      CodeLengthsSmall(f.order, input, p, head.nb);
      AllAgree(f.CodeLook(), CodeLengthCode(f.order, input, p, head.nb), head.nl + head.nd, input, p + 3 * head.nb);
    }
  }

  // The lengths read for a block's own codes are at most 15.
  lemma SetsShort(order: seq<nat>, head: Head, input: seq<Byte>, p: nat)
    requires |order| == 19 && forall i :: 0 <= i < 19 ==> order[i] < 19
    ensures var sets := CodeSetsAt(0, order, head, input, p);
            sets.Ok? ==> Short(sets.value.lit) && Short(sets.value.dst)
  {
    hide LengthList, CodeLengthCode, Kraft, Count;
    var ls := SetLengthsAt(0, order, head, input, p);
    if ls.Ok? {
      AllShort(CodeLengthCode(order, input, p, head.nb), head.nl + head.nd, input, p + 3 * head.nb);
    }
  }

  lemma DynamicAgrees(f: Alphabets, f': Alphabets, input: seq<Byte>, p: nat, out: seq<Byte>)
    requires f.Valid() && f.ValidOrder() && f' == f.(ahead := false) && f'.Valid() && f'.ValidOrder()
    ensures Agrees(Dynamic(f, input, p, out), Dynamic(f', input, p, out), input)
  {
    var head := HeadAt(input, p);
    if head.Ok? {
      SetsAgree(f, head.value, input, head.pos);
      SetsShort(f.order, head.value, input, head.pos);
      var sets := CodeSetsAt(0, f.order, head.value, input, head.pos);
      if sets.Ok? {
        CodesAgree(f, f', sets.value.lit, sets.value.dst, input, sets.pos, out);
      }
    }
  }

  lemma BlocksAgree(f: Alphabets, f': Alphabets, input: seq<Byte>, p: nat, out: seq<Byte>)
    requires f.Valid() && f.ValidOrder() && f' == f.(ahead := false) && f'.Valid() && f'.ValidOrder()
    ensures Agrees(BlockAt(f, input, p, out), BlockAt(f', input, p, out), input)
  {
    var last := Field(input, p, BFINAL);
    if last.Ok? {
      var kind := Field(input, last.pos, BTYPE);
      if kind.Ok? {
        if kind.value == 1 {
          CodesAgree(f, f', FixedLiterals(), FixedDistances(), input, kind.pos, out);
        } else if kind.value == 2 {
          DynamicAgrees(f, f', input, kind.pos, out);
        }
      }
    }
  }

  // Every stream read ahead is one of the format, with the same output; and every stream
  // of the format with 15 more bits behind it is read ahead.
  lemma {:induction false} StreamAgrees(f: Alphabets, f': Alphabets, input: seq<Byte>, p: nat, out: seq<Byte>)
    requires f.Valid() && f.ValidOrder() && f' == f.(ahead := false) && f'.Valid() && f'.ValidOrder()
    ensures Agrees(Stream(f, input, p, out), Stream(f', input, p, out), input)
    decreases 8 * |input| - p
  {
    if p < 8 * |input| {
      BlocksAgree(f, f', input, p, out);
      var block := BlockAt(f', input, p, out);
      if block.Ok? && block.value.last != 1 {
        StreamAgrees(f, f', input, block.pos, block.value.out);
      }
    }
  }

  // ----------------------------------------------------- codes without slack

  // No more bits are looked at than the code has.
  ghost predicate Tight(lens: seq<nat>, m: nat) {
    Lengths(lens) && forall y: nat, s: nat :: StartsWith(lens, y, s) ==> NeedOf(lens, m, s) <= lens[y]
  }

  // Either succeeds just where the other does, and with the same.
  ghost predicate Alike<T>(a: Parsed<T>, b: Parsed<T>) {
    a.Ok? || b.Ok? ==> a == b
  }

  lemma SymbolSame(m: nat, lens: seq<nat>, input: seq<Byte>, p: nat)
    requires Tight(lens, m)
    ensures Alike(Symbol(m, lens, input, p), Symbol(0, lens, input, p))
  {
  }

  // With such codes nothing is missed, however near the end of the input.
  lemma {:induction false} CodesSame(f: Alphabets, f': Alphabets, lit: seq<nat>, dst: seq<nat>,
                                     input: seq<Byte>, p: nat, out: seq<Byte>)
    requires f.Valid() && f' == f.(ahead := false) && f'.Valid()
    requires Tight(lit, f.LiteralLook(lit)) && Tight(dst, f.DistanceLook())
    ensures Alike(Codes(f, lit, dst, input, p, out), Codes(f', lit, dst, input, p, out))
    decreases 8 * |input| - p
  {
    var y := Symbol(0, lit, input, p);
    SymbolSame(f.LiteralLook(lit), lit, input, p);
    if y.Ok? {
      if y.value < 256 {
        CodesSame(f, f', lit, dst, input, y.pos, out + [y.value]);
      } else if 256 < y.value <= 285 {
        MatchSame(f, f', dst, input, y.value, y.pos);
        var m := MatchAt(f', dst, input, y.value, y.pos);
        if m.Ok? && 1 <= m.value.dist <= |out| {
          CodesSame(f, f', lit, dst, input, m.pos, CopyMatch(out, m.value.dist, m.value.len));
        }
      }
    }
  }

  lemma MatchSame(f: Alphabets, f': Alphabets, dst: seq<nat>, input: seq<Byte>, y: nat, p: nat)
    requires f.Valid() && f' == f.(ahead := false) && f'.Valid() && Tight(dst, f.DistanceLook()) && 257 <= y <= 285
    ensures Alike(MatchAt(f, dst, input, y, p), MatchAt(f', dst, input, y, p))
  {
    hide Symbol, FieldAt, Pow2, Tight;
    var n := Field(input, p, f.lengthExtra[y - 257]);
    if n.Ok? {
      SymbolSame(f.DistanceLook(), dst, input, n.pos);
    }
  }

  lemma {:induction false} CountAppend(a: seq<nat>, b: seq<nat>, k: nat)
    ensures Count(a + b, k) == Count(a, k) + Count(b, k)
  {
    if b == [] {
      assert a + b == a;
    } else {
      CountAppend(a, b[..|b| - 1], k);
      assert (a + b)[..|a + b| - 1] == a + b[..|b| - 1];
    }
  }

  lemma {:induction false} CountSame(lens: seq<nat>, k: nat, n: nat)
    requires forall y :: 0 <= y < |lens| ==> lens[y] == k
    ensures Count(lens, n) == if n == k then |lens| else 0
  {
    if lens != [] {
      CountSame(lens[..|lens| - 1], k, n);
    }
  }

  lemma FixedCounts(n: nat)
    ensures Count(FixedLiterals(), n) == if n == 7 then 24 else if n == 8 then 152 else if n == 9 then 112 else 0
    ensures Count(FixedDistances(), n) == if n == 5 then 30 else 0
  {
    var a, b, c, d := seq(144, _ => 8), seq(112, _ => 9), seq(24, _ => 7), seq(8, _ => 8);
    CountSame(a, 8, n);
    CountSame(b, 9, n);
    CountSame(c, 7, n);
    CountSame(d, 8, n);
    CountAppend(a, b, n);
    CountAppend(a + b, c, n);
    CountAppend(a + b + c, d, n);
    CountSame(FixedDistances(), 5, n);
  }

  // The code of a stream that starts with a symbol's code is as long as that.
  lemma LengthOf(lens: seq<nat>, kmin: nat, g: nat, l: nat, y: nat, s: nat)
    requires ShapedBy(lens, kmin, g) && 1 <= l <= g && StartsWith(lens, y, s)
    ensures ShapeOf(lens, g, l).Valid() && ShapeOf(lens, g, l).LengthAt(Rev(g, s)) == lens[y]
  {
    var sh := ShapeOf(lens, g, l);
    ShapeValid(lens, kmin, g, l);
    CodeOfSymbol(lens, kmin, sh, y, s);
    LengthIs(sh, lens[y], Count(lens[..y], lens[y]), s);
  }

  lemma {:induction false} FewBefore(c: seq<nat>, k: nat)
    requires 1 <= k <= |c| && forall n :: 1 <= n < k ==> c[n] == 0
    ensures First(c, k) == 0
  {
    if k > 1 {
      FewBefore(c, k - 1);
    }
  }

  // Where the codes of the fixed literal/length code end among the strings of 9 bits.
  lemma FixedEnds(sh: Shape)
    requires |sh.c| > 9 && sh.g == 9 && sh.c[7] == 24 && sh.c[8] == 152 && forall n :: 1 <= n < 7 ==> sh.c[n] == 0
    ensures sh.End(7) == 96 && sh.End(8) == 400
  {
    FewBefore(sh.c, 7);
    assert First(sh.c, 8) == 48;
    assert Shl(24, 2) == 96;
    assert Shl(200, 1) == 400;
  }

  lemma FixedShaped(lit: seq<nat>)
    requires lit == FixedLiterals()
    ensures Lengths(lit) && ShapedBy(lit, 7, 9)
  {
    forall n: nat | n <= BMAX
      ensures Counts(lit)[n] == if n == 7 then 24 else if n == 8 then 152 else if n == 9 then 112 else 0
    {
      FixedCounts(n);
    }
    var c := Counts(lit);
    FewBefore(c, 7);
    assert First(c, 8) == 48 && First(c, 9) == 400;
    assert EndOf(lit, 9) == 512 && Pow2(9) == 512;
  }

  // The fixed codes need no more than they have.
  lemma LiteralsTight(lit: seq<nat>)
    requires lit == FixedLiterals()
    ensures Tight(lit, 7)
  {
    FixedShaped(lit);
    forall y: nat, s: nat | StartsWith(lit, y, s) ensures NeedOf(lit, 7, s) <= lit[y] {
      LiteralNeed(lit, y, s);
    }
  }

  lemma LiteralNeed(lit: seq<nat>, y: nat, s: nat)
    requires lit == FixedLiterals() && Lengths(lit) && ShapedBy(lit, 7, 9) && StartsWith(lit, y, s)
    ensures NeedOf(lit, 7, s) <= lit[y]
  {
    var sh := ShapeOf(lit, 9, 7);
    NeedOfShape(lit, 7, 7, 9, s);
    LengthOf(lit, 7, 9, 7, y, s);
    FixedShapeEnds(lit, sh);
    assert 7 <= lit[y] <= 9;
    if lit[y] == 8 {
      LevelIs(7, 8, 7);
      EightNeed(sh, s);
    }
  }

  lemma FixedShapeEnds(lit: seq<nat>, sh: Shape)
    requires lit == FixedLiterals() && Lengths(lit) && ShapedBy(lit, 7, 9) && sh == ShapeOf(lit, 9, 7)
    ensures sh.End(7) == 96 && sh.End(8) == 400
  {
    forall n: nat | n < 9 ensures sh.c[n] == if n == 7 then 24 else if n == 8 then 152 else 0 {
      FixedCounts(n);
      assert Counts(lit)[n] == Count(lit, n);
    }
    FixedEnds(sh);
  }

  // The eight-bit codes share their first seven bits with no longer ones.
  lemma EightNeed(sh: Shape, s: nat)
    requires sh.Valid() && sh.g == 9 && sh.l == 7 && sh.End(7) == 96 && sh.End(8) == 400
    requires sh.LengthAt(Rev(9, s)) == 8 && LevelBelow(7, 8) == 7
    ensures sh.Need(s) <= 8
  {
    hide Rev, Shl, Shr, First;
    var x := Rev(9, s);
    RevBound(9, s);
    sh.EndMono(8, 9);
    sh.LengthUpTo(x, 1, 8);
    Quarter(x);
    sh.LengthUpTo(sh.LastOf(x, 2), 1, 8);
  }

  lemma Quarter(x: nat)
    ensures Shl(Shr(x, 2), 2) + (Pow2(2) - 1) == x / 4 * 4 + 3
  {
    assert Shr(x, 2) == Shr(x / 2, 1) == x / 2 / 2 == x / 4;
    assert Shl(x / 4, 2) == 2 * Shl(x / 4, 1) == 4 * (x / 4);
    assert Pow2(2) == 4;
  }

  lemma DistancesTight(dst: seq<nat>)
    requires dst == FixedDistances()
    ensures Tight(dst, 6)
  {
    forall n: nat | n <= BMAX ensures Counts(dst)[n] == if n == 5 then 30 else 0 {
      FixedCounts(n);
    }
    var c := Counts(dst);
    FewBefore(c, 5);
    assert EndOf(dst, 5) == 30 && Pow2(5) == 32;
    assert ShapedBy(dst, 5, 5);
    forall y: nat, s: nat | StartsWith(dst, y, s) ensures NeedOf(dst, 6, s) <= dst[y] {
      NeedOfShape(dst, 6, 5, 5, s);
      LengthOf(dst, 5, 5, 5, y, s);
    }
  }

  // The streams without blocks that have their own codes.
  ghost predicate OwnNone(f: Alphabets, input: seq<Byte>, p: nat, out: seq<Byte>)
    requires f.Valid() && f.ValidOrder()
    decreases 8 * |input| - p
  {
    p < 8 * |input| ==>
      var block := BlockAt(f, input, p, out);
      && Field(input, p + BFINAL, BTYPE) != Ok(2, p + BFINAL + BTYPE)
      && (block.Ok? && block.value.last != 1 ==> OwnNone(f, input, block.pos, block.value.out))
  }

  lemma BlockSame(f: Alphabets, f': Alphabets, input: seq<Byte>, p: nat, out: seq<Byte>)
    requires f.Valid() && f.ValidOrder() && f.ahead && f' == f.(ahead := false) && f'.Valid() && f'.ValidOrder()
    requires Field(input, p + BFINAL, BTYPE) != Ok(2, p + BFINAL + BTYPE)
    ensures Alike(BlockAt(f, input, p, out), BlockAt(f', input, p, out))
  {
    var last := Field(input, p, BFINAL);
    if last.Ok? {
      var kind := Field(input, last.pos, BTYPE);
      if kind.Ok? && kind.value == 1 {
        LiteralsTight(FixedLiterals());
        DistancesTight(FixedDistances());
        CodesSame(f, f', FixedLiterals(), FixedDistances(), input, kind.pos, out);
      }
    }
  }

  // Streams of stored blocks and of blocks with the fixed codes are read ahead without
  // any slack.
  lemma {:induction false} StreamSame(f: Alphabets, f': Alphabets, input: seq<Byte>, p: nat, out: seq<Byte>)
    requires f.Valid() && f.ValidOrder() && f.ahead && f' == f.(ahead := false) && f'.Valid() && f'.ValidOrder()
    requires OwnNone(f', input, p, out)
    ensures Alike(Stream(f, input, p, out), Stream(f', input, p, out))
    decreases 8 * |input| - p
  {
    if p < 8 * |input| {
      BlockSame(f, f', input, p, out);
      var block := BlockAt(f', input, p, out);
      if block.Ok? && block.value.last != 1 {
        StreamSame(f, f', input, block.pos, block.value.out);
      }
    }
  }

  // ------------------------------------------------------- codes with slack

  // A complete code set with two literals of two bits and a one-bit end of block.
  function QuickEnd(): seq<nat> {
    [2, 2] + seq(254, _ => 0) + [1]
  }

  lemma QuickCounts(lit: seq<nat>, n: nat)
    requires lit == QuickEnd()
    ensures Count(lit, n) == if n == 1 then 1 else if n == 2 then 2 else if n == 0 then 254 else 0
    ensures Count(lit[..256], 1) == 0
  {
    var a, b, c := [2, 2], seq(254, _ => 0), [1];
    CountSame(a, 2, n);
    CountSame(b, 0, n);
    CountSame(c, 1, n);
    CountAppend(a, b, n);
    CountAppend(a + b, c, n);
    assert lit[..256] == a + b;
    CountSame(a, 2, 1);
    CountSame(b, 0, 1);
    CountAppend(a, b, 1);
  }

  lemma QuickShaped(lit: seq<nat>)
    requires lit == QuickEnd()
    ensures Lengths(lit) && ShapedBy(lit, 1, 2) && Usable(lit)
  {
    forall n: nat | n <= BMAX
      ensures Count(lit, n) == if n == 1 then 1 else if n == 2 then 2 else if n == 0 then 254 else 0
    {
      QuickCounts(lit, n);
    }
    ThreeCodes(lit);
  }

  // A code of one bit and two of two bits are complete.
  lemma ThreeCodes(lens: seq<nat>)
    requires Lengths(lens) && |lens| >= 3
    requires forall n: nat :: n <= BMAX ==>
      Count(lens, n) == if n == 1 then 1 else if n == 2 then 2 else if n == 0 then |lens| - 3 else 0
    ensures ShapedBy(lens, 1, 2) && Usable(lens)
  {
    var c := Counts(lens);
    assert First(c, 1) == 0 && First(c, 2) == 2;
    assert EndOf(lens, 2) == 4 && Pow2(2) == 4;
    KraftAtMax(lens, 2);
  }

  // With one zero bit left, which is the end of the block, the table still asks for two:
  // the block is over in the format, and cannot be read ahead.
  lemma EndOutOfReach(f: Alphabets, f': Alphabets, lit: seq<nat>, dst: seq<nat>, input: seq<Byte>, p: nat,
                      out: seq<Byte>)
    requires f.Looking() && f' == f.(ahead := false) && f'.Valid() && lit == QuickEnd()
    requires p + 1 == 8 * |input| && Rest(input, p) == 0
    ensures Codes(f', lit, dst, input, p, out) == Ok(out, p + 1)
    ensures Codes(f, lit, dst, input, p, out).Bad?
  {
    QuickShaped(lit);
    QuickCounts(lit, 1);
    var s := Rest(input, p);
    RevZero(1);
    assert Counts(lit)[1] == 1;
    assert StartsWith(lit, 256, s);
    assert SymbolAt(lit, input, p, 256);
    forall y: nat | SymbolAt(lit, input, p, y) ensures y == 256 {
      SymbolUnique(lit, 1, 2, y, 256, s);
    }
    NeedOfShape(lit, 9, 1, 2, s);
    LengthOf(lit, 1, 2, 2, 256, s);
  }

  // The widths of the tables: 9 bits for a block's own literal/length codes, 6 for its distance
  // codes and 7 for the code of its lengths. A shorter code is found as long as there are
  // that many bits, if there are longer ones.
  lemma WidthNeeded(f: Alphabets, lens: seq<nat>, kmin: nat, g: nat, input: seq<Byte>, p: nat, y: nat)
    requires f.Looking() && ShapedBy(lens, kmin, g) && SymbolAt(lens, input, p, y)
    ensures kmin <= 9 <= g && lens[y] <= 9 && |lens| != 288 ==>
      (Symbol(f.LiteralLook(lens), lens, input, p).Ok? <==> p + 9 <= 8 * |input|)
    ensures kmin <= 6 <= g && lens[y] <= 6 ==>
      (Symbol(f.DistanceLook(), lens, input, p).Ok? <==> p + 6 <= 8 * |input|)
    ensures kmin <= 7 <= g && lens[y] <= 7 ==>
      (Symbol(f.CodeLook(), lens, input, p).Ok? <==> p + 7 <= 8 * |input|)
  {
    if kmin <= 9 <= g { WidthNeed(lens, kmin, g, 9, input, p, y); }
    if kmin <= 6 <= g { WidthNeed(lens, kmin, g, 6, input, p, y); }
    if kmin <= 7 <= g { WidthNeed(lens, kmin, g, 7, input, p, y); }
  }

  lemma WidthNeed(lens: seq<nat>, kmin: nat, g: nat, m: nat, input: seq<Byte>, p: nat, y: nat)
    requires ShapedBy(lens, kmin, g) && SymbolAt(lens, input, p, y) && kmin <= m <= g && m > 0
    ensures lens[y] <= m ==> (Symbol(m, lens, input, p).Ok? <==> p + m <= 8 * |input|)
  {
    NeedOfShape(lens, m, kmin, g, Rest(input, p));
    LengthOf(lens, kmin, g, m, y, Rest(input, p));
  }

  // ------------------------------------------------- memory never written

  // With two lengths of which only the first is given, which is a code set that may be used,
  // a bit that is one leads to a slot of v[] never written.
  lemma LoneCodeUnwritten(lens: seq<nat>, look: nat, input: seq<Byte>, p: nat)
    requires lens == [1, 0] && p < 8 * |input| && FieldAt(input, p, 1) == 1
    ensures Usable(lens) && Symbol(look, lens, input, p) == Bad(Undefined)
  {
    var s := Rest(input, p);
    LoneCounts(lens);
    KraftAtMax(lens, 1);
    assert s % 2 == 1 by { assert Low(s, 1) == s % 2 + 2 * Low(s / 2, 0); }
    UsedTotal(lens);
    UnwrittenSpans(lens, 1, 1, s);
    assert Rev(1, s) == 1;
    forall y: nat ensures !SymbolAt(lens, input, p, y) {
      if y == 0 { assert CodeOf(lens, 0) == 0; }
    }
    if look > 0 { LoneNeed(lens, look, s); }
  }

  lemma LoneCounts(lens: seq<nat>)
    requires lens == [1, 0]
    ensures Lengths(lens) && ShapedBy(lens, 1, 1) && EndOf(lens, 1) == 1 && Count(lens, 0) == 1
    ensures First(Counts(lens), 1) == 0 && Count(lens[..0], 1) == 0
  {
    forall n: nat ensures Count(lens, n) == if n <= 1 then 1 else 0 {
      assert lens[..1] == [1] && lens[..1][..0] == [];
    }
    assert Pow2(1) == 2;
  }

  lemma LoneNeed(lens: seq<nat>, look: nat, s: nat)
    requires lens == [1, 0] && Lengths(lens) && ShapedBy(lens, 1, 1) && look > 0
    ensures NeedOf(lens, look, s) == 1
  {
    NeedOfShape(lens, look, 1, 1, s);
  }
}
