// A whole stream that RFC 1951 decodes and the boot loader does not.
module LastBit {
  import opened Ahead
  import opened Bits
  import opened Canonical
  import opened CodeLengths
  import opened Deflate
  import opened HuftDecode

  // One last block with its own codes: two literals of two bits and a one-bit end of block,
  // a single distance, and then the end of the block, which is the last bit there is.
  const SAMPLE: seq<Byte> := [5, 192, 129, 0, 0, 0, 0, 128, 160, 247, 151, 46]

  lemma Number(input: seq<Byte>)
    requires input == SAMPLE
    ensures Rest(input, 0) == 14420027635767374799479881733
  {
    assert AsNumber(input[11..]) == 46;
    assert AsNumber(input[10..]) == 11927;
    assert AsNumber(input[9..]) == 3053559;
    assert AsNumber(input[8..]) == 781711264;
    assert AsNumber(input[7..]) == 200118083712;
    assert AsNumber(input[6..]) == 51230229430272;
    assert AsNumber(input[5..]) == 13114938734149632;
    assert AsNumber(input[4..]) == 3357424315942305792;
    assert AsNumber(input[3..]) == 859500624881230282752;
    assert AsNumber(input[2..]) == 220032159969594952384641;
    assert AsNumber(input[1..]) == 56328232952216307810468288;
    assert AsNumber(input[0..]) == 14420027635767374799479881733;
    assert input[0..] == input;
  }

  // Its head: 257 literals and lengths, one distance, 18 code lengths.
  lemma HeadRead(input: seq<Byte>)
    requires Rest(input, 0) == 14420027635767374799479881733
    ensures FieldAt(input, 0, 1) == 1 && FieldAt(input, 1, 2) == 2
    ensures FieldAt(input, 3, 5) == 0 && FieldAt(input, 8, 5) == 0 && FieldAt(input, 13, 4) == 14
    ensures Rest(input, 17) == 110016079984797476192320
  {
    Take(input, 0, 1, 14420027635767374799479881733, 1, 7210013817883687399739940866);
    Take(input, 1, 2, 7210013817883687399739940866, 2, 1802503454470921849934985216);
    Take(input, 3, 5, 1802503454470921849934985216, 0, 56328232952216307810468288);
    Take(input, 8, 5, 56328232952216307810468288, 0, 1760257279756759619077134);
    Take(input, 13, 4, 1760257279756759619077134, 14, 110016079984797476192320);
  }

  lemma CodeLengths1(input: seq<Byte>)
    requires Rest(input, 17) == 110016079984797476192320
    ensures forall i: nat :: 0 <= i < 6 ==> FieldAt(input, 17 + 3 * i, 3) == if i == 2 then 1 else 0
    ensures Rest(input, 35) == 419678039492788224
  {
    Take(input, 17, 3, 110016079984797476192320, 0, 13752009998099684524040);
    Take(input, 20, 3, 13752009998099684524040, 0, 1719001249762460565505);
    Take(input, 23, 3, 1719001249762460565505, 1, 214875156220307570688);
    Take(input, 26, 3, 214875156220307570688, 0, 26859394527538446336);
    Take(input, 29, 3, 26859394527538446336, 0, 3357424315942305792);
    Take(input, 32, 3, 3357424315942305792, 0, 419678039492788224);
  }

  lemma CodeLengths2(input: seq<Byte>)
    requires Rest(input, 35) == 419678039492788224
    ensures forall i: nat :: 6 <= i < 12 ==> FieldAt(input, 17 + 3 * i, 3) == 0
    ensures Rest(input, 53) == 1600944669696
  {
    Take(input, 35, 3, 419678039492788224, 0, 52459754936598528);
    Take(input, 38, 3, 52459754936598528, 0, 6557469367074816);
    Take(input, 41, 3, 6557469367074816, 0, 819683670884352);
    Take(input, 44, 3, 819683670884352, 0, 102460458860544);
    Take(input, 47, 3, 102460458860544, 0, 12807557357568);
    Take(input, 50, 3, 12807557357568, 0, 1600944669696);
  }

  lemma CodeLengths3(input: seq<Byte>)
    requires Rest(input, 53) == 1600944669696
    ensures forall i: nat :: 12 <= i < 18 ==> FieldAt(input, 17 + 3 * i, 3) == if i == 15 || i == 17 then 2 else 0
    ensures Rest(input, 71) == 6107119
  {
    Take(input, 53, 3, 1600944669696, 0, 200118083712);
    Take(input, 56, 3, 200118083712, 0, 25014760464);
    Take(input, 59, 3, 25014760464, 0, 3126845058);
    Take(input, 62, 3, 3126845058, 2, 390855632);
    Take(input, 65, 3, 390855632, 0, 48856954);
    Take(input, 68, 3, 48856954, 2, 6107119);
  }

  // The code of the code lengths: 18 has one bit, 1 and 2 have two.
  function LengthsCode(): seq<nat> {
    [0] + [2, 2] + seq(15, _ => 0) + [1]
  }

  lemma CodeRead(input: seq<Byte>, order: seq<nat>)
    requires Rest(input, 17) == 110016079984797476192320
    requires order == [16, 17, 18, 0, 8, 7, 9, 6, 10, 5, 11, 4, 12, 3, 13, 2, 14, 1, 15]
    ensures forall i :: 0 <= i < 19 ==> order[i] < 19
    ensures CodeLengthCode(order, input, 17, 18) == LengthsCode() && Rest(input, 71) == 6107119
  {
    CodeLengths1(input);
    CodeLengths2(input);
    CodeLengths3(input);
    OrderApart(order);
    OrderFull(order);
    var cl := CodeLengthCode(order, input, 17, 18);
    forall x: nat | x < 19 ensures cl[x] == LengthsCode()[x] {
      LengthRead(input, order, x);
    }
  }

  // Length x, given the 18 fields.
  lemma LengthRead(input: seq<Byte>, order: seq<nat>, x: nat)
    requires order == [16, 17, 18, 0, 8, 7, 9, 6, 10, 5, 11, 4, 12, 3, 13, 2, 14, 1, 15] && x < 19 && x in order
    requires (forall i :: 0 <= i < 19 ==> order[i] < 19) && forall i, j :: 0 <= i < j < 19 ==> order[i] != order[j]
    requires forall i: nat :: i < 18 ==>
      FieldAt(input, 17 + 3 * i, 3) == if i == 2 then 1 else if i == 15 || i == 17 then 2 else 0
    ensures CodeLengthCode(order, input, 17, 18)[x] == LengthsCode()[x]
  {
    hide CodeLengthCode, FieldAt;
    var i :| 0 <= i < 19 && order[i] == x;
    CodeLengthAt(order, input, 17, 18, i);
    OrderIs(order, i);
    CodeIs(x);
  }

  // The places of these symbols in the order of the format.
  lemma OrderIs(order: seq<nat>, i: nat)
    requires order == [16, 17, 18, 0, 8, 7, 9, 6, 10, 5, 11, 4, 12, 3, 13, 2, 14, 1, 15] && i < 19
    ensures (order[i] == 18 <==> i == 2) && (order[i] == 2 <==> i == 15) && (order[i] == 1 <==> i == 17)
  {
  }

  lemma CodeIs(x: nat)
    requires x < 19
    ensures |LengthsCode()| == 19 && LengthsCode()[x] == if x == 18 then 1 else if x == 1 || x == 2 then 2 else 0
  {
  }

  lemma CodeShaped(cl: seq<nat>)
    requires cl == LengthsCode()
    ensures |cl| == 19 && Lengths(cl) && ShapedBy(cl, 1, 2) && Usable(cl)
    ensures cl[18] == 1 && cl[1] == 2 == cl[2]
    ensures CodeOf(cl, 18) == 0 && CodeOf(cl, 1) == 2 && CodeOf(cl, 2) == 3
  {
    forall n: nat | n <= BMAX
      ensures Count(cl, n) == if n == 1 then 1 else if n == 2 then 2 else if n == 0 then 16 else 0
    {
      CodeCounts(n);
    }
    ThreeCodes(cl);
    var c := Counts(cl);
    assert First(c, 1) == 0 && First(c, 2) == 2;
    CodeCounts(1);
    assert cl[..1] == [0] && cl[..2] == [0, 2];
    assert Count([0], 2) == 0 && Count([0, 2], 2) == 1 by { assert [0, 2][..1] == [0] && [0][..0] == []; }
  }

  lemma CodeCounts(n: nat)
    ensures Count(LengthsCode(), n) == if n == 1 then 1 else if n == 2 then 2 else if n == 0 then 16 else 0
    ensures Count(LengthsCode()[..18], 1) == 0
  {
    var a, b, c, d := [0], [2, 2], seq(15, _ => 0), [1];
    CountParts(a, b, c, d, n);
    CountParts(a, b, c, [], 1);
    assert LengthsCode()[..18] == a + b + c + [];
  }

  lemma CountParts(a: seq<nat>, b: seq<nat>, c: seq<nat>, d: seq<nat>, n: nat)
    requires a == [0] && b == [2, 2] && c == seq(15, _ => 0) && (d == [1] || d == [])
    ensures Count(a + b + c + d, n) == if n == 1 then |d| else if n == 2 then 2 else if n == 0 then 16 else 0
  {
    CountSame(a, 0, n);
    CountSame(b, 2, n);
    CountSame(c, 0, n);
    CountSame(d, 1, n);
    CountAppend(a, b, n);
    CountAppend(a + b, c, n);
    CountAppend(a + b + c, d, n);
  }

  // A symbol of that code at p, whose first bits are those of v.
  lemma CodeAt(input: seq<Byte>, cl: seq<nat>, p: nat, v: nat, y: nat)
    requires cl == LengthsCode() && Rest(input, p) == v && p + 2 <= 8 * |input|
    requires if v % 2 == 0 then y == 18 else if v % 4 == 1 then y == 1 else y == 2
    ensures Symbol(0, cl, input, p) == Ok(y, p + if y == 18 then 1 else 2)
  {
    CodeShaped(cl);
    hide LengthsCode, Rest, CodeOf;
    assert Rev(1, v) == v % 2 && Rev(2, v) == 2 * (v % 2) + v / 2 % 2;
    assert StartsWith(cl, y, v) && SymbolAt(cl, input, p, y);
    forall z: nat | SymbolAt(cl, input, p, z) ensures z == y {
      SymbolUnique(cl, 1, 2, z, y, v);
    }
  }

  // The lengths read from p on, after ls, and what is left to read.
  ghost predicate Listed(input: seq<Byte>, cl: seq<nat>, p: nat, v: nat, ls: seq<nat>, all: Parsed<seq<nat>>) {
    |input| == 12 && cl == LengthsCode() && Rest(input, p) == v
    && |ls| <= 258 && LengthList(0, cl, 258, input, p, ls) == all
  }

  // One length, and a run of zeros.
  lemma OneLength(input: seq<Byte>, cl: seq<nat>, p: nat, v: nat, w: nat, y: nat, ls: seq<nat>, all: Parsed<seq<nat>>)
    requires Listed(input, cl, p, v, ls, all) && (y == 1 || y == 2) && v == 2 * y - 1 + 4 * w
    requires p + 2 <= 96 && |ls| < 258
    ensures Listed(input, cl, p + 2, w, ls + [y], all)
  {
    hide LengthsCode, Rest, Symbol;
    CodeAt(input, cl, p, v, y);
    assert Shl(w, 2) == 2 * Shl(w, 1) == 4 * w && Pow2(2) == 4;
    Take(input, p, 2, v, 2 * y - 1, w);
  }

  lemma ZeroLengths(input: seq<Byte>, cl: seq<nat>, p: nat, v: nat, n: nat, w: nat, ls: seq<nat>,
                    all: Parsed<seq<nat>>)
    requires Listed(input, cl, p, v, ls, all) && v == 2 * (n + Shl(w, 7)) && n < 128
    requires p + 8 <= 96 && |ls| + 11 + n <= 258
    ensures Listed(input, cl, p + 8, w, ls + Repeat(0, 11 + n), all)
  {
    hide LengthsCode, Rest, Symbol;
    CodeAt(input, cl, p, v, 18);
    var u := n + Shl(w, 7);
    assert Shl(u, 1) == v && Pow2(1) == 2 && Pow2(7) == 128;
    Take(input, p, 1, v, 0, u);
    Take(input, p + 1, 7, u, n, w);
  }

  // The literal lengths, and one distance.
  lemma ListRead(input: seq<Byte>, cl: seq<nat>)
    requires |input| == 12 && cl == LengthsCode() && Rest(input, 71) == 6107119
    ensures AllLengths(0, cl, 258, input, 71) == Ok(QuickEnd() + [1], 95)
    ensures Rest(input, 95) == 0
  {
    var all := AllLengths(0, cl, 258, input, 71);
    assert Listed(input, cl, 71, 6107119, [], all);
    var c := [] + [2] + [2] + Repeat(0, 138) + Repeat(0, 116);
    ListStart(input, cl, all);
    QuickIs(c);
    ListRest(input, cl, c, all);
    ListEnd(input, cl, c + [1] + [1], all);
  }

  lemma ListStart(input: seq<Byte>, cl: seq<nat>, all: Parsed<seq<nat>>)
    requires Listed(input, cl, 71, 6107119, [], all)
    ensures Listed(input, cl, 91, 5, [] + [2] + [2] + Repeat(0, 138) + Repeat(0, 116), all)
  {
    ShlFacts();
    var a := [] + [2] + [2];
    var b := a + Repeat(0, 138);
    assert |b| == 140;
    hide *;
    OneLength(input, cl, 71, 6107119, 1526779, 2, [], all);
    OneLength(input, cl, 73, 1526779, 381694, 2, [] + [2], all);
    ZeroLengths(input, cl, 75, 381694, 127, 1490, a, all);
    ZeroLengths(input, cl, 83, 1490, 105, 5, b, all);
  }

  lemma ListRest(input: seq<Byte>, cl: seq<nat>, c: seq<nat>, all: Parsed<seq<nat>>)
    requires Listed(input, cl, 91, 5, c, all) && |c| == 256
    ensures Listed(input, cl, 95, 0, c + [1] + [1], all)
  {
    hide *;
    OneLength(input, cl, 91, 5, 1, 1, c, all);
    OneLength(input, cl, 93, 1, 0, 1, c + [1], all);
  }

  lemma ShlFacts()
    ensures Shl(1490, 7) == 190720 && Shl(5, 7) == 640
  {
  }

  lemma QuickIs(c: seq<nat>)
    requires c == [] + [2] + [2] + Repeat(0, 138) + Repeat(0, 116)
    ensures c + [1] == QuickEnd() && |c| == 256
  {
  }

  lemma ListEnd(input: seq<Byte>, cl: seq<nat>, ls: seq<nat>, all: Parsed<seq<nat>>)
    requires Listed(input, cl, 95, 0, ls, all) && |ls| == 258
    ensures all == Ok(ls, 95) && Rest(input, 95) == 0
  {
  }

  lemma SetsRead(input: seq<Byte>, order: seq<nat>)
    requires |input| == 12 && Rest(input, 17) == 110016079984797476192320
    requires order == [16, 17, 18, 0, 8, 7, 9, 6, 10, 5, 11, 4, 12, 3, 13, 2, 14, 1, 15]
    ensures forall i :: 0 <= i < 19 ==> order[i] < 19
    ensures SetLengthsAt(0, order, Head(257, 1, 18), input, 17) == Ok(QuickEnd() + [1], 95)
    ensures CodeSetsAt(0, order, Head(257, 1, 18), input, 17) == Ok(CodeSets(QuickEnd(), [1]), 95)
    ensures Rest(input, 95) == 0
  {
    var lit, cl := QuickEnd(), LengthsCode();
    CodeRead(input, order);
    CodeShaped(cl);
    ListRead(input, cl);
    QuickShaped(lit);
    LoneDistance();
    SetsAre(lit);
    hide QuickEnd, LengthsCode, Usable, AllLengths, CodeLengthCode, Rest;
    assert SetLengthsAt(0, order, Head(257, 1, 18), input, 17) == AllLengths(0, cl, 258, input, 71);
  }

  lemma SetsAre(lit: seq<nat>)
    requires lit == QuickEnd()
    ensures |lit| == 257 && (lit + [1])[..257] == lit && (lit + [1])[257..] == [1]
  {
  }

  lemma LoneDistance()
    ensures Usable([1])
  {
    assert [1][..0] == [] && Kraft([]) == 0;
    Pow2Mono(15, 16);
    assert Pow2(16) == 2 * Pow2(15);
  }

  // The block, in the format and looked up ahead.
  lemma BlockRead(input: seq<Byte>, f: Alphabets, f': Alphabets)
    requires |input| == 12 && Rest(input, 0) == 14420027635767374799479881733
    requires f.Looking() && f.ValidOrder() && f' == f.(ahead := false) && f'.Valid() && f'.ValidOrder()
    requires f.order == [16, 17, 18, 0, 8, 7, 9, 6, 10, 5, 11, 4, 12, 3, 13, 2, 14, 1, 15]
    ensures BlockAt(f', input, 0, []) == Ok(BlockEnd(1, []), 96)
    ensures BlockAt(f, input, 0, []).Bad?
  {
    HeadRead(input);
    HeadIs(input);
    SetsRead(input, f.order);
    hide QuickEnd, Rest, CodeSetsAt, SetLengthsAt, Codes, HeadAt;
    EndOutOfReach(f, f', QuickEnd(), [1], input, 95, []);
    SetsAgree(f, Head(257, 1, 18), input, 17);
    BlockFrom(input, f, f');
  }

  lemma HeadIs(input: seq<Byte>)
    requires |input| == 12
    requires FieldAt(input, 3, 5) == 0 && FieldAt(input, 8, 5) == 0 && FieldAt(input, 13, 4) == 14
    ensures HeadAt(input, 3) == Ok(Head(257, 1, 18), 17)
  {
    hide FieldAt;
  }

  lemma BlockFrom(input: seq<Byte>, f: Alphabets, f': Alphabets)
    requires |input| == 12 && FieldAt(input, 0, 1) == 1 && FieldAt(input, 1, 2) == 2
    requires f.Looking() && f.ValidOrder() && f' == f.(ahead := false) && f'.Valid() && f'.ValidOrder()
    requires HeadAt(input, 3) == Ok(Head(257, 1, 18), 17)
    requires CodeSetsAt(0, f.order, Head(257, 1, 18), input, 17) == Ok(CodeSets(QuickEnd(), [1]), 95)
    requires Agrees(SetLengthsAt(f.CodeLook(), f.order, Head(257, 1, 18), input, 17),
                    SetLengthsAt(0, f.order, Head(257, 1, 18), input, 17), input)
    requires Codes(f', QuickEnd(), [1], input, 95, []) == Ok([], 96)
    requires Codes(f, QuickEnd(), [1], input, 95, []).Bad?
    ensures BlockAt(f', input, 0, []) == Ok(BlockEnd(1, []), 96)
    ensures BlockAt(f, input, 0, []).Bad?
  {
    hide QuickEnd, FieldAt, SetLengthsAt, Codes, Usable, HeadAt;
    assert Dynamic(f', input, 3, []) == Ok([], 96);
    assert Dynamic(f, input, 3, []).Bad?;
  }

  // The stream is one of the format, without output; the decoder has one bit too few to look
  // up the last code.
  lemma LastBitOutOfReach()
    ensures RFC.Valid() && RFC.ValidOrder() && LOOKING.Looking() && LOOKING.ValidOrder()
    ensures Stream(RFC, SAMPLE, 0, []) == Ok([], 96)
    ensures Stream(LOOKING, SAMPLE, 0, []).Bad?
  {
    RfcValid();
    LookingValid();
    StreamRead(SAMPLE, LOOKING, RFC);
  }

  lemma StreamRead(input: seq<Byte>, f: Alphabets, f': Alphabets)
    requires input == SAMPLE && f == LOOKING && f' == RFC
    requires f.Looking() && f.ValidOrder() && f'.Valid() && f'.ValidOrder()
    ensures Stream(f', input, 0, []) == Ok([], 96)
    ensures Stream(f, input, 0, []).Bad?
  {
    Number(input);
    BlockRead(input, f, f');
  }
}
