// The DEFLATE format of RFC 1951 as a function of the bits: what a stream
// decodes to. The decoder of inflate.c is proved against it.
module Deflate {
  import opened Bits
  import opened CodeLengths
  import opened Canonical

  // The input as one number, first byte lowest, so that the bits come in the
  // order of section 3.1.1: from the lowest bit of the first byte on.
  function AsNumber(input: seq<Byte>): nat {
    if input == [] then 0 else input[0] + 256 * AsNumber(input[1..])
  }

  // The stream from bit p on.
  function Rest(input: seq<Byte>, p: nat): nat {
    Shr(AsNumber(input), p)
  }

  // How a function of inflate.c ends: it returns a value; it halts in error(), out of
  // input or on an incomplete code; or it reads memory never written.
  datatype Status = Ret(r: nat) | Halted | Undefined

  // What is read, and where it ends; or how reading it ends without success: that is the
  // decoder's way, the format knows only that there is nothing to be read.
  datatype Parsed<+T> = Ok(value: T, pos: nat) | Bad(why: Status)

  // The n bits from bit p on, as a number, lowest bit first.
  function FieldAt(input: seq<Byte>, p: nat, n: nat): nat {
    Low(Rest(input, p), n)
  }

  // The bits from p on are the number v: n of them stand for x, and the others for w.
  lemma Take(input: seq<Byte>, p: nat, n: nat, v: nat, x: nat, w: nat)
    requires Rest(input, p) == v == x + Shl(w, n) && x < Pow2(n)
    ensures FieldAt(input, p, n) == x && Rest(input, p + n) == w
  {
    Join(x, w, n);
    ShrShr(AsNumber(input), p, n);
  }

  // An n-bit field of the input.
  function Field(input: seq<Byte>, p: nat, n: nat): (r: Parsed<nat>)
    ensures r.Ok? ==> r.pos == p + n
  {
    if p + n <= 8 * |input| then Ok(FieldAt(input, p, n), p + n) else Bad(Halted)
  }

  // The next code of a set of codes, which names a symbol.
  ghost predicate SymbolAt(lens: seq<nat>, input: seq<Byte>, p: nat, y: nat) {
    Lengths(lens) && StartsWith(lens, y, Rest(input, p)) && p + lens[y] <= 8 * |input|
  }

  // Whether the input has all the bits that are looked at for the next code, in tables
  // of the wanted width `look`. The format itself, with width 0, does not look ahead.
  ghost predicate Looked(look: nat, lens: seq<nat>, input: seq<Byte>, p: nat) {
    look > 0 ==> p + NeedOf(lens, look, Rest(input, p)) <= 8 * |input|
  }

  ghost function Symbol(look: nat, lens: seq<nat>, input: seq<Byte>, p: nat): (r: Parsed<nat>)
    ensures r.Ok? ==> SymbolAt(lens, input, p, r.value) && r.pos == p + lens[r.value] > p
  {
    if !Looked(look, lens, input, p) then Bad(Halted)
    else if exists y: nat :: SymbolAt(lens, input, p, y) then
      var y: nat :| SymbolAt(lens, input, p, y);
      Ok(y, p + lens[y])
    else Bad(NoCode(lens, Rest(input, p)))
  }

  // What comes of a string that starts with no code.
  ghost function NoCode(lens: seq<nat>, s: nat): Status {
    if Lengths(lens) && Unwritten(lens, s) then Undefined else Ret(1)
  }

  // Section 3.2.3: a match repeats what was written `dist` bytes ago.
  function CopyMatch(out: seq<Byte>, dist: nat, len: nat): (r: seq<Byte>)
    requires 1 <= dist <= |out|
    ensures |r| == |out| + len && out <= r
    decreases len
  {
    if len == 0 then out else CopyMatch(out + [out[|out| - dist]], dist, len - 1)
  }

  lemma {:induction false} CopyAt(out: seq<Byte>, dist: nat, len: nat, i: nat)
    requires 1 <= dist <= |out| && i < len
    ensures CopyMatch(out, dist, len)[|out| + i] == CopyMatch(out, dist, len)[|out| + i - dist]
    decreases len
  {
    var next := out + [out[|out| - dist]];
    if i == 0 {
      assert CopyMatch(out, dist, len)[|out|] == next[|out|];
      assert CopyMatch(out, dist, len)[|out| - dist] == next[|out| - dist];
    } else {
      CopyAt(next, dist, len - 1, i - 1);
    }
  }

  // Section 3.2.5: base values and numbers of extra bits of the length symbols
  // from 257 on and of the distance symbols. Length entries past symbol 285 stand
  // for symbols that may not occur. And, from section 3.2.7, the order in which the
  // lengths of the code-length code come.
  // `ahead` says whether the codes are looked up ahead in tables, which fails where the
  // input ends too early, though not within the code.
  datatype Alphabets = Alphabets(lengthBase: seq<nat>, lengthExtra: seq<nat>, distBase: seq<nat>, distExtra: seq<nat>,
                                 order: seq<nat>, ahead: bool)
  {
    // The widths wanted of the tables. The fixed literal/length code, the only one of 288
    // symbols, has narrower ones.
    function LiteralLook(lit: seq<nat>): nat {
      if !ahead then 0 else if |lit| == 288 then 7 else 9
    }

    function DistanceLook(): nat {
      if ahead then 6 else 0
    }

    function CodeLook(): nat {
      if ahead then 7 else 0
    }

    ghost predicate Looking() {
      Valid() && ahead
    }

    ghost predicate ValidLengths() {
      && |lengthBase| == |lengthExtra| == 31
      && (forall i :: 0 <= i < 29 ==> lengthExtra[i] <= 5 && lengthBase[i] >= 3)
      && lengthExtra[29] == 99 && lengthExtra[30] == 99
    }

    ghost predicate ValidDistances() {
      && |distBase| == |distExtra| == 30
      && (forall z :: 0 <= z < 30 ==> distExtra[z] <= 13 && 1 <= distBase[z])
      && (forall z :: 0 <= z < 30 ==> distBase[z] + Pow2(distExtra[z]) <= 0x8001)
    }

    ghost predicate ValidOrder() {
      && |order| == 19
      && (forall i :: 0 <= i < 19 ==> order[i] < 19)
      && (forall i, j :: 0 <= i < j < 19 ==> order[i] != order[j])
      && (forall x :: 0 <= x < 19 ==> x in order)
    }

    ghost predicate Valid() {
      ValidLengths() && ValidDistances()
    }
  }

  const RFC: Alphabets := Alphabets(
    [3, 4, 5, 6, 7, 8, 9, 10, 11, 13, 15, 17, 19, 23, 27, 31,
     35, 43, 51, 59, 67, 83, 99, 115, 131, 163, 195, 227, 258, 0, 0],
    [0, 0, 0, 0, 0, 0, 0, 0, 1, 1, 1, 1, 2, 2, 2, 2,
     3, 3, 3, 3, 4, 4, 4, 4, 5, 5, 5, 5, 0, 99, 99],
    [1, 2, 3, 4, 5, 7, 9, 13, 17, 25, 33, 49, 65, 97, 129, 193,
     257, 385, 513, 769, 1025, 1537, 2049, 3073, 4097, 6145,
     8193, 12289, 16385, 24577],
    [0, 0, 0, 0, 1, 1, 2, 2, 3, 3, 4, 4, 5, 5, 6, 6,
     7, 7, 8, 8, 9, 9, 10, 10, 11, 11,
     12, 12, 13, 13],
    [16, 17, 18, 0, 8, 7, 9, 6, 10, 5, 11, 4, 12, 3, 13, 2, 14, 1, 15],
    false)

  // The format as it is read by looking codes up in tables.
  const LOOKING: Alphabets := RFC.(ahead := true)

  // The ranges of consecutive symbols meet, from 3 to 258, and 258 has its own symbol.
  lemma LengthsMeet()
    ensures RFC.lengthBase[0] == 3 && RFC.lengthBase[28] == 258
    ensures forall i :: 0 <= i < 27 ==> RFC.lengthBase[i + 1] == RFC.lengthBase[i] + Pow2(RFC.lengthExtra[i])
    ensures RFC.lengthBase[27] + Pow2(RFC.lengthExtra[27]) == 259
  {
    Powers();
  }

  // The symbol z, with its extra bits, stands for d among others.
  ghost predicate Covers(base: seq<nat>, extra: seq<nat>, z: nat, d: nat) {
    z < |base| && z < |extra| && base[z] <= d < base[z] + Pow2(extra[z])
  }

  // Of n ranges that meet just one covers each number from first to last.
  lemma {:induction false} OneCovers(base: seq<nat>, extra: seq<nat>, n: nat, d: nat) returns (z: nat)
    requires 0 < n <= |base| && n <= |extra| && base[0] <= d < base[n - 1] + Pow2(extra[n - 1])
    requires forall z :: 0 <= z < n - 1 ==> base[z + 1] == base[z] + Pow2(extra[z])
    ensures z < n && Covers(base, extra, z, d)
    ensures forall y: nat :: y < n && Covers(base, extra, y, d) ==> y == z
  {
    if n == 1 {
      z := 0;
    } else if d >= base[n - 1] {
      z := n - 1;
      Below(base, extra, n - 1);
    } else {
      z := OneCovers(base, extra, n - 1, d);
    }
  }

  lemma {:induction false} Below(base: seq<nat>, extra: seq<nat>, n: nat)
    requires 0 < n < |base| && n < |extra|
    requires forall z :: 0 <= z < n ==> base[z + 1] == base[z] + Pow2(extra[z])
    ensures forall y :: 0 <= y < n ==> base[y] + Pow2(extra[y]) <= base[n]
  {
    if n > 1 { Below(base, extra, n - 1); }
  }

  // Every length from 3 to 257 has exactly one symbol (258 has one more of its own), and
  // every distance from 1 to 32768.
  lemma LengthCoded(len: nat) returns (y: nat)
    requires 3 <= len <= 257
    ensures y < 29 && Covers(RFC.lengthBase, RFC.lengthExtra, y, len)
    ensures forall y': nat :: y' < 29 && Covers(RFC.lengthBase, RFC.lengthExtra, y', len) ==> y' == y
  {
    LengthsMeet();
    y := OneCovers(RFC.lengthBase, RFC.lengthExtra, 28, len);
  }

  lemma DistanceCoded(dist: nat) returns (z: nat)
    requires 1 <= dist <= 32768
    ensures z < 30 && Covers(RFC.distBase, RFC.distExtra, z, dist)
    ensures forall z': nat :: z' < 30 && Covers(RFC.distBase, RFC.distExtra, z', dist) ==> z' == z
  {
    DistancesMeet();
    z := OneCovers(RFC.distBase, RFC.distExtra, 30, dist);
  }

  // The ranges of consecutive symbols meet, from 1 to 32768.
  lemma DistancesMeet()
    ensures RFC.distBase[0] == 1
    ensures forall z :: 0 <= z < 29 ==> RFC.distBase[z + 1] == RFC.distBase[z] + Pow2(RFC.distExtra[z])
    ensures RFC.distBase[29] + Pow2(RFC.distExtra[29]) == 32769
  {
    Powers();
  }

  lemma RfcValid()
    ensures RFC.Valid() && RFC.ValidOrder()
  {
    RfcLengths();
    RfcDistances();
    RfcOrder();
  }

  lemma LookingValid()
    ensures LOOKING.Looking() && LOOKING.ValidOrder()
  {
    RfcValid();
    AheadValid(RFC, LOOKING);
  }

  // Looking ahead does not change the alphabets.
  lemma AheadValid(f: Alphabets, f': Alphabets)
    requires f' == f.(ahead := f'.ahead)
    ensures (f.Valid() <==> f'.Valid()) && (f.ValidOrder() <==> f'.ValidOrder())
  {
  }

  lemma RfcOrder()
    ensures RFC.ValidOrder()
  {
    OrderApart(RFC.order);
    OrderFull(RFC.order);
  }

  lemma OrderApart(order: seq<nat>)
    requires order == [16, 17, 18, 0, 8, 7, 9, 6, 10, 5, 11, 4, 12, 3, 13, 2, 14, 1, 15]
    ensures forall i :: 0 <= i < 19 ==> order[i] < 19
    ensures forall i, j :: 0 <= i < j < 19 ==> order[i] != order[j]
  {
    var place := [3, 17, 15, 13, 11, 9, 7, 5, 4, 6, 8, 10, 12, 14, 16, 18, 0, 1, 2];
    assert forall i :: 0 <= i < 19 ==> order[i] < 19 && place[order[i]] == i;
  }

  lemma OrderFull(order: seq<nat>)
    requires order == [16, 17, 18, 0, 8, 7, 9, 6, 10, 5, 11, 4, 12, 3, 13, 2, 14, 1, 15]
    ensures forall x :: 0 <= x < 19 ==> x in order
  {
    assert order[3..] == [0, 8, 7, 9, 6, 10, 5, 11, 4, 12, 3, 13, 2, 14, 1, 15];
  }

  lemma RfcLengths()
    ensures RFC.ValidLengths()
  {
  }

  lemma RfcDistances()
    ensures RFC.ValidDistances()
  {
    DistanceSizes();
    var f := RFC;
    forall z | 0 <= z < 30
      ensures f.distBase[z] + Pow2(f.distExtra[z]) <= 0x8001
    {
      DistancesMeet();
      if z < 29 {
        assert f.distBase[z + 1] <= 24577;
      }
    }
  }

  lemma DistanceSizes()
    ensures |RFC.distBase| == |RFC.distExtra| == 30
    ensures forall z :: 0 <= z < 30 ==> RFC.distExtra[z] <= 13 && 1 <= RFC.distBase[z] <= 24577
  {
  }

  lemma Powers()
    ensures Pow2(0) == 1 && Pow2(1) == 2 && Pow2(2) == 4 && Pow2(3) == 8 && Pow2(4) == 16 && Pow2(5) == 32
    ensures Pow2(6) == 64 && Pow2(7) == 128 && Pow2(8) == 256 && Pow2(9) == 512 && Pow2(10) == 1024
    ensures Pow2(11) == 2048 && Pow2(12) == 4096 && Pow2(13) == 8192
  {
  }

  datatype Match = Match(len: nat, dist: nat)

  // A length symbol, its extra bits, a distance symbol and its extra bits.
  ghost function MatchAt(f: Alphabets, dst: seq<nat>, input: seq<Byte>, y: nat, p: nat): (r: Parsed<Match>)
    requires f.Valid() && 257 <= y <= 285
    ensures r.Ok? ==> r.pos >= p
  {
    var n := Field(input, p, f.lengthExtra[y - 257]);
    if n.Bad? then Bad(n.why)
    else
      var d := DistanceAt(f, dst, input, n.pos);
      if d.Bad? then Bad(d.why) else Ok(Match(f.lengthBase[y - 257] + n.value, d.value), d.pos)
  }

  ghost function DistanceAt(f: Alphabets, dst: seq<nat>, input: seq<Byte>, p: nat): (r: Parsed<nat>)
    requires f.Valid()
    ensures r.Ok? ==> r.pos >= p
  {
    var z := Symbol(f.DistanceLook(), dst, input, p);
    if z.Bad? then Bad(z.why)
    else if z.value >= |f.distBase| then Bad(Ret(1))
    else
      var d := Field(input, z.pos, f.distExtra[z.value]);
      if d.Bad? then Bad(d.why) else Ok(f.distBase[z.value] + d.value, d.pos)
  }

  // The literals and matches of a block up to the end-of-block symbol 256.
  ghost function Codes(f: Alphabets, lit: seq<nat>, dst: seq<nat>, input: seq<Byte>, p: nat, out: seq<Byte>)
    : (r: Parsed<seq<Byte>>)
    requires f.Valid()
    ensures r.Ok? ==> r.pos >= p && out <= r.value
    decreases 8 * |input| - p
  {
    var y := Symbol(f.LiteralLook(lit), lit, input, p);
    if y.Bad? then Bad(y.why)
    else if y.value < 256 then Codes(f, lit, dst, input, y.pos, out + [y.value])
    else if y.value == 256 then Ok(out, y.pos)
    else if y.value > 285 then Bad(Ret(1))
    else
      var m := MatchAt(f, dst, input, y.value, y.pos);
      if m.Bad? then Bad(m.why)
      else if !(1 <= m.value.dist <= |out|) then Bad(Ret(1))
      else Codes(f, lit, dst, input, m.pos, CopyMatch(out, m.value.dist, m.value.len))
  }

  function Word(low: nat, high: nat): nat {
    low + 256 * high
  }

  // Section 3.2.4: a stored block goes on at a byte boundary with its length, the
  // length's complement, and the bytes.
  function Stored(input: seq<Byte>, p: nat, out: seq<Byte>): (r: Parsed<seq<Byte>>)
    ensures r.Ok? ==> r.pos >= p && out <= r.value
  {
    var start := (p + 7) / 8;
    if start + 4 > |input| then Bad(Halted)
    else
      var len := Word(input[start], input[start + 1]);
      var complement := Word(input[start + 2], input[start + 3]);
      if len + complement != 0xFFFF then Bad(Ret(1))
      else if start + 4 + len > |input| then Bad(Halted)
      else Ok(out + input[start + 4..start + 4 + len], 8 * (start + 4 + len))
  }

  // Section 3.2.6.
  function FixedLiterals(): seq<nat> {
    seq(144, _ => 8) + seq(112, _ => 9) + seq(24, _ => 7) + seq(8, _ => 8)
  }

  function FixedDistances(): seq<nat> {
    seq(30, _ => 5)
  }

  function Repeat(y: nat, n: nat): seq<nat> {
    seq(n, _ => y)
  }

  // The last length written; a repeat before any length repeats zero.
  function LastOf(ls: seq<nat>): nat {
    if ls == [] then 0 else ls[|ls| - 1]
  }

  // The repeat symbols 16 to 18: bits of the count, least count.
  function RepeatBits(y: nat): nat {
    if y == 16 then 2 else if y == 17 then 3 else 7
  }

  function RepeatLeast(y: nat): nat {
    if y == 18 then 11 else 3
  }

  // What a code-length symbol stands for, after the lengths ls: one length, or a
  // run with a count in extra bits.
  ghost function RunAt(y: nat, ls: seq<nat>, input: seq<Byte>, p: nat): (r: Parsed<seq<nat>>)
    ensures r.Ok? ==> r.pos >= p && |r.value| >= 1
  {
    if y < 16 then Ok([y], p)
    else
      var n := Field(input, p, RepeatBits(y));
      if n.Bad? then Bad(n.why) else Ok(Repeat(if y == 16 then LastOf(ls) else 0, RepeatLeast(y) + n.value), n.pos)
  }

  // Section 3.2.7: the run-length coded lengths, n of them in all.
  ghost function LengthList(look: nat, cl: seq<nat>, n: nat, input: seq<Byte>, p: nat, ls: seq<nat>)
    : (r: Parsed<seq<nat>>)
    requires |ls| <= n
    ensures r.Ok? ==> r.pos >= p && |r.value| == n && ls <= r.value
    decreases n - |ls|
  {
    if |ls| == n then Ok(ls, p)
    else
      var y := Symbol(look, cl, input, p);
      if y.Bad? then Bad(y.why)
      else
        var run := RunAt(y.value, ls, input, y.pos);
        if run.Bad? then Bad(run.why)
        else if |ls| + |run.value| > n then Bad(Ret(1))
        else LengthList(look, cl, n, input, run.pos, ls + run.value)
  }

  ghost function AllLengths(look: nat, cl: seq<nat>, n: nat, input: seq<Byte>, p: nat): (r: Parsed<seq<nat>>)
    ensures r.Ok? ==> r.pos >= p && |r.value| == n
  {
    LengthList(look, cl, n, input, p, [])
  }

  // All lengths read are 15 or less.
  lemma {:induction false} LengthsRead(look: nat, cl: seq<nat>, n: nat, input: seq<Byte>, p: nat, ls: seq<nat>)
    requires |ls| <= n && forall i :: 0 <= i < |ls| ==> ls[i] <= 15
    ensures var r := LengthList(look, cl, n, input, p, ls); r.Ok? ==> forall i :: 0 <= i < n ==> r.value[i] <= 15
    decreases n - |ls|
  {
    var y := Symbol(look, cl, input, p);
    if |ls| < n && y.Ok? {
      var run := RunAt(y.value, ls, input, y.pos);
      if run.Ok? && |ls| + |run.value| <= n {
        assert forall i :: 0 <= i < |run.value| ==> run.value[i] <= 15;
        LengthsRead(look, cl, n, input, run.pos, ls + run.value);
        assert LengthList(look, cl, n, input, p, ls) == LengthList(look, cl, n, input, run.pos, ls + run.value);
      }
    }
  }

  // The widths of the fields that start a dynamic block, and of the lengths of
  // the code-length code.
  const HLIT: nat := 5
  const HDIST: nat := 5
  const HCLEN: nat := 4
  const CLEN: nat := 3

  // The lengths of the code-length code, the first n given from bit p on.
  function CodeLengthCode(order: seq<nat>, input: seq<Byte>, p: nat, n: nat): (ls: seq<nat>)
    requires n <= |order| && forall i :: 0 <= i < |order| ==> order[i] < 19
    ensures |ls| == 19
  {
    if n == 0 then Repeat(0, 19)
    else CodeLengthCode(order, input, p, n - 1)[order[n - 1] := FieldAt(input, p + 3 * (n - 1), CLEN)]
  }

  lemma {:induction false} CodeLengthAt(order: seq<nat>, input: seq<Byte>, p: nat, n: nat, i: nat)
    requires n <= |order| && i < |order| && forall i :: 0 <= i < |order| ==> order[i] < 19
    requires forall i, j :: 0 <= i < j < |order| ==> order[i] != order[j]
    ensures CodeLengthCode(order, input, p, n)[order[i]] == if i < n then FieldAt(input, p + 3 * i, CLEN) else 0
  {
    if n > 0 {
      CodeLengthAt(order, input, p, n - 1, i);
    }
  }

  lemma {:induction false} CodeLengthsSmall(order: seq<nat>, input: seq<Byte>, p: nat, n: nat)
    requires n <= |order| && forall i :: 0 <= i < |order| ==> order[i] < 19
    ensures forall x :: 0 <= x < 19 ==> CodeLengthCode(order, input, p, n)[x] <= 7
  {
    if n > 0 {
      CodeLengthsSmall(order, input, p, n - 1);
      Split(Rest(input, p + 3 * (n - 1)), CLEN);
      assert Pow2(3) == 8 && CLEN == 3;
    }
  }

  // The sets of codes that may be used: complete ones, a single code of one bit,
  // and no codes at all.
  predicate Usable(lens: seq<nat>) {
    Lengths(lens) && (Kraft(lens) == FULL || (Kraft(lens) < FULL && forall y :: 0 <= y < |lens| ==> lens[y] <= 1))
  }

  // How many literal/length, distance and code-length codes a dynamic block has.
  datatype Head = Head(nl: nat, nd: nat, nb: nat)

  function HeadAt(input: seq<Byte>, p: nat): (r: Parsed<Head>)
    ensures r.Ok? ==> r.pos >= p && r.value.nl >= 257 && r.value.nd >= 1 && r.value.nb >= 4
  {
    var nl := Field(input, p, HLIT);
    if nl.Bad? then Bad(nl.why)
    else
      var nd := Field(input, nl.pos, HDIST);
      if nd.Bad? then Bad(nd.why)
      else
        var nb := Field(input, nd.pos, HCLEN);
        if nb.Bad? then Bad(nb.why) else Ok(Head(257 + nl.value, 1 + nd.value, 4 + nb.value), nb.pos)
  }

  datatype CodeSets = CodeSets(lit: seq<nat>, dst: seq<nat>)

  // Section 3.2.7: the code lengths at the start of a dynamic block, those of the
  // literal/length codes and then those of the distance codes.
  ghost function SetLengthsAt(look: nat, order: seq<nat>, head: Head, input: seq<Byte>, p: nat): (r: Parsed<seq<nat>>)
    requires |order| == 19 && forall i :: 0 <= i < 19 ==> order[i] < 19
    ensures r.Ok? ==> r.pos >= p && |r.value| == head.nl + head.nd
  {
    if head.nl > 286 || head.nd > 30 || head.nb > 19 then Bad(Ret(1))
    else if p + 3 * head.nb > 8 * |input| then Bad(Halted)
    else
      var cl := CodeLengthCode(order, input, p, head.nb);
      if !Usable(cl) then Bad(Ret(if Lengths(cl) && Kraft(cl) > FULL then 2 else 1))
      else AllLengths(look, cl, head.nl + head.nd, input, p + 3 * head.nb)
  }

  // The end of a block with such codes: more of them than strings, or, in error(), fewer.
  function Unusable(lens: seq<nat>): Status {
    if Lengths(lens) && Kraft(lens) > FULL then Ret(2) else Halted
  }

  ghost function CodeSetsAt(look: nat, order: seq<nat>, head: Head, input: seq<Byte>, p: nat): (r: Parsed<CodeSets>)
    requires |order| == 19 && forall i :: 0 <= i < 19 ==> order[i] < 19
    ensures r.Ok? ==> r.pos >= p && |r.value.lit| == head.nl && |r.value.dst| == head.nd
  {
    var ls := SetLengthsAt(look, order, head, input, p);
    if ls.Bad? then Bad(ls.why)
    else
      var sets := CodeSets(ls.value[..head.nl], ls.value[head.nl..]);
      if !Usable(sets.lit) then Bad(Unusable(sets.lit))
      else if !Usable(sets.dst) then Bad(Unusable(sets.dst))
      else Ok(sets, ls.pos)
  }

  // A block that starts with its own codes.
  ghost function Dynamic(f: Alphabets, input: seq<Byte>, p: nat, out: seq<Byte>): (r: Parsed<seq<Byte>>)
    requires f.Valid() && f.ValidOrder()
    ensures r.Ok? ==> r.pos >= p && out <= r.value
  {
    var head := HeadAt(input, p);
    if head.Bad? then Bad(head.why)
    else
      var sets := CodeSetsAt(f.CodeLook(), f.order, head.value, input, head.pos);
      if sets.Bad? then Bad(sets.why) else Codes(f, sets.value.lit, sets.value.dst, input, sets.pos, out)
  }

  // Section 3.2.3: one block, after its three header bits.
  ghost function Block(f: Alphabets, kind: nat, input: seq<Byte>, p: nat, out: seq<Byte>): (r: Parsed<seq<Byte>>)
    requires f.Valid() && f.ValidOrder()
    ensures r.Ok? ==> r.pos >= p && out <= r.value
  {
    if kind == 0 then Stored(input, p, out)
    else if kind == 1 then Codes(f, FixedLiterals(), FixedDistances(), input, p, out)
    else if kind == 2 then Dynamic(f, input, p, out)
    else Bad(Ret(2))
  }

  const BFINAL: nat := 1
  const BTYPE: nat := 2

  // What one block comes to: its last-block bit, and all bytes up to its end.
  datatype BlockEnd = BlockEnd(last: nat, out: seq<Byte>)

  ghost function BlockAt(f: Alphabets, input: seq<Byte>, p: nat, out: seq<Byte>): (r: Parsed<BlockEnd>)
    requires f.Valid() && f.ValidOrder()
    ensures r.Ok? ==> r.pos > p && out <= r.value.out
  {
    var last := Field(input, p, BFINAL);
    if last.Bad? then Bad(last.why)
    else
      var kind := Field(input, last.pos, BTYPE);
      if kind.Bad? then Bad(kind.why)
      else
        var block := Block(f, kind.value, input, kind.pos, out);
        if block.Bad? then Bad(block.why) else Ok(BlockEnd(last.value, block.value), block.pos)
  }

  // The whole stream from bit p on, `out` being what came before.
  ghost function Stream(f: Alphabets, input: seq<Byte>, p: nat, out: seq<Byte>): (r: Parsed<seq<Byte>>)
    requires f.Valid() && f.ValidOrder()
    ensures r.Ok? ==> r.pos >= p && out <= r.value
    decreases 8 * |input| - p
  {
    if p >= 8 * |input| then Bad(Halted)
    else
      var block := BlockAt(f, input, p, out);
      if block.Bad? then Bad(block.why)
      else if block.value.last == 1 then Ok(block.value.out, block.pos)
      else Stream(f, input, block.pos, block.value.out)
  }

  // ------------------------------------------------ what comes before the stream

  // Bytes in front of the output that no match reaches change nothing: what a
  // stream gives after nothing, it gives after any bytes d.
  lemma {:induction false} CopyAfter(d: seq<Byte>, out: seq<Byte>, dist: nat, len: nat)
    requires 1 <= dist <= |out|
    ensures CopyMatch(d + out, dist, len) == d + CopyMatch(out, dist, len)
    decreases len
  {
    if len > 0 {
      var next := out + [out[|out| - dist]];
      assert (d + out) + [(d + out)[|d + out| - dist]] == d + next;
      CopyAfter(d, next, dist, len - 1);
    }
  }

  lemma {:induction false} CodesAfter(f: Alphabets, lit: seq<nat>, dst: seq<nat>, input: seq<Byte>, p: nat,
                                      d: seq<Byte>, out: seq<Byte>)
    requires f.Valid()
    ensures var r := Codes(f, lit, dst, input, p, out);
            r.Ok? ==> Codes(f, lit, dst, input, p, d + out) == Ok(d + r.value, r.pos)
    decreases 8 * |input| - p
  {
    var y := Symbol(f.LiteralLook(lit), lit, input, p);
    if y.Ok? && y.value < 256 {
      CodesAfter(f, lit, dst, input, y.pos, d, out + [y.value]);
      assert d + out + [y.value] == d + (out + [y.value]);
    } else if y.Ok? && 257 <= y.value <= 285 {
      var m := MatchAt(f, dst, input, y.value, y.pos);
      if m.Ok? && 1 <= m.value.dist <= |out| {
        CodesAfter(f, lit, dst, input, m.pos, d, CopyMatch(out, m.value.dist, m.value.len));
        CopyAfter(d, out, m.value.dist, m.value.len);
      }
    }
  }

  lemma StoredAfter(input: seq<Byte>, p: nat, d: seq<Byte>, out: seq<Byte>)
    ensures var r := Stored(input, p, out); r.Ok? ==> Stored(input, p, d + out) == Ok(d + r.value, r.pos)
  {
    var r := Stored(input, p, out);
    if r.Ok? {
      var start := (p + 7) / 8;
      var len := Word(input[start], input[start + 1]);
      assert d + out + input[start + 4..start + 4 + len] == d + r.value;
    }
  }

  lemma BlockAfter(f: Alphabets, input: seq<Byte>, p: nat, d: seq<Byte>, out: seq<Byte>)
    requires f.Valid() && f.ValidOrder()
    ensures var r := BlockAt(f, input, p, out);
            r.Ok? ==> BlockAt(f, input, p, d + out) == Ok(BlockEnd(r.value.last, d + r.value.out), r.pos)
  {
    var r := BlockAt(f, input, p, out);
    if r.Ok? {
      var last := Field(input, p, BFINAL);
      var kind := Field(input, last.pos, BTYPE);
      if kind.value == 0 {
        StoredAfter(input, kind.pos, d, out);
      } else if kind.value == 1 {
        CodesAfter(f, FixedLiterals(), FixedDistances(), input, kind.pos, d, out);
      } else {
        var head := HeadAt(input, kind.pos);
        var sets := CodeSetsAt(f.CodeLook(), f.order, head.value, input, head.pos);
        CodesAfter(f, sets.value.lit, sets.value.dst, input, sets.pos, d, out);
      }
    }
  }

  lemma {:induction false} StreamAfter(f: Alphabets, input: seq<Byte>, p: nat, d: seq<Byte>, out: seq<Byte>)
    requires f.Valid() && f.ValidOrder()
    ensures var r := Stream(f, input, p, out);
            r.Ok? ==> Stream(f, input, p, d + out) == Ok(d + r.value, r.pos)
    decreases 8 * |input| - p
  {
    BlockAfter(f, input, p, d, out);
    var block := BlockAt(f, input, p, out);
    if p < 8 * |input| && block.Ok? && block.value.last != 1 {
      StreamAfter(f, input, block.pos, d, block.value.out);
    }
  }
}
