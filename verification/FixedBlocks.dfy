// Blocks with the fixed codes, as section 3.2.6 of RFC 1951 numbers them, and stored ones:
// whatever is written with them is read again.
module FixedBlocks {
  import opened Ahead
  import opened Bits
  import opened Canonical
  import opened CodeLengths
  import opened Deflate
  import opened HuftDecode

  // ---------------------------------------------------------------- the codes

  lemma FixedFirsts(lit: seq<nat>, dst: seq<nat>)
    requires lit == FixedLiterals() && dst == FixedDistances()
    ensures First(Counts(lit), 7) == 0 && First(Counts(lit), 8) == 48 && First(Counts(lit), 9) == 400
    ensures First(Counts(dst), 5) == 0
  {
    forall n: nat | n <= BMAX
      ensures Counts(lit)[n] == if n == 7 then 24 else if n == 8 then 152 else if n == 9 then 112 else 0
      ensures Counts(dst)[n] == if n == 5 then 30 else 0
    {
      FixedCounts(n);
    }
    FewBefore(Counts(lit), 7);
    FewBefore(Counts(dst), 5);
    assert First(Counts(lit), 8) == 2 * (First(Counts(lit), 7) + 24);
  }

  // The table of section 3.2.6.
  lemma LiteralCode(lit: seq<nat>, y: nat)
    requires lit == FixedLiterals() && y < 288
    ensures |lit| == 288 && Lengths(lit)
    ensures y < 144 ==> lit[y] == 8 && CodeOf(lit, y) == 48 + y
    ensures 144 <= y < 256 ==> lit[y] == 9 && CodeOf(lit, y) == 400 + (y - 144)
    ensures 256 <= y < 280 ==> lit[y] == 7 && CodeOf(lit, y) == y - 256
    ensures 280 <= y ==> lit[y] == 8 && CodeOf(lit, y) == 192 + (y - 280)
  {
    FixedShaped(lit);
    FixedFirsts(lit, FixedDistances());
    var a, b, c, d := seq(144, _ => 8), seq(112, _ => 9), seq(24, _ => 7), seq(8, _ => 8);
    var n := lit[y];
    CountSame(a, 8, n);
    CountSame(b, 9, n);
    CountSame(c, 7, n);
    if y < 144 {
      assert lit[..y] == a[..y];
      CountSame(a[..y], 8, n);
    } else if y < 256 {
      assert lit[..y] == a + b[..y - 144];
      CountSame(b[..y - 144], 9, n);
      CountAppend(a, b[..y - 144], n);
    } else if y < 280 {
      assert lit[..y] == a + b + c[..y - 256];
      CountSame(c[..y - 256], 7, n);
      CountAppend(a, b, n);
      CountAppend(a + b, c[..y - 256], n);
    } else {
      assert lit[..y] == a + b + c + d[..y - 280];
      CountSame(d[..y - 280], 8, n);
      CountAppend(a, b, n);
      CountAppend(a + b, c, n);
      CountAppend(a + b + c, d[..y - 280], n);
    }
  }

  lemma DistanceCode(dst: seq<nat>, z: nat)
    requires dst == FixedDistances() && z < 30
    ensures |dst| == 30 && Lengths(dst) && dst[z] == 5 && CodeOf(dst, z) == z
  {
    FixedFirsts(FixedLiterals(), dst);
    CountSame(dst[..z], 5, 5);
  }

  lemma DistancesShaped(dst: seq<nat>)
    requires dst == FixedDistances()
    ensures Lengths(dst) && ShapedBy(dst, 5, 5)
  {
    forall n: nat | n <= BMAX ensures Counts(dst)[n] == if n == 5 then 30 else 0 {
      FixedCounts(n);
    }
    FewBefore(Counts(dst), 5);
    assert EndOf(dst, 5) == 30 && Pow2(5) == 32;
  }

  // ------------------------------------------------------------- stored blocks

  // One stored block with its length and the complement, and then its bytes.
  lemma StoredRead(s: seq<Byte>)
    requires |s| <= 65535
    ensures RFC.Valid() && RFC.ValidOrder()
    ensures Stream(RFC, [1, |s| % 256, |s| / 256, 255 - |s| % 256, 255 - |s| / 256] + s, 0, []) == Ok(s, 8 * (5 + |s|))
  {
    hide *;
    RfcValid();
    var input := StoredFrom(s, RFC);
  }

  lemma StoredFrom(s: seq<Byte>, f: Alphabets) returns (input: seq<Byte>)
    requires |s| <= 65535 && f.Valid() && f.ValidOrder()
    ensures input == [1, |s| % 256, |s| / 256, 255 - |s| % 256, 255 - |s| / 256] + s
    ensures Stream(f, input, 0, []) == Ok(s, 8 * (5 + |s|))
  {
    hide *;
    var head := StoredHead(|s|);
    input := head + s;
    StoredStream(f, head, s, input);
  }

  lemma StoredHead(n: nat) returns (head: seq<Byte>)
    requires n <= 65535
    ensures head == [1, n % 256, n / 256, 255 - n % 256, 255 - n / 256]
    ensures |head| == 5 && head[0] == 1 && head[1] == n % 256 && head[2] == n / 256
    ensures head[3] == 255 - n % 256 && head[4] == 255 - n / 256
  {
    var a: Byte, b: Byte := n % 256, n / 256;
    head := [1, a, b, 255 - a, 255 - b];
  }

  lemma StoredStream(f: Alphabets, head: seq<Byte>, s: seq<Byte>, input: seq<Byte>)
    requires f.Valid() && f.ValidOrder() && |s| <= 65535 && input == head + s
    requires |head| == 5 && head[0] == 1 && head[1] == |s| % 256 && head[2] == |s| / 256
    requires head[3] == 255 - |s| % 256 && head[4] == 255 - |s| / 256
    ensures Stream(f, input, 0, []) == Ok(s, 8 * (5 + |s|))
  {
    LastStored(input);
    StoredBytes(head, s, input);
    hide FieldAt, Stored;
    assert BlockAt(f, input, 0, []) == Ok(BlockEnd(1, s), 8 * (5 + |s|));
  }

  lemma StoredBytes(head: seq<Byte>, s: seq<Byte>, input: seq<Byte>)
    requires |s| <= 65535 && input == head + s
    requires |head| == 5 && head[0] == 1 && head[1] == |s| % 256 && head[2] == |s| / 256
    requires head[3] == 255 - |s| % 256 && head[4] == 255 - |s| / 256
    ensures Stored(input, 3, []) == Ok(s, 8 * (5 + |s|))
  {
    assert input[1] == |s| % 256 && input[2] == |s| / 256;
    assert input[3] == 255 - |s| % 256 && input[4] == 255 - |s| / 256;
    assert [] + input[5..5 + |s|] == s;
  }

  lemma LastStored(input: seq<Byte>)
    requires input != [] && input[0] == 1
    ensures FieldAt(input, 0, 1) == 1 && FieldAt(input, 1, 2) == 0
  {
    var m := AsNumber(input[1..]);
    assert Rest(input, 0) == 1 + 256 * m && Rest(input, 1) == 128 * m;
    assert Low(1 + 256 * m, 1) == 1 + 2 * Low(128 * m, 0);
    assert Low(128 * m, 2) == 0 + 2 * Low(64 * m, 1);
  }

  // -------------------------------------------------------- lengths and distances

  // The extra bits of a length, and its symbol: four symbols share each number of bits.
  function LengthBits(len: nat): nat {
    if len <= 10 || len >= 258 then 0
    else if len <= 18 then 1
    else if len <= 34 then 2
    else if len <= 66 then 3
    else if len <= 130 then 4
    else 5
  }

  function LengthSymbol(len: nat): nat
    requires 3 <= len <= 258
  {
    if len == 258 then 285 else 257 + 4 * LengthBits(len) + Shr(len - 3, LengthBits(len))
  }

  function LengthField(len: nat): nat
    requires 3 <= len <= 258
  {
    Low(len - 3, LengthBits(len))
  }

  // Two symbols share each number of extra bits of a distance.
  function DistanceBits(dist: nat): nat {
    if dist <= 4 then 0 else 1 + DistanceBits((dist + 1) / 2)
  }

  function DistanceSymbol(dist: nat): nat
    requires dist >= 1
  {
    2 * DistanceBits(dist) + Shr(dist - 1, DistanceBits(dist))
  }

  function DistanceField(dist: nat): nat
    requires dist >= 1
  {
    Low(dist - 1, DistanceBits(dist))
  }

  // The bases and extra bits of section 3.2.5 in closed form.
  lemma LengthTable(f: Alphabets, i: nat)
    requires f == RFC && i < 28
    ensures |f.lengthBase| == |f.lengthExtra| == 31 && f.lengthBase[28] == 258 && f.lengthExtra[28] == 0
    ensures i < 8 ==> f.lengthExtra[i] == 0 && f.lengthBase[i] == 3 + i
    ensures i >= 8 ==> f.lengthExtra[i] == i / 4 - 1 && f.lengthBase[i] == 3 + Shl(4 + i % 4, i / 4 - 1)
  {
    LengthExtras(i);
    LengthBases(i);
  }

  lemma LengthExtras(i: nat)
    requires i < 28
    ensures |RFC.lengthExtra| == 31 && RFC.lengthExtra[i] == if i < 8 then 0 else i / 4 - 1
    ensures RFC.lengthExtra[28] == 0
  {
  }

  lemma LengthBases(i: nat)
    requires i < 28
    ensures |RFC.lengthBase| == 31 && RFC.lengthBase[28] == 258
    ensures i < 8 ==> RFC.lengthBase[i] == 3 + i
    ensures i >= 8 ==> RFC.lengthBase[i] == 3 + Shl(4 + i % 4, i / 4 - 1)
  {
    if i < 16 { ShortBases(i); } else { LongBases(i); }
  }

  lemma ShortBases(i: nat)
    requires i < 16
    ensures |RFC.lengthBase| == 31
    ensures i < 8 ==> RFC.lengthBase[i] == 3 + i
    ensures i >= 8 ==> RFC.lengthBase[i] == 3 + Shl(4 + i % 4, i / 4 - 1)
  {
    ShlSmall(4 + i % 4);
  }

  lemma LongBases(i: nat)
    requires 16 <= i < 28
    ensures |RFC.lengthBase| == 31 && RFC.lengthBase[i] == 3 + Shl(4 + i % 4, i / 4 - 1)
  {
    ShlSmall(4 + i % 4);
  }

  lemma DistanceTable(f: Alphabets, z: nat)
    requires f == RFC && z < 30
    ensures |f.distBase| == |f.distExtra| == 30
    ensures z < 4 ==> f.distExtra[z] == 0 && f.distBase[z] == 1 + z
    ensures z >= 4 ==> f.distExtra[z] == z / 2 - 1 && f.distBase[z] == 1 + Shl(2 + z % 2, z / 2 - 1)
  {
    DistanceExtras(z);
    if z < 8 { NearBases(z); } else if z < 16 { MiddleBases(z); } else { FarBases(z); }
  }

  lemma DistanceExtras(z: nat)
    requires z < 30
    ensures |RFC.distExtra| == 30 && RFC.distExtra[z] == if z < 4 then 0 else z / 2 - 1
  {
  }

  lemma NearBases(z: nat)
    requires z < 8
    ensures |RFC.distBase| == 30
    ensures z < 4 ==> RFC.distBase[z] == 1 + z
    ensures z >= 4 ==> RFC.distBase[z] == 1 + Shl(2 + z % 2, z / 2 - 1)
  {
    ShlSmall(2 + z % 2);
  }

  lemma MiddleBases(z: nat)
    requires 8 <= z < 16
    ensures |RFC.distBase| == 30 && RFC.distBase[z] == 1 + Shl(2 + z % 2, z / 2 - 1)
  {
    ShlSmall(2 + z % 2);
  }

  lemma FarBases(z: nat)
    requires 16 <= z < 30
    ensures |RFC.distBase| == 30 && RFC.distBase[z] == 1 + Shl(2 + z % 2, z / 2 - 1)
  {
    ShlSmall(2 + z % 2);
  }

  // The alphabets have those bases and extra bits.
  ghost predicate Forms(f: Alphabets) {
    && |f.lengthBase| == |f.lengthExtra| == 31 && |f.distBase| == |f.distExtra| == 30
    && f.lengthBase[28] == 258 && f.lengthExtra[28] == 0
    && (forall i: nat :: i < 28 ==> LengthForm(f, i)) && (forall z: nat :: z < 30 ==> DistanceForm(f, z))
  }

  ghost predicate LengthForm(f: Alphabets, i: nat)
    requires |f.lengthBase| == |f.lengthExtra| == 31 && i < 28
  {
    if i < 8 then f.lengthExtra[i] == 0 && f.lengthBase[i] == 3 + i
    else f.lengthExtra[i] == i / 4 - 1 && f.lengthBase[i] == 3 + Shl(4 + i % 4, i / 4 - 1)
  }

  ghost predicate DistanceForm(f: Alphabets, z: nat)
    requires |f.distBase| == |f.distExtra| == 30 && z < 30
  {
    if z < 4 then f.distExtra[z] == 0 && f.distBase[z] == 1 + z
    else f.distExtra[z] == z / 2 - 1 && f.distBase[z] == 1 + Shl(2 + z % 2, z / 2 - 1)
  }

  lemma RfcForms()
    ensures Forms(RFC)
  {
    LengthTable(RFC, 0);
    DistanceTable(RFC, 0);
    forall i: nat | i < 28 ensures LengthForm(RFC, i) {
      LengthTable(RFC, i);
    }
    forall z: nat | z < 30 ensures DistanceForm(RFC, z) {
      DistanceTable(RFC, z);
    }
  }

  lemma ShrBetween(x: nat, a: nat, b: nat, k: nat)
    requires Shl(a, k) <= x < Shl(b, k)
    ensures a <= Shr(x, k) < b
  {
    Split(x, k);
    ShlMono(Shr(x, k), a, k);
    ShlMono(b, Shr(x, k), k);
  }

  lemma LengthBetween(len: nat)
    requires 11 <= len <= 257
    ensures 1 <= LengthBits(len) <= 5 && 4 <= Shr(len - 3, LengthBits(len)) < 8
  {
    ShlSmall(4);
    ShlSmall(8);
    hide Shl, Shr;
    ShrBetween(len - 3, 4, 8, LengthBits(len));
  }

  // The symbol and the field written for a length stand for it.
  lemma LengthWritten(f: Alphabets, len: nat)
    requires Forms(f) && 3 <= len <= 258
    ensures |f.lengthBase| == |f.lengthExtra| == 31 && 257 <= LengthSymbol(len) <= 285
    ensures var i := LengthSymbol(len) - 257;
            f.lengthExtra[i] == LengthBits(len) && f.lengthBase[i] + LengthField(len) == len
    ensures LengthField(len) < Pow2(LengthBits(len))
  {
    Split(len - 3, LengthBits(len));
    if len == 258 {
    } else if len <= 10 {
      assert LengthForm(f, len - 3);
    } else {
      LengthBetween(len);
      MiddleLength(f, len, LengthBits(len), Shr(len - 3, LengthBits(len)));
    }
  }

  lemma MiddleLength(f: Alphabets, len: nat, k: nat, h: nat)
    requires Forms(f) && 1 <= k <= 5 && 4 <= h < 8 && len >= 3 && len - 3 == Low(len - 3, k) + Shl(h, k)
    ensures |f.lengthBase| == |f.lengthExtra| == 31
    ensures f.lengthExtra[4 * k + h] == k && f.lengthBase[4 * k + h] + Low(len - 3, k) == len
  {
    hide Shl, Low;
    var i := 4 * k + h;
    assert i < 28 && i / 4 - 1 == k && 4 + i % 4 == h;
    assert LengthForm(f, i);
    hide Forms;
  }

  lemma {:induction false} DistanceBetween(dist: nat)
    requires dist > 4
    ensures DistanceBits(dist) > 0 && Shl(2, DistanceBits(dist)) <= dist - 1 < Shl(4, DistanceBits(dist))
  {
    if dist > 8 {
      DistanceBetween((dist + 1) / 2);
    }
  }

  lemma DistanceParts(dist: nat, k: nat)
    requires 4 < dist <= 32768 && k == DistanceBits(dist)
    ensures 1 <= k <= 13 && 2 <= Shr(dist - 1, k) < 4
  {
    DistanceBetween(dist);
    hide DistanceBits, Shl, Shr;
    ShrBetween(dist - 1, 2, 4, k);
    if k > 13 { FewBits(k); }
  }

  lemma DistanceWritten(f: Alphabets, dist: nat)
    requires Forms(f) && 1 <= dist <= 32768
    ensures |f.distBase| == |f.distExtra| == 30 && DistanceSymbol(dist) < 30
    ensures var z := DistanceSymbol(dist);
            f.distExtra[z] == DistanceBits(dist) && f.distBase[z] + DistanceField(dist) == dist
    ensures DistanceField(dist) < Pow2(DistanceBits(dist))
  {
    var k := DistanceBits(dist);
    Split(dist - 1, k);
    if dist <= 4 {
      assert DistanceForm(f, dist - 1);
    } else {
      hide DistanceBits, Shl, Shr, Low, Pow2;
      DistanceParts(dist, k);
      FarDistance(f, dist, k, Shr(dist - 1, k));
    }
  }

  lemma FarDistance(f: Alphabets, dist: nat, k: nat, h: nat)
    requires Forms(f) && 1 <= k <= 13 && 2 <= h < 4 && dist >= 1 && dist - 1 == Low(dist - 1, k) + Shl(h, k)
    ensures |f.distBase| == |f.distExtra| == 30 && 2 * k + h < 30
    ensures f.distExtra[2 * k + h] == k && f.distBase[2 * k + h] + Low(dist - 1, k) == dist
  {
    hide Shl, Low;
    var z := 2 * k + h;
    assert 4 <= z < 30 && z / 2 - 1 == k && 2 + z % 2 == h;
    assert DistanceForm(f, z);
    hide Forms;
  }

  lemma FewBits(k: nat)
    requires k > 13
    ensures Shl(2, k) >= 32768
  {
    ShlOne(k);
    ShlPow2(1, k);
    Pow2Mono(15, k + 1);
    Powers();
    assert Pow2(15) == 2 * Pow2(14) == 4 * Pow2(13);
  }

  // --------------------------------------------------------- writing a block

  // What a block says: a byte, or a repetition of `len` bytes from `dist` bytes ago.
  datatype Token = Literal(b: Byte) | Copy(len: nat, dist: nat)

  predicate Fits(t: Token) {
    t.Copy? ==> 3 <= t.len <= 258 && 1 <= t.dist <= 32768
  }

  predicate AllFit(ts: seq<Token>) {
    forall i :: 0 <= i < |ts| ==> Fits(ts[i])
  }

  // No repetition starts before the first byte.
  predicate InReach(t: Token, n: nat) {
    t.Copy? ==> 1 <= t.dist <= n
  }

  function Size(t: Token): nat {
    if t.Literal? then 1 else t.len
  }

  predicate Reaches(n: nat, ts: seq<Token>)
    decreases ts
  {
    ts == [] || (InReach(ts[0], n) && Reaches(n + Size(ts[0]), ts[1..]))
  }

  // The bytes they stand for.
  function Said(out: seq<Byte>, t: Token): (r: seq<Byte>)
    requires InReach(t, |out|)
    ensures |r| == |out| + Size(t)
  {
    if t.Literal? then out + [t.b] else CopyMatch(out, t.dist, t.len)
  }

  function Expand(out: seq<Byte>, ts: seq<Token>): (r: seq<Byte>)
    requires Reaches(|out|, ts)
    decreases ts
  {
    if ts == [] then out else Expand(Said(out, ts[0]), ts[1..])
  }

  // The code of a literal/length symbol, most significant bit first.
  function SymbolBits(y: nat): nat {
    if y < 144 then 8 else if y < 256 then 9 else if y < 280 then 7 else 8
  }

  function SymbolCode(y: nat): nat
    requires y < 288
  {
    if y < 144 then 48 + y else if y < 256 then 400 + (y - 144) else if y < 280 then y - 256 else 192 + (y - 280)
  }

  // Such a code in front of what comes after it.
  function Coded(y: nat, rest: nat): nat
    requires y < 288
  {
    Rev(SymbolBits(y), SymbolCode(y)) + Shl(rest, SymbolBits(y))
  }

  function CodedDistance(dist: nat, rest: nat): nat
    requires 1 <= dist <= 32768
  {
    Rev(5, DistanceSymbol(dist)) + Shl(DistanceField(dist) + Shl(rest, DistanceBits(dist)), 5)
  }

  function CodedToken(t: Token, rest: nat): nat
    requires Fits(t)
  {
    match t
    case Literal(b) => Coded(b, rest)
    case Copy(len, dist) =>
      LengthSmall(len);
      Coded(LengthSymbol(len), LengthField(len) + Shl(CodedDistance(dist, rest), LengthBits(len)))
  }

  lemma LengthSmall(len: nat)
    requires 3 <= len <= 258
    ensures 257 <= LengthSymbol(len) <= 285
  {
    if 10 < len < 258 { LengthBetween(len); }
  }

  function TokenBits(t: Token): nat
    requires Fits(t)
  {
    match t
    case Literal(b) => SymbolBits(b)
    case Copy(len, dist) => SymbolBits(LengthSymbol(len)) + LengthBits(len) + 5 + DistanceBits(dist)
  }

  // The tokens of a block and its end, in front of what comes after it.
  function Written(ts: seq<Token>, rest: nat): nat
    requires AllFit(ts)
  {
    if ts == [] then Coded(256, rest) else CodedToken(ts[0], Written(ts[1..], rest))
  }

  function Width(ts: seq<Token>): nat
    requires AllFit(ts)
  {
    if ts == [] then 7 else TokenBits(ts[0]) + Width(ts[1..])
  }

  // The bytes of a last block with the fixed codes.
  function Encoded(ts: seq<Token>): seq<Byte>
    requires AllFit(ts)
  {
    LowFirst(3 + Shl(Written(ts, 0), 3), (10 + Width(ts)) / 8)
  }

  // ---------------------------------------------------------- reading it again

  // A code, and the stream behind it.
  lemma SymbolRead(lens: seq<nat>, kmin: nat, g: nat, y: nat, input: seq<Byte>, p: nat, rest: nat)
    requires ShapedBy(lens, kmin, g) && Lengths(lens) && y < |lens| && lens[y] > 0
    requires CodeOf(lens, y) < Pow2(lens[y]) && p + lens[y] <= 8 * |input|
    requires Rest(input, p) == Rev(lens[y], CodeOf(lens, y)) + Shl(rest, lens[y])
    ensures Symbol(0, lens, input, p) == Ok(y, p + lens[y]) && Rest(input, p + lens[y]) == rest
  {
    hide Rest, CodeOf, Rev, Shl, Pow2, Low, ShapedBy;
    var n, c, s := lens[y], CodeOf(lens, y), Rest(input, p);
    RevBound(n, c);
    Take(input, p, n, s, Rev(n, c), rest);
    RevLow(n, s);
    RevRev(n, c);
    SmallShr(c, n);
    assert FieldAt(input, p, n) == Low(s, n);
    assert SymbolAt(lens, input, p, y);
    OnlyOne(lens, kmin, g, y, input, p);
  }

  lemma OnlyOne(lens: seq<nat>, kmin: nat, g: nat, y: nat, input: seq<Byte>, p: nat)
    requires ShapedBy(lens, kmin, g) && SymbolAt(lens, input, p, y)
    ensures Symbol(0, lens, input, p) == Ok(y, p + lens[y])
  {
    hide Rest, CodeOf, Rev, First, Count;
    forall y': nat | SymbolAt(lens, input, p, y') ensures y' == y {
      SymbolUnique(lens, kmin, g, y', y, Rest(input, p));
    }
  }

  lemma LiteralRead(lit: seq<nat>, y: nat, input: seq<Byte>, p: nat, rest: nat)
    requires lit == FixedLiterals() && y < 288 && p + SymbolBits(y) <= 8 * |input|
    requires Rest(input, p) == Coded(y, rest)
    ensures Symbol(0, lit, input, p) == Ok(y, p + SymbolBits(y)) && Rest(input, p + SymbolBits(y)) == rest
  {
    hide FixedLiterals, Rest, CodeOf, ShapedBy, Rev, Shl, Pow2, Lengths, Symbol;
    LiteralCode(lit, y);
    CodeFits(y);
    FixedShaped(lit);
    SymbolRead(lit, 7, 9, y, input, p, rest);
  }

  lemma CodeFits(y: nat)
    requires y < 288
    ensures SymbolCode(y) < Pow2(SymbolBits(y))
  {
    Powers();
  }

  // The symbols and fields written are those of the alphabets, which are read without
  // looking ahead.
  ghost predicate Standard(f: Alphabets) {
    && f.Valid() && !f.ahead
    && (forall len :: 3 <= len <= 258 ==> LengthStands(f, len))
    && (forall dist :: 1 <= dist <= 32768 ==> DistanceStands(f, dist))
  }

  ghost predicate LengthStands(f: Alphabets, len: nat)
    requires f.Valid() && 3 <= len <= 258
  {
    && 257 <= LengthSymbol(len) <= 285 && LengthField(len) < Pow2(LengthBits(len))
    && f.lengthExtra[LengthSymbol(len) - 257] == LengthBits(len)
    && f.lengthBase[LengthSymbol(len) - 257] + LengthField(len) == len
  }

  ghost predicate DistanceStands(f: Alphabets, dist: nat)
    requires f.Valid() && 1 <= dist <= 32768
  {
    && DistanceSymbol(dist) < 30 && DistanceField(dist) < Pow2(DistanceBits(dist))
    && f.distExtra[DistanceSymbol(dist)] == DistanceBits(dist)
    && f.distBase[DistanceSymbol(dist)] + DistanceField(dist) == dist
  }

  lemma RfcStandard()
    ensures Standard(RFC) && RFC.ValidOrder()
  {
    RfcValid();
    RfcForms();
    hide Forms, LengthSymbol, LengthField, LengthBits, DistanceSymbol, DistanceField, DistanceBits;
    forall len | 3 <= len <= 258 ensures LengthStands(RFC, len) {
      LengthWritten(RFC, len);
    }
    forall dist | 1 <= dist <= 32768 ensures DistanceStands(RFC, dist) {
      DistanceWritten(RFC, dist);
    }
  }

  lemma DistanceSymbolRead(dst: seq<nat>, z: nat, input: seq<Byte>, p: nat, rest: nat)
    requires dst == FixedDistances() && z < 30 && p + 5 <= 8 * |input|
    requires Rest(input, p) == Rev(5, z) + Shl(rest, 5)
    ensures Symbol(0, dst, input, p) == Ok(z, p + 5) && Rest(input, p + 5) == rest
  {
    assert Pow2(5) == 32;
    hide FixedDistances, Rest, CodeOf, ShapedBy, Rev, Shl, Pow2, Lengths, Symbol;
    DistanceCode(dst, z);
    DistancesShaped(dst);
    SymbolRead(dst, 5, 5, z, input, p, rest);
  }

  lemma DistanceFrom(f: Alphabets, dst: seq<nat>, z: nat, k: nat, x: nat, input: seq<Byte>, p: nat)
    requires f.Valid() && !f.ahead && z < 30 && f.distExtra[z] == k && FieldAt(input, p + 5, k) == x
    requires Symbol(0, dst, input, p) == Ok(z, p + 5) && p + 5 + k <= 8 * |input|
    ensures DistanceAt(f, dst, input, p) == Ok(f.distBase[z] + x, p + 5 + k)
  {
    hide Symbol, FieldAt, Pow2;
  }

  lemma DistanceRead(f: Alphabets, dst: seq<nat>, dist: nat, input: seq<Byte>, p: nat, rest: nat)
    requires 1 <= dist <= 32768 && f.Valid() && !f.ahead && DistanceStands(f, dist) && dst == FixedDistances()
    requires p + 5 + DistanceBits(dist) <= 8 * |input| && Rest(input, p) == CodedDistance(dist, rest)
    ensures DistanceAt(f, dst, input, p) == Ok(dist, p + 5 + DistanceBits(dist))
    ensures Rest(input, p + 5 + DistanceBits(dist)) == rest
  {
    hide FixedDistances, DistanceBits, Rev, Shl, Rest, Pow2, Low, Shr, Symbol, FieldAt;
    var z, k, x := DistanceSymbol(dist), DistanceBits(dist), DistanceField(dist);
    var behind := x + Shl(rest, k);
    assert Rest(input, p) == Rev(5, z) + Shl(behind, 5);
    assert z < 30 && x < Pow2(k) && f.distExtra[z] == k && f.distBase[z] + x == dist;
    hide DistanceAt, DistanceSymbol, DistanceField, CodedDistance, Alphabets.Valid;
    DistanceSymbolRead(dst, z, input, p, behind);
    Take(input, p + 5, k, behind, x, rest);
    DistanceFrom(f, dst, z, k, x, input, p);
  }

  // A length's field and its distance.
  lemma MatchRead(f: Alphabets, dst: seq<nat>, len: nat, dist: nat, input: seq<Byte>, p: nat, rest: nat)
    requires 3 <= len <= 258 && 1 <= dist <= 32768 && f.Valid() && !f.ahead && dst == FixedDistances()
    requires LengthStands(f, len) && DistanceStands(f, dist)
    requires p + LengthBits(len) + 5 + DistanceBits(dist) <= 8 * |input|
    requires Rest(input, p) == LengthField(len) + Shl(CodedDistance(dist, rest), LengthBits(len))
    ensures var q := p + LengthBits(len) + 5 + DistanceBits(dist);
            MatchAt(f, dst, input, LengthSymbol(len), p) == Ok(Match(len, dist), q) && Rest(input, q) == rest
  {
    hide FixedDistances, DistanceBits, LengthBits, Shl, Rest, Pow2, Low, Shr, FieldAt, DistanceAt, CodedDistance;
    var k, x := LengthBits(len), LengthField(len);
    Take(input, p, k, Rest(input, p), x, CodedDistance(dist, rest));
    assert Field(input, p, k) == Ok(x, p + k);
    hide LengthField, DistanceStands;
    DistanceRead(f, dst, dist, input, p + k, rest);
  }

  lemma ByteRead(f: Alphabets, lit: seq<nat>, dst: seq<nat>, b: Byte, input: seq<Byte>, p: nat, rest: nat,
                 out: seq<Byte>)
    requires f.Valid() && !f.ahead && lit == FixedLiterals()
    requires p + SymbolBits(b) <= 8 * |input| && Rest(input, p) == Coded(b, rest)
    ensures Rest(input, p + SymbolBits(b)) == rest
    ensures Codes(f, lit, dst, input, p, out) == Codes(f, lit, dst, input, p + SymbolBits(b), out + [b])
  {
    hide FixedLiterals, Rest, Coded, SymbolBits, Symbol;
    LiteralRead(lit, b, input, p, rest);
  }

  lemma CopyRead(f: Alphabets, lit: seq<nat>, dst: seq<nat>, len: nat, dist: nat, input: seq<Byte>, p: nat, rest: nat,
                 out: seq<Byte>)
    requires 3 <= len <= 258 && 1 <= dist <= 32768 && dist <= |out|
    requires Standard(f) && lit == FixedLiterals() && dst == FixedDistances()
    requires p + TokenBits(Copy(len, dist)) <= 8 * |input| && Rest(input, p) == CodedToken(Copy(len, dist), rest)
    ensures var q := p + TokenBits(Copy(len, dist));
            && Rest(input, q) == rest
            && Codes(f, lit, dst, input, p, out) == Codes(f, lit, dst, input, q, CopyMatch(out, dist, len))
  {
    hide FixedLiterals, FixedDistances, DistanceBits, LengthBits, Shl, Rest, Pow2, Low, Shr, CodedDistance, Symbol,
         MatchAt, Coded, SymbolBits;
    assert f.LiteralLook(lit) == 0 && LengthStands(f, len) && DistanceStands(f, dist);
    var y := LengthSymbol(len);
    var behind := LengthField(len) + Shl(CodedDistance(dist, rest), LengthBits(len));
    hide LengthSymbol, LengthField, Standard, DistanceStands;
    LiteralRead(lit, y, input, p, behind);
    MatchRead(f, dst, len, dist, input, p + SymbolBits(y), rest);
  }

  // One token of a block, and the stream behind it.
  lemma TokenRead(f: Alphabets, lit: seq<nat>, dst: seq<nat>, t: Token, input: seq<Byte>, p: nat, rest: nat,
                  out: seq<Byte>)
    requires Standard(f) && lit == FixedLiterals() && dst == FixedDistances() && Fits(t)
    requires p + TokenBits(t) <= 8 * |input| && Rest(input, p) == CodedToken(t, rest) && InReach(t, |out|)
    ensures Rest(input, p + TokenBits(t)) == rest
    ensures Codes(f, lit, dst, input, p, out) == Codes(f, lit, dst, input, p + TokenBits(t), Said(out, t))
  {
    hide FixedLiterals, FixedDistances, Coded, Rest, Codes;
    match t
    case Literal(b) =>
      ByteRead(f, lit, dst, b, input, p, rest, out);
    case Copy(len, dist) =>
      CopyRead(f, lit, dst, len, dist, input, p, rest, out);
  }

  // The tokens from p on, and the end of the block, are read.
  ghost predicate ReadFrom(f: Alphabets, ts: seq<Token>, input: seq<Byte>, p: nat, out: seq<Byte>)
    requires f.Valid() && AllFit(ts) && Reaches(|out|, ts)
  {
    Codes(f, FixedLiterals(), FixedDistances(), input, p, out) == Ok(Expand(out, ts), p + Width(ts))
  }

  // A block, up to its end.
  lemma {:induction false} TokensRead(f: Alphabets, ts: seq<Token>, input: seq<Byte>, p: nat, rest: nat,
                                      out: seq<Byte>)
    requires Standard(f) && AllFit(ts) && Reaches(|out|, ts)
    requires p + Width(ts) <= 8 * |input| && Rest(input, p) == Written(ts, rest)
    ensures ReadFrom(f, ts, input, p, out)
    decreases ts
  {
    hide FixedLiterals, FixedDistances, Codes, Rest, Written, Width, Expand, Said, TokenBits, CodedToken, Coded,
         Reaches, AllFit;
    Unfolds(ts, rest, out);
    if ts == [] {
      EndRead(f, FixedLiterals(), FixedDistances(), input, p, rest, out);
    } else {
      TokenRead(f, FixedLiterals(), FixedDistances(), ts[0], input, p, Written(ts[1..], rest), out);
      TokensRead(f, ts[1..], input, p + TokenBits(ts[0]), rest, Said(out, ts[0]));
    }
  }

  // The first token of a block.
  lemma Unfolds(ts: seq<Token>, rest: nat, out: seq<Byte>)
    requires AllFit(ts) && Reaches(|out|, ts)
    ensures ts == [] ==> Width(ts) == 7 && Written(ts, rest) == Coded(256, rest) && Expand(out, ts) == out
    ensures ts != [] ==> Fits(ts[0]) && InReach(ts[0], |out|) && AllFit(ts[1..])
    ensures ts != [] ==> Width(ts) == TokenBits(ts[0]) + Width(ts[1..])
    ensures ts != [] ==> Written(ts, rest) == CodedToken(ts[0], Written(ts[1..], rest))
    ensures ts != [] ==> Reaches(|Said(out, ts[0])|, ts[1..]) && Expand(out, ts) == Expand(Said(out, ts[0]), ts[1..])
  {
  }

  lemma EndRead(f: Alphabets, lit: seq<nat>, dst: seq<nat>, input: seq<Byte>, p: nat, rest: nat, out: seq<Byte>)
    requires Standard(f) && lit == FixedLiterals() && p + 7 <= 8 * |input| && Rest(input, p) == Coded(256, rest)
    ensures Codes(f, lit, dst, input, p, out) == Ok(out, p + 7)
  {
    hide FixedLiterals, Coded, Rest, Symbol;
    LiteralRead(lit, 256, input, p, rest);
  }

  // --------------------------------------------------------- the whole stream

  // A last block with the fixed codes, at the start.
  lemma LastFixed(f: Alphabets, ts: seq<Token>, input: seq<Byte>, rest: nat)
    requires Standard(f) && f.ValidOrder() && AllFit(ts) && Reaches(0, ts)
    requires 3 + Width(ts) <= 8 * |input| && Rest(input, 0) == 3 + Shl(Written(ts, rest), 3)
    ensures Stream(f, input, 0, []) == Ok(Expand([], ts), 3 + Width(ts))
  {
    var v := Written(ts, rest);
    HeaderRead(input, v);
    TokensRead(f, ts, input, 3, rest, []);
    hide FixedLiterals, FixedDistances, FieldAt, Rest, Written, Codes, Expand, Width, Standard, Dynamic;
    assert BlockAt(f, input, 0, []) == Ok(BlockEnd(1, Expand([], ts)), 3 + Width(ts));
  }

  lemma HeaderRead(input: seq<Byte>, v: nat)
    requires Rest(input, 0) == 3 + Shl(v, 3)
    ensures FieldAt(input, 0, 1) == 1 && FieldAt(input, 1, 2) == 1 && Rest(input, 3) == v
  {
    ShlSmall(v);
    ShlSmall(1 + 4 * v);
    Powers();
    hide Shl, Rest, FieldAt;
    Take(input, 0, 1, Rest(input, 0), 1, 1 + 4 * v);
    Take(input, 1, 2, 1 + 4 * v, 1, v);
  }

  // What is written takes no more than its width.
  lemma PutBound(x: nat, n: nat, rest: nat, r: nat)
    requires x < Pow2(n) && rest < Pow2(r)
    ensures x + Shl(rest, n) < Pow2(n + r)
  {
    ShlMono(rest, Pow2(r), n);
    ShlPow2(r, n);
  }

  lemma {:induction false} WrittenBound(ts: seq<Token>)
    requires AllFit(ts)
    ensures Written(ts, 0) < Pow2(Width(ts))
  {
    if ts == [] {
      RevZero(7);
      ShlOne(7);
    } else {
      WrittenBound(ts[1..]);
      TokenBound(ts[0], Written(ts[1..], 0), Width(ts[1..]));
    }
  }

  lemma TokenBound(t: Token, rest: nat, r: nat)
    requires Fits(t) && rest < Pow2(r)
    ensures CodedToken(t, rest) < Pow2(TokenBits(t) + r)
  {
    hide Pow2, Rev, Shl, Shr, Low, DistanceBits, LengthBits;
    match t
    case Literal(b) =>
      RevBound(SymbolBits(b), SymbolCode(b));
      PutBound(Rev(SymbolBits(b), SymbolCode(b)), SymbolBits(b), rest, r);
    case Copy(len, dist) =>
      Split(len - 3, LengthBits(len));
      Split(dist - 1, DistanceBits(dist));
      LengthSmall(len);
      var n, k := SymbolBits(LengthSymbol(len)), LengthBits(len);
      var d, z := DistanceBits(dist), Rev(5, DistanceSymbol(dist));
      RevBound(n, SymbolCode(LengthSymbol(len)));
      RevBound(5, DistanceSymbol(dist));
      PutBound(DistanceField(dist), d, rest, r);
      PutBound(z, 5, DistanceField(dist) + Shl(rest, d), d + r);
      PutBound(LengthField(len), k, CodedDistance(dist, rest), 5 + d + r);
      PutBound(Rev(n, SymbolCode(LengthSymbol(len))), n, LengthField(len) + Shl(CodedDistance(dist, rest), k),
               k + 5 + d + r);
  }

  // A number written as bytes.
  lemma {:induction false} NumberOfBytes(x: nat, n: nat)
    requires x < Pow2(8 * n)
    ensures AsNumber(LowFirst(x, n)) == x
  {
    if n > 0 {
      var s := LowFirst(x, n);
      assert s[1..] == LowFirst(x / 256, n - 1);
      assert Pow2(8 * n) == 256 * Pow2(8 * n - 8) by { NextByte(8 * n - 8); }
      NumberOfBytes(x / 256, n - 1);
    }
  }

  // Everything written as a last block with the fixed codes is read again, to the last bit,
  // and what is read is what it says.
  lemma EncodedRead(ts: seq<Token>)
    requires AllFit(ts) && Reaches(0, ts)
    ensures RFC.Valid() && RFC.ValidOrder()
    ensures Stream(RFC, Encoded(ts), 0, []) == Ok(Expand([], ts), 3 + Width(ts))
  {
    RfcStandard();
    EncodedNumber(ts);
    hide *;
    LastFixed(RFC, ts, Encoded(ts), 0);
  }

  lemma EncodedNumber(ts: seq<Token>)
    requires AllFit(ts)
    ensures 3 + Width(ts) <= 8 * |Encoded(ts)| && Rest(Encoded(ts), 0) == 3 + Shl(Written(ts, 0), 3)
  {
    assert Pow2(3) == 8;
    hide Written, Width, Pow2, Shl, AllFit, AsNumber, LowFirst;
    var v, w, n := Written(ts, 0), Width(ts), (10 + Width(ts)) / 8;
    WrittenBound(ts);
    PutBound(3, 3, v, w);
    Pow2Mono(3 + w, 8 * n);
    NumberOfBytes(3 + Shl(v, 3), n);
  }

  // The same by looking codes up ahead: these streams need no slack.
  lemma EncodedLooked(ts: seq<Token>)
    requires AllFit(ts) && Reaches(0, ts)
    ensures LOOKING.Looking() && LOOKING.ValidOrder()
    ensures Stream(LOOKING, Encoded(ts), 0, []) == Ok(Expand([], ts), 3 + Width(ts))
  {
    LookingValid();
    EncodedRead(ts);
    EncodedNumber(ts);
    hide *;
    LookedAlike(LOOKING, RFC, ts, Encoded(ts));
  }

  lemma LookedAlike(f: Alphabets, f': Alphabets, ts: seq<Token>, input: seq<Byte>)
    requires f.Looking() && f.ValidOrder() && f' == f.(ahead := false) && f'.Valid() && f'.ValidOrder()
    requires AllFit(ts) && Reaches(0, ts) && Rest(input, 0) == 3 + Shl(Written(ts, 0), 3)
    requires Stream(f', input, 0, []) == Ok(Expand([], ts), 3 + Width(ts))
    ensures Stream(f, input, 0, []) == Ok(Expand([], ts), 3 + Width(ts))
  {
    HeaderRead(input, Written(ts, 0));
    hide FieldAt, Rest, Written, Width, Expand, Block;
    assert OwnNone(f', input, 0, []);
    StreamSame(f, f', input, 0, []);
  }

  // Every string of bytes can be written so.
  function Literals(s: seq<Byte>): (ts: seq<Token>)
    ensures |ts| == |s|
  {
    seq(|s|, i requires 0 <= i < |s| => Literal(s[i]))
  }

  lemma {:induction false} LiteralsExpand(out: seq<Byte>, s: seq<Byte>)
    ensures AllFit(Literals(s)) && Reaches(|out|, Literals(s)) && Expand(out, Literals(s)) == out + s
    decreases s
  {
    if s != [] {
      assert Literals(s)[1..] == Literals(s[1..]);
      LiteralsExpand(out + [s[0]], s[1..]);
      assert out + s == out + [s[0]] + s[1..];
    }
  }

  lemma AllWritten(s: seq<Byte>)
    ensures RFC.Valid() && RFC.ValidOrder() && AllFit(Literals(s))
    ensures Stream(RFC, Encoded(Literals(s)), 0, []) == Ok(s, 3 + Width(Literals(s)))
  {
    LiteralsExpand([], s);
    hide *;
    EncodedRead(Literals(s));
    assert [] + s == s;
  }

  // The empty block.
  lemma NothingRead()
    ensures RFC.Valid() && RFC.ValidOrder() && Stream(RFC, [3, 0], 0, []) == Ok([], 10)
  {
    NothingEncoded();
    hide *;
    EncodedRead([]);
  }

  lemma NothingEncoded()
    ensures AllFit([]) && Reaches(0, []) && Encoded([]) == [3, 0] && Width([]) == 7 && Expand([], []) == []
  {
    EndWritten([]);
    ThreeBytes(3);
    hide Written;
    assert LowFirst(3, 2) == [3] + LowFirst(0, 1);
  }

  lemma EndWritten(ts: seq<Token>)
    requires ts == []
    ensures Written(ts, 0) == 0 && Shl(0, 3) == 0
  {
    RevZero(7);
    ShlOne(7);
    ShlOne(3);
  }

  lemma ThreeBytes(x: nat)
    requires x < 256
    ensures LowFirst(0, 1) == [0] && LowFirst(0, 2) == [0, 0] && LowFirst(x, 3) == [x, 0, 0]
  {
    assert LowFirst(0, 1) == [0] + LowFirst(0, 0);
    assert LowFirst(0, 2) == [0] + LowFirst(0, 1);
    assert LowFirst(x, 3) == [x] + LowFirst(0, 2);
  }

  // One byte, and a repetition of it ten times.
  lemma ElevenRead()
    ensures RFC.Valid() && RFC.ValidOrder()
    ensures Stream(RFC, [75, 68, 0, 0], 0, []) == Ok([97, 97, 97, 97, 97, 97, 97, 97, 97, 97, 97], 30)
  {
    ElevenEncoded([Literal(97), Copy(10, 1)]);
    ElevenExpand([Literal(97), Copy(10, 1)]);
    hide *;
    EncodedRead([Literal(97), Copy(10, 1)]);
  }

  lemma ElevenEncoded(ts: seq<Token>)
    requires ts == [Literal(97), Copy(10, 1)]
    ensures AllFit(ts) && Encoded(ts) == [75, 68, 0, 0] && Width(ts) == 27
  {
    ElevenWritten(ts);
    ByteCoded();
    ThreeBytes(68);
    hide Written, Width, AllFit, Shl;
    assert LowFirst(17483, 4) == [75] + LowFirst(68, 3);
  }

  lemma ElevenWritten(ts: seq<Token>)
    requires ts == [Literal(97), Copy(10, 1)]
    ensures AllFit(ts) && Written(ts, 0) == 2185 && Width(ts) == 27
  {
    hide Coded, Rev, Shl, LengthBits, DistanceBits, LengthSymbol;
    assert ts[0] == Literal(97) && ts[1..] == [Copy(10, 1)];
    CopyWritten(ts[1..]);
    ByteCoded();
    TokenOf(ts[0]);
  }

  lemma TokenOf(t: Token)
    requires t.Literal?
    ensures CodedToken(t, 8) == Coded(t.b, 8) && TokenBits(t) == SymbolBits(t.b)
  {
  }

  lemma ByteCoded()
    ensures Coded(97, 8) == 2185 && Shl(2185, 3) == 17480
  {
    ReversedCodes();
    ShlSmall(8);
    ShlSmall(2185);
    hide Shl, Rev;
  }

  lemma CopyWritten(ts: seq<Token>)
    requires ts == [Copy(10, 1)]
    ensures AllFit(ts) && Written(ts, 0) == 8 && Width(ts) == 19
  {
    EndWritten(ts[1..]);
    CopyCoded();
    hide CodedToken, TokenBits;
    assert Fits(ts[0]) && Written(ts, 0) == CodedToken(ts[0], 0);
  }

  lemma CopyParts()
    ensures LengthBits(10) == 0 && LengthSymbol(10) == 264 && LengthField(10) == 0 && DistanceBits(1) == 0
    ensures DistanceSymbol(1) == 0 == DistanceField(1)
  {
  }

  lemma CopyCoded()
    ensures CodedToken(Copy(10, 1), 0) == 8 && TokenBits(Copy(10, 1)) == 12
  {
    CopyParts();
    CopyZeros();
    hide Shl, Rev, LengthSymbol, LengthField, DistanceSymbol, DistanceField, LengthBits, DistanceBits, Coded;
  }

  lemma CopyZeros()
    ensures CodedDistance(1, 0) == 0 && Coded(264, 0) == 8 && Shl(0, 0) == 0
  {
    hide Shl, Rev, LengthSymbol, LengthField, DistanceSymbol, DistanceField, LengthBits, DistanceBits;
    CopyParts();
    ShlOne(0);
    ShlOne(5);
    ShlOne(7);
    RevZero(5);
    ReversedCodes();
  }

  lemma ReversedCodes()
    ensures Rev(7, 8) == 8 && Rev(8, 145) == 137
  {
    ReversedEight();
    ReversedNine();
    ShlSmall(1);
    hide Shl;
    assert Rev(8, 145) == Shl(1, 7) + Rev(7, 72);
  }

  lemma ReversedEight()
    ensures Rev(7, 8) == 8
  {
    RevZero(3);
    ShlSmall(0);
    ShlSmall(1);
    hide Shl;
    assert Rev(4, 1) == 8 && Rev(5, 2) == 8 && Rev(6, 4) == 8;
  }

  lemma ReversedNine()
    ensures Rev(7, 72) == 9
  {
    ShlSmall(0);
    ShlSmall(1);
    hide Shl;
    assert Rev(0, 0) == 0 && Rev(1, 1) == 1 && Rev(2, 2) == 1 && Rev(3, 4) == 1 && Rev(4, 9) == 9;
    assert Rev(5, 18) == 9 && Rev(6, 36) == 9;
  }

  lemma ElevenExpand(ts: seq<Token>)
    requires ts == [Literal(97), Copy(10, 1)]
    ensures Reaches(0, ts) && Expand([], ts) == [97, 97, 97, 97, 97, 97, 97, 97, 97, 97, 97]
  {
    RepeatByte(97, 1, 10);
    assert [97] == seq(1, _ => 97);
    hide CopyMatch;
    var rest := ts[1..];
    assert rest[0] == Copy(10, 1) && rest[1..] == [] && InReach(rest[0], 1) && Reaches(11, rest[1..]);
    assert Reaches(1, rest) && Said([], ts[0]) == [97];
    assert Expand([], ts) == Expand([97], rest) == Expand(CopyMatch([97], 1, 10), rest[1..]);
  }

  lemma {:induction false} RepeatByte(b: Byte, n: nat, len: nat)
    requires n > 0
    ensures CopyMatch(seq(n, _ => b), 1, len) == seq(n + len, _ => b)
    decreases len
  {
    if len > 0 {
      assert seq(n, _ => b) + [b] == seq(n + 1, _ => b);
      RepeatByte(b, n + 1, len - 1);
    }
  }
}
