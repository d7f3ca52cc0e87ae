// The CRC-32 of misc.c: a table filled by makecrc, and updcrc which runs bytes
// through the shift register with it. Registers are 32-bit words as naturals.
module Crc {
  import opened Bits

  // The polynomial of section 8 of RFC 1952, x^0 in the most significant bit.
  const POLY: nat := 0xEDB88320

  // One step of the division: a bit is shifted out of the register.
  function Step(c: nat): nat {
    if c % 2 == 1 then Xor(c / 2, POLY) else c / 2
  }

  function Steps(c: nat, n: nat): nat {
    if n == 0 then c else Step(Steps(c, n - 1))
  }

  // The register after one byte, and after a string of bytes, bit by bit.
  function CrcByte(c: nat, b: Byte): nat {
    Steps(Xor(c, b), 8)
  }

  function CrcBytes(c: nat, s: seq<Byte>): nat {
    if s == [] then c else CrcByte(CrcBytes(c, s[..|s| - 1]), s[|s| - 1])
  }

  const ONES: nat := 0xFFFFFFFF

  // The checksum of a whole string.
  function Crc32(s: seq<Byte>): nat {
    Xor(CrcBytes(ONES, s), ONES)
  }

  // Running the register over a string in two parts is running it over the whole.
  lemma {:induction false} CrcAppend(c: nat, s: seq<Byte>, t: seq<Byte>)
    ensures CrcBytes(c, s + t) == CrcBytes(CrcBytes(c, s), t)
  {
    if t == [] {
      assert s + t == s;
    } else {
      var init := t[..|t| - 1];
      assert (s + t)[..|s + t| - 1] == s + init;
      CrcAppend(c, s, init);
    }
  }

  // Four words in two pairs can be taken in the other pairing.
  lemma XorSwap(a: nat, b: nat, c: nat, d: nat)
    ensures Xor(Xor(a, b), Xor(c, d)) == Xor(Xor(a, c), Xor(b, d))
  {
    XorAssoc(a, b, Xor(c, d));
    XorAssoc(b, c, d);
    XorComm(b, c);
    XorAssoc(c, b, d);
    XorAssoc(a, c, Xor(b, d));
  }

  // The division is linear over exclusive or.
  lemma StepXor(x: nat, y: nat)
    ensures Step(Xor(x, y)) == Xor(Step(x), Step(y))
  {
    XorBits(x, y);
    var a, b := x / 2, y / 2;
    if x % 2 == 1 && y % 2 == 1 {
      XorSwap(a, POLY, b, POLY);
      XorSelf(POLY);
      XorComm(Xor(a, b), 0);
    } else if x % 2 == 1 {
      XorAssoc(a, b, POLY);
      XorComm(b, POLY);
      XorAssoc(a, POLY, b);
    } else if y % 2 == 1 {
      XorAssoc(a, b, POLY);
    }
  }

  lemma {:induction false} StepsXor(x: nat, y: nat, n: nat)
    ensures Steps(Xor(x, y), n) == Xor(Steps(x, n), Steps(y, n))
  {
    if n != 0 {
      StepsXor(x, y, n - 1);
      StepXor(Steps(x, n - 1), Steps(y, n - 1));
    }
  }

  // The division steps of a word with n low zeros only shift it.
  lemma {:induction false} StepsShift(x: nat, n: nat)
    ensures Steps(Shl(x, n), n) == x
  {
    if n != 0 {
      StepsInner(Shl(x, n), n);
      StepsShift(x, n - 1);
    }
  }

  lemma {:induction false} StepsInner(x: nat, n: nat)
    requires n > 0
    ensures Steps(x, n) == Steps(Step(x), n - 1)
  {
    if n > 1 { StepsInner(x, n - 1); }
  }

  lemma {:induction false} XorDisjoint(x: nat, y: nat, n: nat)
    requires x < Pow2(n)
    ensures Xor(x, Shl(y, n)) == x + Shl(y, n)
    decreases n
  {
    if n != 0 {
      XorBits(x, Shl(y, n));
      XorDisjoint(x / 2, y, n - 1);
    }
  }

  // Eight steps on a word: eight steps on its low byte, and a shift.
  lemma StepsByByte(x: nat)
    ensures Steps(x, 8) == Xor(Steps(Low(x, 8), 8), Shr(x, 8))
  {
    Split(x, 8);
    XorDisjoint(Low(x, 8), Shr(x, 8), 8);
    StepsXor(Low(x, 8), Shl(Shr(x, 8), 8), 8);
    StepsShift(Shr(x, 8), 8);
  }

  // ---------------------------------------------------------------- makecrc

  const TERMS: seq<nat> := [0, 1, 2, 4, 5, 7, 8, 10, 11, 12, 16, 22, 23, 26]

  // Powers of x in increasing order, those of a 32-bit polynomial.
  ghost predicate Ascending(t: seq<nat>) {
    && (forall i :: 0 <= i < |t| ==> t[i] <= 31)
    && (forall i :: 0 < i < |t| ==> t[i - 1] < t[i])
  }

  // Sum of the first i of them, x^0 in bit 31.
  function Terms(t: seq<nat>, i: nat): nat
    requires i <= |t| && forall i :: 0 <= i < |t| ==> t[i] <= 31
  {
    if i == 0 then 0 else Terms(t, i - 1) + Pow2(31 - t[i - 1])
  }

  lemma EarlyTerms(t: seq<nat>)
    requires t == TERMS
    ensures |t| == 14
    ensures t[0] == 0 && t[1] == 1 && t[2] == 2 && t[3] == 4 && t[4] == 5 && t[5] == 7 && t[6] == 8
  {
  }

  lemma LateTerms(t: seq<nat>)
    requires t == TERMS
    ensures |t| == 14
    ensures t[7] == 10 && t[8] == 11 && t[9] == 12 && t[10] == 16 && t[11] == 22 && t[12] == 23 && t[13] == 26
  {
  }

  lemma TermsAscend(t: seq<nat>)
    requires t == TERMS
    ensures Ascending(t)
  {
    EarlyTerms(t);
    LateTerms(t);
  }

  lemma TermsArePoly(t: seq<nat>)
    requires t == TERMS
    ensures Ascending(t) && Terms(t, |t|) == POLY
  {
    EarlyTerms(t);
    LateTerms(t);
    TermsAscend(t);
    HighTerms(t);
    MiddleTerms(t);
    LowTerms(t);
  }

  // The next term, and its place.
  lemma NextTerm(t: seq<nat>, i: nat, x: nat)
    requires i < |t| && Ascending(t) && Pow2(31 - t[i]) == x
    ensures Terms(t, i + 1) == Terms(t, i) + x
  {
  }

  lemma Powers()
    ensures Pow2(5) == 0x20 && Pow2(8) == 0x100 && Pow2(9) == 0x200 && Pow2(15) == 0x8000
    ensures Pow2(19) == 0x80000 && Pow2(20) == 0x100000 && Pow2(21) == 0x200000
    ensures Pow2(23) == 0x800000 && Pow2(24) == 0x1000000 && Pow2(26) == 0x4000000 && Pow2(27) == 0x8000000
    ensures Pow2(29) == 0x20000000 && Pow2(30) == 0x40000000 && Pow2(31) == 0x80000000
  {
    assert Pow2(1) == 2 && Pow2(2) == 4 && Pow2(3) == 8 && Pow2(4) == 16;
    assert Pow2(5) == 32 && Pow2(6) == 64 && Pow2(7) == 128;
    NextByte(0);
    NextByte(1);
    NextByte(2);
    NextByte(3);
    NextByte(4);
    NextByte(5);
    NextByte(6);
    NextByte(7);
    NextByte(8);
    NextByte(10);
    NextByte(11);
    NextByte(12);
    NextByte(13);
    NextByte(14);
    NextByte(15);
    NextByte(16);
    NextByte(18);
    NextByte(19);
    NextByte(21);
    NextByte(22);
    NextByte(23);
  }

  lemma HighTerms(t: seq<nat>)
    requires Ascending(t) && |t| >= 7
    requires t[0] == 0 && t[1] == 1 && t[2] == 2 && t[3] == 4 && t[4] == 5 && t[5] == 7 && t[6] == 8
    ensures Terms(t, 7) == 0xED800000
  {
    Powers();
    NextTerm(t, 0, 0x80000000);
    NextTerm(t, 1, 0x40000000);
    NextTerm(t, 2, 0x20000000);
    NextTerm(t, 3, 0x8000000);
    NextTerm(t, 4, 0x4000000);
    NextTerm(t, 5, 0x1000000);
    NextTerm(t, 6, 0x800000);
  }

  lemma MiddleTerms(t: seq<nat>)
    requires Ascending(t) && |t| >= 10 && t[7] == 10 && t[8] == 11 && t[9] == 12
    ensures Terms(t, 10) == Terms(t, 7) + 0x380000
  {
    Powers();
    NextTerm(t, 7, 0x200000);
    NextTerm(t, 8, 0x100000);
    NextTerm(t, 9, 0x80000);
  }

  lemma LowTerms(t: seq<nat>)
    requires Ascending(t) && |t| >= 14 && t[10] == 16 && t[11] == 22 && t[12] == 23 && t[13] == 26
    ensures Terms(t, 14) == Terms(t, 10) + 0x8320
  {
    Powers();
    NextTerm(t, 10, 0x8000);
    NextTerm(t, 11, 0x200);
    NextTerm(t, 12, 0x100);
    NextTerm(t, 13, 0x20);
  }

  lemma {:induction false} TermsMultiple(t: seq<nat>, i: nat, n: nat)
    requires Ascending(t) && i <= |t| && n <= 32 && (i == 0 || n <= 31 - t[i - 1])
    ensures Low(Terms(t, i), n) == 0
  {
    if i == 0 {
      LowZero(n);
    } else {
      TermsMultiple(t, i - 1, n);
      MultiplePlus(Terms(t, i - 1), n, 31 - t[i - 1]);
    }
  }

  // One more term in the bit pattern.
  lemma AddTerm(t: seq<nat>, i: nat)
    requires Ascending(t) && i < |t|
    ensures Or(Terms(t, i), Shl(1, 31 - t[i])) == Terms(t, i + 1)
  {
    TermsMultiple(t, i, 31 - t[i] + 1);
    OrBelow(Terms(t, i), 31 - t[i]);
    ShlOne(31 - t[i]);
  }

  // One more bit of the table index.
  lemma TableStep(i: nat, m: nat)
    ensures Steps(Low(i, m + 1), m + 1)
         == if Bit(i, m) == 1 then Xor(Step(Steps(Low(i, m), m)), POLY) else Step(Steps(Low(i, m), m))
  {
    LowSucc(i, m);
    if Bit(i, m) == 1 {
      Split(i, m);
      XorDisjoint(Low(i, m), 1, m);
      StepsXor(Low(i, m), Shl(1, m), m + 1);
      StepsShift(1, m);
      assert Step(1) == POLY;
    } else {
      ShlOne(m);
    }
  }

  // Lines 293-296: the terms as a bit pattern.
  method Polynomial(p: seq<nat>) returns (e: nat)
    requires Ascending(p)
    ensures e == Terms(p, |p|)
  {
    e := 0;
    for i := 0 to |p|
      invariant e == Terms(p, i)
    {
      AddTerm(p, i);
      e := Or(e, Shl(1, 31 - p[i]));
    }
  }

  // Lines 302-309: shift in the bits of i one at a time, from the lowest.
  method TableEntry(i: nat, e: nat) returns (c: nat)
    requires i < 256 && e == POLY
    ensures c == Steps(i, 8)
  {
    c := 0;
    var k := Or(i, 256);
    ghost var m: nat := 0;
    ShiftStart(i);
    while k != 1
      invariant Shifting(i, m, c, k)
      decreases 8 - m
    {
      c := ShiftIn(i, m, c, k, e);
      k := Shr(k, 1);
      m := m + 1;
    }
    ShiftEnd(i, m, c);
  }

  // m bits of i are in the register; k holds the rest and a marker above them.
  ghost predicate Shifting(i: nat, m: nat, c: nat, k: nat) {
    m <= 8 && k == Shr(i, m) + Pow2(8 - m) && c == Steps(Low(i, m), m)
  }

  lemma ShiftStart(i: nat)
    requires i < 256
    ensures Shifting(i, 0, 0, Or(i, 256))
  {
    assert Pow2(8) == 256 && Shl(1, 8) == 256;
    OrIsPlus(i, 1, 8);
  }

  lemma ShiftEnd(i: nat, m: nat, c: nat)
    requires i < 256 && Shifting(i, m, c, 1)
    ensures c == Steps(i, 8)
  {
    assert Pow2(8) == 256;
    SmallShr(i, 8);
  }

  // Lines 305-307, with k's next bit in its lowest place.
  method ShiftIn(ghost i: nat, ghost m: nat, c0: nat, k: nat, e: nat) returns (c: nat)
    requires i < 256 && e == POLY && Shifting(i, m, c0, k) && k != 1
    ensures m < 8 && Shifting(i, m + 1, c, Shr(k, 1))
  {
    ShiftRest(i, m);
    TableStep(i, m);
    LowBit(c0);
    LowBit(k);
    c := if And(c0, 1) != 0 then Xor(Shr(c0, 1), e) else Shr(c0, 1);
    if And(k, 1) != 0 {
      c := Xor(c, e);
    }
  }

  lemma ShiftRest(i: nat, m: nat)
    requires i < 256 && m <= 8 && Shr(i, m) + Pow2(8 - m) != 1
    ensures m < 8 && (Shr(i, m) + Pow2(8 - m)) % 2 == Bit(i, m)
    ensures Shr(Shr(i, m) + Pow2(8 - m), 1) == Shr(i, m + 1) + Pow2(8 - (m + 1))
  {
    assert Pow2(8) == 256;
    SmallShr(i, 8);
    ShrShr(i, m, 1);
    LowBit(Shr(i, m));
    LowBit(Shr(i, m) + Pow2(8 - m));
  }

  // Lines 278-311 and 199-217: the table, and the register that updcrc keeps
  // between calls.
  class Checksum {
    const tab: array<nat>
    var crc: nat

    ghost predicate TableOk()
      reads tab
    {
      tab.Length == 256 && forall i: nat :: i < 256 ==> tab[i] == Steps(i, 8)
    }

    constructor ()
      ensures fresh(tab) && TableOk() && crc == ONES
    {
      tab := new nat[256];
      crc := ONES;
      new;
      MakeCrc();
    }

    method MakeCrc()
      requires tab.Length == 256
      modifies tab
      ensures TableOk()
    {
      var p: seq<nat> := TERMS;
      TermsArePoly(p);
      var e := Polynomial(p);
      tab[0] := 0;
      StepsShift(0, 8);
      ShlOne(8);
      for i := 1 to 256
        invariant forall n: nat :: n < i ==> tab[n] == Steps(n, 8)
      {
        var c := TableEntry(i, e);
        tab[i] := c;
      }
    }

    // updcrc(s, n): with a null pointer, reset the register; otherwise run the
    // n bytes at s through it. Returns the checksum so far.
    method UpdCrc(s: array?<Byte>, n: nat) returns (sum: nat)
      requires TableOk() && (s != null ==> n <= s.Length)
      modifies this`crc
      ensures crc == if s == null then ONES else CrcBytes(old(crc), s[..n])
      ensures sum == Xor(crc, ONES)
    {
      var c;
      ghost var c0, bytes := crc, if s == null then [] else s[..n];
      if s == null {
        c := ONES;
      } else {
        c := crc;
        var i := 0;
        while i < n
          invariant 0 <= i <= n && c == CrcBytes(c0, bytes[..i])
        {
          assert bytes[..i + 1][..i] == bytes[..i];
          ByTable(c, s[i]);
          c := Xor(tab[And(Xor(c, s[i]), 255)], Shr(c, 8));
          i := i + 1;
        }
        assert bytes[..i] == bytes;
      }
      crc := c;
      assert s != null ==> s[..n] == bytes;
      sum := Xor(c, ONES);
    }
  }

  // The table does the eight steps of a byte at once.
  lemma ByTable(c: nat, b: Byte)
    ensures And(Xor(c, b), 255) < 256
    ensures CrcByte(c, b) == Xor(Steps(And(Xor(c, b), 255), 8), Shr(c, 8))
  {
    var x := Xor(c, b);
    AndMask(x, 8);
    Split(x, 8);
    StepsByByte(x);
    XorShr(c, b, 8);
    SmallShr(b, 8);
    XorComm(Shr(c, 8), 0);
  }
}
