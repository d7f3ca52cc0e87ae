// Check values of the CRC-32: what it leaves of any string and its checksum, and of one byte.
module CheckValues {
  import opened Bits
  import opened Crc

  lemma {:induction false} StepsAdd(x: nat, a: nat, b: nat)
    ensures Steps(Steps(x, a), b) == Steps(x, a + b)
  {
    if b > 0 {
      StepsAdd(x, a, b - 1);
    }
  }

  lemma ByteIs()
    ensures Pow2(8) == 256
  {
    NextByte(0);
  }

  // The low byte of a word and the rest of it.
  lemma LowByte(x: nat)
    ensures x == Xor(x % 256, Shl(x / 256, 8)) && x % 256 == Low(x, 8) && x / 256 == Shr(x, 8)
  {
    Split(x, 8);
    Join(x % 256, x / 256, 8);
    ShlSmall(x / 256);
    ByteIs();
    XorDisjoint(x % 256, x / 256, 8);
  }

  // Running the bytes of a word through the register is dividing them all at once.
  lemma {:induction false} BytesAtOnce(c: nat, x: nat, n: nat)
    requires x < Pow2(8 * n)
    ensures CrcBytes(c, LowFirst(x, n)) == Steps(Xor(c, x), 8 * n)
    decreases n
  {
    if n == 0 {
      XorComm(c, 0);
    } else {
      var b, y := x % 256, x / 256;
      NextByte(8 * (n - 1));
      BytesAtOnce(CrcByte(c, b), y, n - 1);
      CrcAppend(c, [b], LowFirst(y, n - 1));
      assert [b][..0] == [];
      OneByteIn(c, x);
      StepsAdd(Xor(c, x), 8, 8 * (n - 1));
    }
  }

  lemma OneByteIn(c: nat, x: nat)
    ensures Xor(CrcByte(c, x % 256), x / 256) == Steps(Xor(c, x), 8)
  {
    var b, y := x % 256, x / 256;
    LowByte(x);
    XorAssoc(c, b, Shl(y, 8));
    StepsXor(Xor(c, b), Shl(y, 8), 8);
    StepsShift(y, 8);
  }

  lemma {:induction false} StepsBound(c: nat, n: nat)
    requires c < 0x1_0000_0000
    ensures Steps(c, n) < 0x1_0000_0000
  {
    if n > 0 {
      StepsBound(c, n - 1);
      WordPower();
      XorBound(Steps(c, n - 1) / 2, POLY, 32);
    }
  }

  lemma WordPower()
    ensures Pow2(32) == 0x1_0000_0000
  {
    Powers();
    assert Pow2(32) == 2 * Pow2(31);
  }

  lemma {:induction false} CrcBound(c: nat, s: seq<Byte>)
    requires c < 0x1_0000_0000
    ensures CrcBytes(c, s) < 0x1_0000_0000
  {
    if s != [] {
      CrcBound(c, s[..|s| - 1]);
      WordPower();
      Pow2Mono(8, 32);
      ByteIs();
      XorBound(CrcBytes(c, s[..|s| - 1]), s[|s| - 1], 32);
      StepsBound(Xor(CrcBytes(c, s[..|s| - 1]), s[|s| - 1]), 8);
    }
  }

  // A string followed by its own checksum, lowest byte first, leaves the same in the
  // register whatever the string is.
  lemma Residue(s: seq<Byte>)
    ensures var x := Crc32(s);
            && x < 0x1_0000_0000
            && CrcBytes(0xFFFFFFFF, s + [x % 256, x / 256 % 256, x / 0x1_0000 % 256, x / 0x100_0000]) == 0xDEBB20E3
  {
    var c, x := CrcBytes(0xFFFFFFFF, s), Crc32(s);
    CrcBound(0xFFFFFFFF, s);
    WordPower();
    XorBound(c, 0xFFFFFFFF, 32);
    FourBytes(x);
    CrcAppend(0xFFFFFFFF, s, LowFirst(x, 4));
    BytesAtOnce(c, x, 4);
    XorAssoc(c, c, 0xFFFFFFFF);
    XorSelf(c);
    OnesDivided();
  }

  lemma FourBytes(x: nat)
    requires x < 0x1_0000_0000
    ensures LowFirst(x, 4) == [x % 256, x / 256 % 256, x / 0x1_0000 % 256, x / 0x100_0000]
  {
    assert x / 256 / 256 == x / 0x1_0000 && x / 256 / 256 / 256 == x / 0x100_0000 < 256;
    assert LowFirst(x / 0x100_0000, 1) == [x / 0x100_0000] + LowFirst(x / 0x100_0000 / 256, 0);
    assert LowFirst(x / 0x1_0000, 2) == [x / 0x1_0000 % 256] + LowFirst(x / 0x100_0000, 1);
    assert LowFirst(x / 256, 3) == [x / 256 % 256] + LowFirst(x / 0x1_0000, 2);
  }

  // ------------------------------------------------------- division of all ones

  // One more bit in the lowest place, and one more digit of four.
  lemma XorBit(x: nat, y: nat, i: nat, j: nat)
    requires i < 2 && j < 2
    ensures Xor(2 * x + i, 2 * y + j) == 2 * Xor(x, y) + if i == j then 0 else 1
  {
    hide Xor;
    XorBits(2 * x + i, 2 * y + j);
  }


  function Differ(i: nat, j: nat): nat {
    if i == j then 0 else 1
  }

  lemma XorBits4(x: nat, y: nat, a: nat, b: nat, c: nat, d: nat, a': nat, b': nat, c': nat, d': nat)
    requires a < 2 && b < 2 && c < 2 && d < 2 && a' < 2 && b' < 2 && c' < 2 && d' < 2
    ensures Xor(16 * x + (8 * a + 4 * b + 2 * c + d), 16 * y + (8 * a' + 4 * b' + 2 * c' + d'))
         == 16 * Xor(x, y) + (8 * Differ(a, a') + 4 * Differ(b, b') + 2 * Differ(c, c') + Differ(d, d'))
  {
    hide Xor;
    XorBit(x, y, a, a');
    XorBit(2 * x + a, 2 * y + a', b, b');
    XorBit(2 * (2 * x + a) + b, 2 * (2 * y + a') + b', c, c');
    XorBit(2 * (2 * (2 * x + a) + b) + c, 2 * (2 * (2 * y + a') + b') + c', d, d');
  }

  // A word of eight digits.
  function Word(a: nat, b: nat, c: nat, d: nat, e: nat, f: nat, g: nat, h: nat): nat {
    0x1000_0000 * a + 0x100_0000 * b + 0x10_0000 * c + 0x1_0000 * d + 0x1000 * e + 0x100 * f + 0x10 * g + h
  }

  // One bit of a digit turned over.
  function Flip1(a: nat): nat {
    if a % 2 == 0 then a + 1 else a - 1
  }

  function Flip2(a: nat): nat {
    if a / 2 % 2 == 0 then a + 2 else a - 2
  }

  function Flip8(a: nat): nat {
    if a < 8 then a + 8 else a - 8
  }

  lemma Bits4(v: nat) returns (a: nat, b: nat, c: nat, d: nat)
    requires v < 16
    ensures a < 2 && b < 2 && c < 2 && d < 2 && v == 8 * a + 4 * b + 2 * c + d
  {
    a := if v < 8 then 0 else 1;
    var r := v - 8 * a;
    b := if r < 4 then 0 else 1;
    c := if r - 4 * b < 2 then 0 else 1;
    d := r - 4 * b - 2 * c;
  }

  lemma Flips(v: nat, a: nat, b: nat, c: nat, d: nat)
    requires a < 2 && b < 2 && c < 2 && d < 2 && v == 8 * a + 4 * b + 2 * c + d
    ensures Flip1(15 - v) == 14 - v + 2 * d && Flip2(15 - v) == 13 - v + 4 * c
    ensures Flip2(Flip1(v)) == v + 3 - 2 * d - 4 * c && Flip2(v) == v + 2 - 4 * c && Flip8(v) == v + 8 - 16 * a
    ensures Flip8(Flip2(Flip1(v))) == v + 11 - 2 * d - 4 * c - 16 * a
  {
  }

  // The digits of the polynomial, and what they turn over.
  predicate Turns(p: nat, v: nat, z: nat)
    requires v < 16
  {
    || (p == 0xE && z == Flip1(15 - v)) || (p == 0xD && z == Flip2(15 - v))
    || (p == 0xB && z == Flip8(Flip2(Flip1(v)))) || (p == 8 && z == Flip8(v))
    || (p == 3 && z == Flip2(Flip1(v))) || (p == 2 && z == Flip2(v)) || (p == 0 && z == v)
  }

  lemma XorDigit(x: nat, y: nat, v: nat, p: nat, z: nat)
    requires v < 16 && Turns(p, v, z)
    ensures Xor(16 * x + v, 16 * y + p) == 16 * Xor(x, y) + z
  {
    hide Xor, Flip1, Flip2, Flip8;
    var a, b, c, d := Bits4(v);
    Flips(v, a, b, c, d);
    if p == 0xE {
      XorBits4(x, y, a, b, c, d, 1, 1, 1, 0);
    } else if p == 0xD {
      XorBits4(x, y, a, b, c, d, 1, 1, 0, 1);
    } else if p == 0xB {
      XorBits4(x, y, a, b, c, d, 1, 0, 1, 1);
    } else if p == 8 {
      XorBits4(x, y, a, b, c, d, 1, 0, 0, 0);
    } else if p == 3 {
      XorBits4(x, y, a, b, c, d, 0, 0, 1, 1);
    } else if p == 2 {
      XorBits4(x, y, a, b, c, d, 0, 0, 1, 0);
    } else {
      XorBits4(x, y, a, b, c, d, 0, 0, 0, 0);
    }
  }

  lemma TopDigits(a: nat, b: nat)
    requires a < 16 && b < 16
    ensures Xor(0x10 * a + b, 0xED) == 0x10 * Flip1(15 - a) + Flip2(15 - b)
  {
    assert Xor(0, 0) == 0;
    hide Xor, Flip1, Flip2, Flip8;
    XorDigit(0, 0, a, 0xE, Flip1(15 - a));
    XorDigit(a, 0xE, b, 0xD, Flip2(15 - b));
  }

  lemma HighDigits(x: nat, c: nat, d: nat)
    requires c < 16 && d < 16
    ensures Xor(0x100 * x + 0x10 * c + d, 0xEDB8)
         == 0x100 * Xor(x, 0xED) + 0x10 * Flip8(Flip2(Flip1(c))) + Flip8(d)
  {
    hide Xor, Flip1, Flip2, Flip8;
    XorDigit(x, 0xED, c, 0xB, Flip8(Flip2(Flip1(c))));
    XorDigit(16 * x + c, 0xEDB, d, 8, Flip8(d));
  }

  lemma LowDigits(x: nat, e: nat, f: nat, g: nat, h: nat)
    requires e < 16 && f < 16 && g < 16 && h < 16
    ensures Xor(0x1_0000 * x + 0x1000 * e + 0x100 * f + 0x10 * g + h, POLY)
         == 0x1_0000 * Xor(x, 0xEDB8) + 0x1000 * Flip8(e) + 0x100 * Flip2(Flip1(f)) + 0x10 * Flip2(g) + h
  {
    hide Xor, Flip1, Flip2, Flip8;
    XorDigit(x, 0xEDB8, e, 8, Flip8(e));
    XorDigit(16 * x + e, 0xEDB88, f, 3, Flip2(Flip1(f)));
    XorDigit(0x100 * x + 16 * e + f, 0xEDB883, g, 2, Flip2(g));
    XorDigit(0x1000 * x + 0x100 * e + 0x10 * f + g, 0xEDB8832, h, 0, h);
  }

  lemma PolyXor(a: nat, b: nat, c: nat, d: nat, e: nat, f: nat, g: nat, h: nat)
    requires a < 16 && b < 16 && c < 16 && d < 16 && e < 16 && f < 16 && g < 16 && h < 16
    ensures Xor(Word(a, b, c, d, e, f, g, h), POLY)
         == Word(Flip1(15 - a), Flip2(15 - b), Flip8(Flip2(Flip1(c))), Flip8(d), Flip8(e), Flip2(Flip1(f)), Flip2(g), h)
  {
    hide Xor, Flip1, Flip2, Flip8;
    TopDigits(a, b);
    HighDigits(0x10 * a + b, c, d);
    var x := 0x1000 * a + 0x100 * b + 0x10 * c + d;
    LowDigits(x, e, f, g, h);
  }

  // All ones, divided 8 bits at a time.
  lemma OnesDivided1()
    ensures Steps(0xFFFFFFFF, 8) == 0x2DFD1072
  {
    hide Xor;
    PolyXor(7, 0xF, 0xF, 0xF, 0xF, 0xF, 0xF, 0xF);
    assert Steps(0xFFFFFFFF, 1) == 0x92477CDF;
    PolyXor(4, 9, 2, 3, 0xB, 0xE, 6, 0xF);
    assert Steps(0xFFFFFFFF, 2) == 0xA49B3D4F;
    PolyXor(5, 2, 4, 0xD, 9, 0xE, 0xA, 7);
    assert Steps(0xFFFFFFFF, 3) == 0xBFF51D87;
    PolyXor(5, 0xF, 0xF, 0xA, 8, 0xE, 0xC, 3);
    assert Steps(0xFFFFFFFF, 4) == 0xB2420DE3;
    PolyXor(5, 9, 2, 1, 0, 6, 0xF, 1);
    assert Steps(0xFFFFFFFF, 5) == 0xB49985D1;
    PolyXor(5, 0xA, 4, 0xC, 0xC, 2, 0xE, 8);
    assert Steps(0xFFFFFFFF, 6) == 0xB7F441C8;
    assert Steps(0xFFFFFFFF, 7) == 0x5BFA20E4;
    assert Steps(0xFFFFFFFF, 8) == 0x2DFD1072;
  }

  lemma OnesDivided2()
    ensures Steps(0x2DFD1072, 8) == 0xBE26ED00
  {
    hide Xor;
    assert Steps(0x2DFD1072, 1) == 0x16FE8839;
    PolyXor(0, 0xB, 7, 0xF, 4, 4, 1, 0xC);
    assert Steps(0x2DFD1072, 2) == 0xE6C7C73C;
    assert Steps(0x2DFD1072, 3) == 0x7363E39E;
    assert Steps(0x2DFD1072, 4) == 0x39B1F1CF;
    PolyXor(1, 0xC, 0xD, 8, 0xF, 8, 0xE, 7);
    assert Steps(0x2DFD1072, 5) == 0xF1607BC7;
    PolyXor(7, 8, 0xB, 0, 3, 0xD, 0xE, 3);
    assert Steps(0x2DFD1072, 6) == 0x9508BEC3;
    PolyXor(4, 0xA, 8, 4, 5, 0xF, 6, 1);
    assert Steps(0x2DFD1072, 7) == 0xA73CDC41;
    PolyXor(5, 3, 9, 0xE, 6, 0xE, 2, 0);
    assert Steps(0x2DFD1072, 8) == 0xBE26ED00;
  }

  lemma OnesDivided3()
    ensures Steps(0xBE26ED00, 8) == 0x00BE26ED
  {
    hide Xor;
    assert Steps(0xBE26ED00, 1) == 0x5F137680;
    assert Steps(0xBE26ED00, 2) == 0x2F89BB40;
    assert Steps(0xBE26ED00, 3) == 0x17C4DDA0;
    assert Steps(0xBE26ED00, 4) == 0x0BE26ED0;
    assert Steps(0xBE26ED00, 5) == 0x05F13768;
    assert Steps(0xBE26ED00, 6) == 0x02F89BB4;
    assert Steps(0xBE26ED00, 7) == 0x017C4DDA;
    assert Steps(0xBE26ED00, 8) == 0x00BE26ED;
  }

  lemma OnesDivided4()
    ensures Steps(0x00BE26ED, 8) == 0xDEBB20E3
  {
    hide Xor;
    PolyXor(0, 0, 5, 0xF, 1, 3, 7, 6);
    assert Steps(0x00BE26ED, 1) == 0xEDE79056;
    assert Steps(0x00BE26ED, 2) == 0x76F3C82B;
    PolyXor(3, 0xB, 7, 9, 0xE, 4, 1, 5);
    assert Steps(0x00BE26ED, 3) == 0xD6C16735;
    PolyXor(6, 0xB, 6, 0, 0xB, 3, 9, 0xA);
    assert Steps(0x00BE26ED, 4) == 0x86D830BA;
    assert Steps(0x00BE26ED, 5) == 0x436C185D;
    PolyXor(2, 1, 0xB, 6, 0, 0xC, 2, 0xE);
    assert Steps(0x00BE26ED, 6) == 0xCC0E8F0E;
    assert Steps(0x00BE26ED, 7) == 0x66074787;
    PolyXor(3, 3, 0, 3, 0xA, 3, 0xC, 3);
    assert Steps(0x00BE26ED, 8) == 0xDEBB20E3;
  }

  lemma OnesDivided()
    ensures Steps(0xFFFFFFFF, 32) == 0xDEBB20E3
  {
    OnesDivided1();
    OnesDivided2();
    OnesDivided3();
    OnesDivided4();
    StepsAdd(0xFFFFFFFF, 8, 8);
    StepsAdd(0xFFFFFFFF, 16, 8);
    StepsAdd(0xFFFFFFFF, 24, 8);
  }

  // The complement of a word.
  lemma {:induction false} XorOnes(x: nat, n: nat)
    requires x < Pow2(n)
    ensures Xor(x, Pow2(n) - 1) == Pow2(n) - 1 - x
    decreases n
  {
    if n > 0 {
      XorBits(x, Pow2(n) - 1);
      XorOnes(x / 2, n - 1);
    }
  }

  lemma CrcOfZero()
    ensures Crc32([0]) == 0xD202EF8D
  {
    assert [0][..0] == [];
    XorComm(0xFFFFFFFF, 0);
    OnesDivided1();
    WordPower();
    hide Xor, Steps;
    XorOnes(0x2DFD1072, 32);
  }
}
