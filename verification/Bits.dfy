// C's word operators on naturals, defined bit by bit: shifts, masks, bit
// reversal, and inclusive/exclusive or.
module Bits {

  type Byte = x: nat | x < 256 witness 0

  function Pow2(n: nat): (r: nat)
    ensures r > 0
  {
    if n == 0 then 1 else 2 * Pow2(n - 1)
  }

  // x << n
  function Shl(x: nat, n: nat): nat {
    if n == 0 then x else 2 * Shl(x, n - 1)
  }

  // x >> n
  function Shr(x: nat, n: nat): nat
    decreases n
  {
    if n == 0 then x else Shr(x / 2, n - 1)
  }

  // x & ((1 << n) - 1), which is x & mask_bits[n]
  function Low(x: nat, n: nat): nat
    decreases n
  {
    if n == 0 then 0 else x % 2 + 2 * Low(x / 2, n - 1)
  }

  // (x >> n) & 1
  function Bit(x: nat, n: nat): nat {
    Shr(x, n) % 2
  }

  // x | y
  function Or(x: nat, y: nat): nat
    decreases x + y
  {
    if x == 0 then y
    else if y == 0 then x
    else (if x % 2 == 1 || y % 2 == 1 then 1 else 0) + 2 * Or(x / 2, y / 2)
  }

  // x & y
  function And(x: nat, y: nat): nat
    decreases x + y
  {
    if x == 0 || y == 0 then 0
    else (if x % 2 == 1 && y % 2 == 1 then 1 else 0) + 2 * And(x / 2, y / 2)
  }

  // x ^ y
  function Xor(x: nat, y: nat): nat
    decreases x + y
  {
    if x == 0 then y
    else if y == 0 then x
    else (if x % 2 != y % 2 then 1 else 0) + 2 * Xor(x / 2, y / 2)
  }

  // The low n bits of x read the other way round: the first bit of a stream
  // becomes the most significant one.
  function Rev(n: nat, x: nat): nat
    decreases n
  {
    if n == 0 then 0 else Shl(x % 2, n - 1) + Rev(n - 1, x / 2)
  }

  // The n low bytes of x, lowest first.
  function LowFirst(x: nat, n: nat): (s: seq<Byte>)
    ensures |s| == n
  {
    if n == 0 then [] else [x % 256] + LowFirst(x / 256, n - 1)
  }

  lemma {:induction false} ShlOne(n: nat)
    ensures Shl(1, n) == Pow2(n) && Shl(0, n) == 0
  {
    if n != 0 { ShlOne(n - 1); }
  }

  lemma ShlSmall(x: nat)
    ensures Shl(x, 0) == x && Shl(x, 1) == 2 * x && Shl(x, 2) == 4 * x && Shl(x, 3) == 8 * x && Shl(x, 4) == 16 * x
    ensures Shl(x, 5) == 32 * x && Shl(x, 6) == 64 * x && Shl(x, 7) == 128 * x && Shl(x, 8) == 256 * x
    ensures Shl(x, 9) == 512 * x && Shl(x, 10) == 1024 * x && Shl(x, 11) == 2048 * x && Shl(x, 12) == 4096 * x
    ensures Shl(x, 13) == 8192 * x
  {
  }

  lemma NextByte(n: nat)
    ensures Pow2(n + 8) == 256 * Pow2(n)
  {
    assert Pow2(n + 2) == 4 * Pow2(n);
    assert Pow2(n + 4) == 4 * Pow2(n + 2);
    assert Pow2(n + 6) == 4 * Pow2(n + 4);
  }

  lemma {:induction false} ShlPlus(x: nat, y: nat, n: nat)
    ensures Shl(x + y, n) == Shl(x, n) + Shl(y, n)
  {
    if n != 0 { ShlPlus(x, y, n - 1); }
  }

  lemma {:induction false} ShlShl(x: nat, a: nat, b: nat)
    ensures Shl(Shl(x, a), b) == Shl(x, a + b)
  {
    if b != 0 { ShlShl(x, a, b - 1); }
  }

  lemma {:induction false} ShlInner(x: nat, n: nat)
    ensures Shl(2 * x, n) == 2 * Shl(x, n)
  {
    if n != 0 { ShlInner(x, n - 1); }
  }

  lemma {:induction false} ShlPow2(a: nat, b: nat)
    ensures Shl(Pow2(a), b) == Pow2(a + b)
  {
    ShlOne(a);
    ShlShl(1, a, b);
    ShlOne(a + b);
  }

  lemma {:induction false} ShlMono(x: nat, y: nat, n: nat)
    ensures x <= y ==> Shl(x, n) <= Shl(y, n)
    ensures x < y ==> Shl(x, n) + Pow2(n) <= Shl(y, n)
  {
    if n != 0 { ShlMono(x, y, n - 1); }
  }

  lemma {:induction false} Pow2Mono(a: nat, b: nat)
    requires a <= b
    ensures Pow2(a) <= Pow2(b)
    ensures a < b ==> 2 * Pow2(a) <= Pow2(b)
    decreases b
  {
    if a < b { Pow2Mono(a, b - 1); }
  }

  lemma {:induction false} Split(x: nat, n: nat)
    ensures x == Low(x, n) + Shl(Shr(x, n), n)
    ensures Low(x, n) < Pow2(n)
    decreases n
  {
    if n != 0 { Split(x / 2, n - 1); }
  }

  // The converse of Split: quotient and remainder are unique.
  lemma {:induction false} Join(r: nat, y: nat, n: nat)
    requires r < Pow2(n)
    ensures Shr(r + Shl(y, n), n) == y
    ensures Low(r + Shl(y, n), n) == r
    decreases n
  {
    if n != 0 {
      var x := r + Shl(y, n);
      assert x / 2 == r / 2 + Shl(y, n - 1) && x % 2 == r % 2;
      Join(r / 2, y, n - 1);
    }
  }

  lemma {:induction false} ShrMono(x: nat, y: nat, n: nat)
    requires x <= y
    ensures Shr(x, n) <= Shr(y, n)
    decreases n
  {
    if n != 0 { ShrMono(x / 2, y / 2, n - 1); }
  }

  lemma {:induction false} SmallShr(x: nat, n: nat)
    requires x < Pow2(n)
    ensures Shr(x, n) == 0 && Low(x, n) == x
    decreases n
  {
    if n != 0 { SmallShr(x / 2, n - 1); }
  }

  lemma {:induction false} ShrShr(x: nat, a: nat, b: nat)
    ensures Shr(Shr(x, a), b) == Shr(x, a + b)
    decreases a
  {
    if a != 0 { ShrShr(x / 2, a - 1, b); }
  }

  lemma {:induction false} LowLow(x: nat, a: nat, b: nat)
    requires a <= b
    ensures Low(Low(x, b), a) == Low(x, a)
    ensures Shr(Low(x, b), a) == Low(Shr(x, a), b - a)
    decreases a
  {
    if a != 0 { LowLow(x / 2, a - 1, b - 1); }
  }

  lemma {:induction false} LowAdd(x: nat, a: nat, b: nat)
    ensures Low(x, a + b) == Low(x, a) + Shl(Low(Shr(x, a), b), a)
    decreases a
  {
    if a != 0 { LowAdd(x / 2, a - 1, b); }
  }

  // Or of a word with a second word shifted above it is their sum.
  lemma {:induction false} OrIsPlus(x: nat, y: nat, n: nat)
    requires x < Pow2(n)
    ensures Or(x, Shl(y, n)) == x + Shl(y, n)
    decreases n
  {
    if n != 0 && x != 0 && Shl(y, n) != 0 {
      OrIsPlus(x / 2, y, n - 1);
    }
  }

  lemma {:induction false} RevBound(n: nat, x: nat)
    ensures Rev(n, x) < Pow2(n)
    decreases n
  {
    if n != 0 {
      RevBound(n - 1, x / 2);
      ShlOne(n - 1);
    }
  }

  // Reversal of g bits: the reversal of the first w above that of the rest.
  lemma {:induction false} RevSplit(g: nat, w: nat, x: nat)
    requires w <= g
    ensures Rev(g, x) == Shl(Rev(w, x), g - w) + Rev(g - w, Shr(x, w))
    ensures Shr(Rev(g, x), g - w) == Rev(w, x)
    ensures Low(Rev(g, x), g - w) == Rev(g - w, Shr(x, w))
    decreases w
  {
    if w != 0 {
      RevSplit(g - 1, w - 1, x / 2);
      ShlPlus(Shl(x % 2, w - 1), Rev(w - 1, x / 2), g - w);
      ShlShl(x % 2, w - 1, g - w);
    } else {
      ShlOne(g);
    }
    RevBound(g - w, Shr(x, w));
    Join(Rev(g - w, Shr(x, w)), Rev(w, x), g - w);
  }

  lemma {:induction false} RevLow(n: nat, x: nat)
    ensures Rev(n, Low(x, n)) == Rev(n, x)
    decreases n
  {
    if n != 0 {
      assert Low(x, n) % 2 == x % 2 && Low(x, n) / 2 == Low(x / 2, n - 1);
      RevLow(n - 1, x / 2);
    }
  }

  lemma {:induction false} LowSucc(x: nat, n: nat)
    ensures Low(x, n + 1) == Low(x, n) + Shl(Bit(x, n), n)
    decreases n
  {
    if n != 0 { LowSucc(x / 2, n - 1); }
  }

  // Reversing twice gives the low bits back.
  lemma {:induction false} RevRev(n: nat, x: nat)
    ensures Rev(n, Rev(n, x)) == Low(x, n)
    decreases n
  {
    if n != 0 {
      RevSplit(n, n - 1, x);
      var y := Rev(n, x);
      assert Rev(1, Shr(x, n - 1)) == Bit(x, n - 1);
      assert Shl(Rev(n - 1, x), 1) == 2 * Rev(n - 1, x);
      assert y == 2 * Rev(n - 1, x) + Bit(x, n - 1);
      assert y % 2 == Bit(x, n - 1) && y / 2 == Rev(n - 1, x);
      RevRev(n - 1, x);
      LowSucc(x, n - 1);
    }
  }

  lemma {:induction false} RevZero(n: nat)
    ensures Rev(n, 0) == 0
  {
    if n != 0 {
      RevZero(n - 1);
      ShlOne(n - 1);
    }
  }

  // Two streams agree on their first w bits exactly when their reversals agree
  // on their w leading bits.
  lemma RevPrefix(g: nat, w: nat, a: nat, b: nat)
    requires w <= g
    ensures Low(a, w) == Low(b, w) <==> Shr(Rev(g, a), g - w) == Shr(Rev(g, b), g - w)
  {
    RevSplit(g, w, a);
    RevSplit(g, w, b);
    RevLow(w, a);
    RevLow(w, b);
    RevRev(w, a);
    RevRev(w, b);
  }

  // A multiple of 2^(g-k) below 2^g reverses to a k-bit number, and conversely.
  lemma RevMultiple(g: nat, k: nat, s: nat)
    requires k <= g && Low(s, g - k) == 0
    ensures Rev(g, s) < Pow2(k)
    ensures Rev(g, s) == Rev(k, Shr(s, g - k))
  {
    RevSplit(g, g - k, s);
    RevLow(g - k, s);
    RevZero(g - k);
    RevBound(k, Shr(s, g - k));
    ShlOne(k);
  }

  lemma RevOfSmall(g: nat, k: nat, i: nat)
    requires k <= g && i < Pow2(k)
    ensures Low(Rev(g, i), g - k) == 0
  {
    RevSplit(g, k, i);
    SmallShr(i, k);
    RevZero(g - k);
  }

  // Facts about the k-bit string y placed at the top of g bits.
  lemma Aligned(g: nat, k: nat, y: nat)
    requires k <= g && y < Pow2(k)
    ensures Low(Shl(y, g - k), g - k) == 0 && Shr(Shl(y, g - k), g - k) == y
    ensures Shl(y, g - k) < Pow2(g)
    ensures Rev(g, Shl(y, g - k)) == Rev(k, y) < Pow2(k)
    ensures Rev(g, Rev(k, y)) == Shl(y, g - k)
  {
    var x := Shl(y, g - k);
    Join(0, y, g - k);
    ShlMono(y, Pow2(k), g - k);
    ShlPow2(k, g - k);
    RevMultiple(g, k, x);
    RevRev(g, x);
    SmallShr(x, g);
  }

  lemma AlignedFits(g: nat, k: nat, y: nat)
    requires k <= g && Shl(y, g - k) < Pow2(g)
    ensures y < Pow2(k)
  {
    ShlMono(Pow2(k), y, g - k);
    ShlPow2(k, g - k);
  }

  // x and y agree above bit n exactly when x lies in y's block of 2^n.
  lemma SameBlock(x: nat, y: nat, n: nat)
    requires Low(y, n) == 0
    ensures Shr(x, n) == Shr(y, n) <==> y <= x < y + Pow2(n)
  {
    Split(x, n);
    Split(y, n);
    if y <= x < y + Pow2(n) {
      Join(x - y, Shr(y, n), n);
    }
  }

  // Testing, clearing and setting one bit.
  lemma {:induction false} BitOps(x: nat, n: nat)
    ensures And(x, Pow2(n)) != 0 <==> Bit(x, n) == 1
    ensures Bit(x, n) == 1 ==> x >= Pow2(n) && Xor(x, Pow2(n)) == x - Pow2(n)
    ensures Bit(x, n) == 0 ==> Xor(x, Pow2(n)) == x + Pow2(n)
  {
    if n != 0 {
      BitOps(x / 2, n - 1);
    } else {
      assert And(x / 2, 0) == 0;
    }
  }

  // Adding one to the reversal of the k-bit string i, in place: carry down from
  // bit k-1, dropping a carry out of bit 0.
  function Inc(i: nat, k: nat): nat
    decreases k
  {
    if k == 0 then i
    else if i >= Pow2(k - 1) then Inc(i - Pow2(k - 1), k - 1)
    else i + Pow2(k - 1)
  }

  lemma {:induction false} RevTop(k: nat, x: nat)
    requires k > 0
    ensures Rev(k, x) == 2 * Rev(k - 1, x) + Bit(x, k - 1)
  {
    RevSplit(k, k - 1, x);
    assert Rev(1, Shr(x, k - 1)) == Bit(x, k - 1);
  }

  lemma TopBit(k: nat, x: nat)
    requires k > 0 && x < Pow2(k)
    ensures Bit(x, k - 1) == 1 <==> x >= Pow2(k - 1)
    ensures x >= Pow2(k - 1) ==> Low(x, k - 1) == x - Pow2(k - 1)
  {
    if x >= Pow2(k - 1) {
      ShlOne(k - 1);
      Join(x - Pow2(k - 1), 1, k - 1);
    } else {
      SmallShr(x, k - 1);
    }
  }

  lemma {:induction false} IncReversed(i: nat, k: nat)
    requires i < Pow2(k)
    ensures Inc(i, k) < Pow2(k)
    ensures Rev(k, Inc(i, k)) == Low(Rev(k, i) + 1, k)
    decreases k
  {
    if k != 0 {
      RevSmall(k, i);
      if i >= Pow2(k - 1) {
        IncReversed(i - Pow2(k - 1), k - 1);
        RevSmall(k, Inc(i - Pow2(k - 1), k - 1));
      } else {
        RevSmall(k, i + Pow2(k - 1));
        RevBound(k - 1, i);
        SmallShr(2 * Rev(k - 1, i) + 1, k);
      }
    }
  }

  // The top bit of a k-bit string is the last bit of its reversal.
  lemma RevSmall(k: nat, x: nat)
    requires k > 0 && x < Pow2(k)
    ensures Rev(k, x) == if x >= Pow2(k - 1) then 2 * Rev(k - 1, x - Pow2(k - 1)) + 1 else 2 * Rev(k - 1, x)
  {
    TopBit(k, x);
    RevTop(k, x);
    RevLow(k - 1, x);
  }

  // Inc steps the reversed g-bit position by one k-bit code.
  lemma IncSteps(g: nat, k: nat, y: nat)
    requires k <= g && y < Pow2(k)
    ensures Inc(Rev(g, Shl(y, g - k)), k) == Rev(g, Shl(y + 1, g - k))
  {
    Aligned(g, k, y);
    var i := Rev(k, y);
    IncReversed(i, k);
    RevRev(k, y);
    SmallShr(y, k);
    RevRev(k, Inc(i, k));
    SmallShr(Inc(i, k), k);
    RevLow(k, y + 1);
    Join(0, y + 1, g - k);
    RevMultiple(g, k, Shl(y + 1, g - k));
  }

  lemma ShlCancel(count: nat, l: nat, n: nat)
    requires Pow2(l + n) <= Shl(count, n)
    ensures count >= Pow2(l)
  {
    ShlPow2(l, n);
    ShlMono(count, Pow2(l), n);
  }

  lemma ShrBound(x: nat, w: nat, k: nat)
    requires w <= k && x < Pow2(k)
    ensures Shr(x, w) < Pow2(k - w)
  {
    SmallShr(x, k);
    LowLow(x, w, k);
    Split(Shr(x, w), k - w);
  }

  // Shifting by n keeps the comparison with a power of two.
  lemma ShlCompare(x: nat, l: nat, n: nat)
    ensures x > Pow2(l) <==> Shl(x, n) > Pow2(l + n)
    ensures x < Pow2(l) <==> Shl(x, n) < Pow2(l + n)
  {
    ShlPow2(l, n);
    ShlMono(x, Pow2(l), n);
    ShlMono(Pow2(l), x, n);
  }

  // Exclusive or, one bit at a time.
  lemma XorBits(x: nat, y: nat)
    ensures Xor(x, y) % 2 == if x % 2 == y % 2 then 0 else 1
    ensures Xor(x, y) / 2 == Xor(x / 2, y / 2)
  {
    if x != 0 && y != 0 {
      Halves(if x % 2 != y % 2 then 1 else 0, Xor(x / 2, y / 2));
    }
  }

  lemma Halves(bit: nat, y: nat)
    requires bit <= 1
    ensures (bit + 2 * y) % 2 == bit && (bit + 2 * y) / 2 == y
  {
  }

  lemma {:induction false} XorComm(x: nat, y: nat)
    ensures Xor(x, y) == Xor(y, x)
    decreases x + y
  {
    if x != 0 && y != 0 { XorComm(x / 2, y / 2); }
  }

  lemma {:induction false} XorSelf(x: nat)
    ensures Xor(x, x) == 0
  {
    if x != 0 { XorSelf(x / 2); }
  }

  lemma {:induction false} XorAssoc(x: nat, y: nat, z: nat)
    ensures Xor(Xor(x, y), z) == Xor(x, Xor(y, z))
    decreases x + y + z
  {
    if x + y + z != 0 {
      XorAssoc(x / 2, y / 2, z / 2);
      XorBits(x, y);
      XorBits(y, z);
      XorBits(Xor(x, y), z);
      XorBits(x, Xor(y, z));
    }
  }

  lemma {:induction false} XorShr(x: nat, y: nat, n: nat)
    ensures Shr(Xor(x, y), n) == Xor(Shr(x, n), Shr(y, n))
    decreases n
  {
    if n != 0 {
      XorBits(x, y);
      XorShr(x / 2, y / 2, n - 1);
    }
  }

  lemma {:induction false} XorBound(x: nat, y: nat, n: nat)
    requires x < Pow2(n) && y < Pow2(n)
    ensures Xor(x, y) < Pow2(n)
    decreases n
  {
    if n != 0 {
      XorBits(x, y);
      XorBound(x / 2, y / 2, n - 1);
    }
  }

  // x & ((1 << n) - 1) is the low bits.
  lemma {:induction false} AndMask(x: nat, n: nat)
    ensures And(x, Pow2(n) - 1) == Low(x, n)
    decreases n
  {
    if n != 0 {
      AndMask(x / 2, n - 1);
      if x == 0 { LowZero(n - 1); }
    }
  }

  lemma {:induction false} LowZero(n: nat)
    ensures Low(0, n) == 0 && Shr(0, n) == 0
    decreases n
  {
    if n != 0 { LowZero(n - 1); }
  }

  lemma {:induction false} OrComm(x: nat, y: nat)
    ensures Or(x, y) == Or(y, x)
    decreases x + y
  {
    if x != 0 && y != 0 { OrComm(x / 2, y / 2); }
  }

  // Or of a word with a bit below all of its own sets that bit.
  lemma OrBelow(x: nat, n: nat)
    requires Low(x, n + 1) == 0
    ensures Or(x, Pow2(n)) == x + Pow2(n)
  {
    Split(x, n + 1);
    OrIsPlus(Pow2(n), Shr(x, n + 1), n + 1);
    OrComm(x, Pow2(n));
  }

  lemma MultiplePlus(x: nat, n: nat, m: nat)
    requires n <= m && Low(x, n) == 0
    ensures Low(x + Pow2(m), n) == 0
  {
    Split(x, n);
    ShlPow2(m - n, n);
    ShlPlus(Shr(x, n), Pow2(m - n), n);
    Join(0, Shr(x, n) + Pow2(m - n), n);
  }

  lemma LowBit(x: nat)
    ensures And(x, 1) != 0 <==> x % 2 == 1
    ensures Shr(x, 1) == x / 2
  {
    BitOps(x, 0);
    assert Shr(x, 1) == Shr(x / 2, 0);
  }
}
