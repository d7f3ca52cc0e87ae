// Sets of signals as the bits of a word: SET_BIT, CLEAR_BIT and CHECK_BIT of the kernel,
// and the comparison that decides whether a signal is delivered.
module Masks {
  import opened Bits

  const SIGNAL_TABLE_SIZE: nat := 32
  const WORD: nat := 32
  const ALL: nat := 0xFFFFFFFF

  // ------------------------------------------------------------ bit masks

  lemma AllOnes()
    ensures Pow2(WORD) == ALL + 1
  {
    assert Pow2(8) == 256;
    assert Pow2(16) == 0x10000 by { assert Pow2(12) == 16 * Pow2(8); assert Pow2(16) == 16 * Pow2(12); }
    assert Pow2(20) == 16 * Pow2(16);
    assert Pow2(24) == 16 * Pow2(20);
    assert Pow2(28) == 16 * Pow2(24);
    assert Pow2(32) == 16 * Pow2(28);
  }

  // A word as a set of signals.
  type Mask = x: nat | x <= ALL

  // SET_BIT
  function SetBit(x: nat, n: nat): nat {
    Or(x, Shl(1, n))
  }

  // ~x
  function Not(x: nat): nat
    requires x <= ALL
  {
    ALL - x
  }

  // CLEAR_BIT
  function ClearBit(x: nat, n: nat): nat
    requires Shl(1, n) <= ALL
  {
    And(x, Not(Shl(1, n)))
  }

  lemma {:induction false} BitOr(x: nat, y: nat, m: nat)
    ensures Bit(Or(x, y), m) == if Bit(x, m) == 1 || Bit(y, m) == 1 then 1 else 0
    decreases m
  {
    if x == 0 || y == 0 {
      ZeroBit(m);
    } else if m > 0 {
      BitOr(x / 2, y / 2, m - 1);
      assert Or(x, y) / 2 == Or(x / 2, y / 2);
    }
  }

  lemma {:induction false} BitAnd(x: nat, y: nat, m: nat)
    ensures Bit(And(x, y), m) == if Bit(x, m) == 1 && Bit(y, m) == 1 then 1 else 0
    decreases m
  {
    if x == 0 || y == 0 {
      ZeroBit(m);
    } else if m > 0 {
      BitAnd(x / 2, y / 2, m - 1);
      assert And(x, y) / 2 == And(x / 2, y / 2);
    }
  }

  lemma {:induction false} ZeroBit(m: nat)
    ensures Shr(0, m) == 0 && Bit(0, m) == 0
  {
    if m > 0 { ZeroBit(m - 1); }
  }

  lemma {:induction false} OneBit(n: nat, m: nat)
    ensures Bit(Shl(1, n), m) == if m == n then 1 else 0
    decreases m
  {
    if n == 0 {
      if m > 0 { ZeroBit(m - 1); }
    } else if m > 0 {
      OneBit(n - 1, m - 1);
    }
  }

  lemma {:induction false} BitComplement(w: nat, x: nat, m: nat)
    requires x < Pow2(w) && m < w
    ensures Bit(Pow2(w) - 1 - x, m) == 1 - Bit(x, m)
    decreases w
  {
    if m > 0 {
      BitComplement(w - 1, x / 2, m - 1);
      assert (Pow2(w) - 1 - x) / 2 == Pow2(w - 1) - 1 - x / 2;
    }
  }

  // One bit is set, or cleared, and the others stay.
  lemma MaskBits(x: nat, n: nat, m: nat)
    requires x <= ALL && n < WORD && m < WORD
    ensures Shl(1, n) <= ALL
    ensures Bit(SetBit(x, n), m) == if m == n then 1 else Bit(x, m)
    ensures Bit(ClearBit(x, n), m) == if m == n then 0 else Bit(x, m)
  {
    AllOnes();
    ShlOne(n);
    Pow2Mono(n, WORD);
    OneBit(n, m);
    BitOr(x, Shl(1, n), m);
    BitComplement(WORD, Shl(1, n), m);
    BitAnd(x, Not(Shl(1, n)), m);
  }

  lemma {:induction false} OrBound(x: nat, y: nat, w: nat)
    requires x < Pow2(w) && y < Pow2(w)
    ensures Or(x, y) < Pow2(w)
    decreases w
  {
    if w > 0 { OrBound(x / 2, y / 2, w - 1); }
  }

  lemma {:induction false} AndBound(x: nat, y: nat)
    ensures And(x, y) <= x
    decreases x
  {
    if x != 0 && y != 0 { AndBound(x / 2, y / 2); }
  }

  lemma MaskBounds(x: nat, n: nat)
    requires x <= ALL && n < WORD
    ensures Shl(1, n) <= ALL && SetBit(x, n) <= ALL && ClearBit(x, n) <= ALL
  {
    MaskBits(x, n, n);
    AllOnes();
    OrBound(x, Shl(1, n), WORD);
    AndBound(x, Not(Shl(1, n)));
  }

  // ------------------------------------------------------- the highest bit

  function Top(x: nat): nat
    requires x > 0
  {
    if x == 1 then 0 else 1 + Top(x / 2)
  }

  lemma {:induction false} TopBounds(x: nat)
    requires x > 0
    ensures Pow2(Top(x)) <= x < Pow2(Top(x) + 1)
  {
    if x > 1 { TopBounds(x / 2); }
  }

  lemma {:induction false} TopIs(x: nat, h: nat)
    requires Bit(x, h) == 1 && x < Pow2(h + 1)
    ensures x > 0 && Top(x) == h
    decreases h
  {
    if h > 0 {
      TopIs(x / 2, h - 1);
    } else {
      assert Pow2(1) == 2;
    }
  }

  lemma {:induction false} HighZeros(x: nat, h: nat, w: nat)
    requires x < Pow2(w) && h <= w && forall m: nat :: h <= m < w ==> Bit(x, m) == 0
    ensures x < Pow2(h)
    decreases w
  {
    if h < w {
      TopBit(w, x);
      HighZeros(x, h, w - 1);
    }
  }

  // The test `pending > enabled`: a pending signal higher than all that run is let
  // through, a lower one never. One that equals the highest running one is let through
  // exactly if the rest of the pending signals is greater than the rest of the others:
  // then it interrupts its own handler.
  lemma AdmitsHigher(pending: nat, enabled: nat)
    requires pending > 0 && enabled > 0
    ensures Top(pending) > Top(enabled) ==> pending > enabled
    ensures Top(pending) < Top(enabled) ==> !(pending > enabled)
    ensures Top(pending) == Top(enabled) ==>
      (pending > enabled <==> Low(pending, Top(pending)) > Low(enabled, Top(enabled)))
  {
    TopBounds(pending);
    TopBounds(enabled);
    var p, e := Top(pending), Top(enabled);
    if p > e {
      Pow2Mono(e + 1, p);
    } else if p < e {
      Pow2Mono(p + 1, e);
    } else {
      TopBit(p + 1, pending);
      TopBit(p + 1, enabled);
    }
  }

  // So the test lets through just the higher ones, if and only if the highest pending
  // signal is not running itself with less below it.
  lemma AdmitsExactly(pending: nat, enabled: nat)
    requires pending > 0 && enabled > 0
    ensures (pending > enabled <==> Top(pending) > Top(enabled)) <==>
            !(Top(pending) == Top(enabled) && Low(pending, Top(pending)) > Low(enabled, Top(enabled)))
  {
    AdmitsHigher(pending, enabled);
  }

  // With signal 5 running, signals 3 and 5 pending interrupt it with 5 again.
  lemma AdmitsEqual()
    ensures Top(0x28) == 5 == Top(0x20) && 0x28 > 0x20
  {
  }

  lemma TopSmall(x: nat)
    requires 0 < x <= ALL
    ensures Top(x) < SIGNAL_TABLE_SIZE
  {
    AllOnes();
    TopBounds(x);
    if Top(x) >= WORD { Pow2Mono(WORD, Top(x)); }
  }

  // The mask without its highest signal, if it has any.
  function ClearTop(x: Mask): Mask {
    if x == 0 then 0
    else
      TopSmall(x);
      MaskBounds(x, Top(x));
      ClearBit(x, Top(x))
  }

  // Lines 366-369 of c/disp.c, 111-114 of c/signal.c: the highest bit.
  method HighestBit(x: nat) returns (h: nat)
    requires 0 < x <= ALL
    ensures h == Top(x) < SIGNAL_TABLE_SIZE
  {
    AllOnes();
    h := SIGNAL_TABLE_SIZE - 1;
    while Bit(x, h) == 0
      invariant h < SIGNAL_TABLE_SIZE && forall m: nat :: h < m < WORD ==> Bit(x, m) == 0
      decreases h
    {
      if h == 0 { HighZeros(x, 0, WORD); }
      h := h - 1;
    }
    HighZeros(x, h + 1, WORD);
    TopIs(x, h);
  }

  lemma {:induction false} BitsDetermine(x: nat, y: nat, w: nat)
    requires x < Pow2(w) && y < Pow2(w) && forall m: nat :: m < w ==> Bit(x, m) == Bit(y, m)
    ensures x == y
    decreases w
  {
    if w > 0 {
      TopBit(w, x);
      TopBit(w, y);
      assert Bit(x, w - 1) == Bit(y, w - 1);
      if x < Pow2(w - 1) {
        BitsDetermine(x, y, w - 1);
      } else {
        var x', y' := x - Pow2(w - 1), y - Pow2(w - 1);
        forall m: nat | m < w - 1 ensures Bit(x', m) == Bit(y', m) {
          LowBits(x, w - 1, m);
          LowBits(y, w - 1, m);
        }
        BitsDetermine(x', y', w - 1);
      }
    }
  }

  lemma {:induction false} LowBits(x: nat, n: nat, m: nat)
    requires m < n
    ensures Bit(Low(x, n), m) == Bit(x, m)
    decreases m
  {
    if m > 0 {
      LowBits(x / 2, n - 1, m - 1);
    }
  }

  // A signal above all in the mask becomes its highest, and taking that out undoes it.
  lemma OneMore(x: Mask, n: nat)
    requires n < WORD && forall m: nat :: n <= m < WORD ==> Bit(x, m) == 0
    ensures 0 < SetBit(x, n) <= ALL && Top(SetBit(x, n)) == n && ClearTop(SetBit(x, n)) == x
  {
    var y := SetBit(x, n);
    AllOnes();
    MaskBounds(x, n);
    MaskBits(x, n, n);
    forall m: nat | n + 1 <= m < WORD ensures Bit(y, m) == 0 {
      MaskBits(x, n, m);
    }
    HighZeros(y, n + 1, WORD);
    TopIs(y, n);
    MaskBounds(y, n);
    forall m: nat | m < WORD ensures Bit(ClearBit(y, n), m) == Bit(x, m) {
      MaskBits(x, n, m);
      MaskBits(y, n, m);
    }
    BitsDetermine(ClearBit(y, n), x, WORD);
  }

  lemma OnlyOne(n: nat)
    requires n < WORD
    ensures 0 < SetBit(0, n) <= ALL && Top(SetBit(0, n)) == n && ClearTop(SetBit(0, n)) == 0
    ensures forall m: nat :: m < WORD && m != n ==> Bit(SetBit(0, n), m) == 0
  {
    forall m: nat ensures Bit(0, m) == 0 {
      ZeroBit(m);
    }
    OneMore(0, n);
    forall m: nat | m < WORD && m != n ensures Bit(SetBit(0, n), m) == 0 {
      MaskBits(0, n, m);
    }
  }
}
