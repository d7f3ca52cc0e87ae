// The bit buffer of inflate.c: NEEDBITS and DUMPBITS over get_byte.
module BitReader {
  import opened Bits
  import opened Deflate

  lemma ShlByte(x: nat)
    ensures Shl(x, 8) == 256 * x
  {
    assert Shl(x, 1) == 2 * x;
    assert Shl(x, 2) == 2 * Shl(x, 1);
    assert Shl(x, 4) == 4 * Shl(x, 2);
    assert Shl(x, 6) == 4 * Shl(x, 4);
  }

  lemma {:induction false} ByteOfNumber(input: seq<Byte>, i: nat)
    requires i < |input|
    ensures Low(Rest(input, 8 * i), 8) == input[i]
  {
    ShlByte(AsNumber(input[1..]));
    assert Pow2(8) == 256;
    Join(input[0], AsNumber(input[1..]), 8);
    if i > 0 {
      ByteOfNumber(input[1..], i - 1);
      ShrShr(AsNumber(input), 8, 8 * (i - 1));
    }
  }

  // The buffer b of k bits holds exactly the bits read, the first inptr bytes,
  // that are not consumed.
  ghost predicate Holds(input: seq<Byte>, inptr: nat, b: nat, k: nat) {
    inptr <= |input| && k <= 8 * inptr && b == Low(Rest(input, 8 * inptr - k), k)
  }

  // Reading a byte above the bits held.
  lemma HoldsMore(input: seq<Byte>, inptr: nat, b: nat, k: nat)
    requires Holds(input, inptr, b, k) && inptr < |input|
    ensures Holds(input, inptr + 1, Or(b, Shl(input[inptr], k)), k + 8)
    ensures b < Pow2(k)
  {
    var s := Rest(input, 8 * inptr - k);
    Split(s, k);
    OrIsPlus(b, input[inptr], k);
    ByteAbove(input, inptr, k);
    assert 8 * (inptr + 1) - (k + 8) == 8 * inptr - k;
  }

  lemma ByteAbove(input: seq<Byte>, inptr: nat, k: nat)
    requires inptr < |input| && k <= 8 * inptr
    ensures var s := Rest(input, 8 * inptr - k); Low(s, k + 8) == Low(s, k) + Shl(input[inptr], k)
  {
    LowAdd(Rest(input, 8 * inptr - k), k, 8);
    ShrShr(AsNumber(input), 8 * inptr - k, k);
    ByteOfNumber(input, inptr);
  }

  // The lowest bits held are the next ones of the stream.
  lemma HoldsNext(input: seq<Byte>, inptr: nat, b: nat, k: nat, n: nat)
    requires Holds(input, inptr, b, k) && n <= k
    ensures Low(b, n) == FieldAt(input, 8 * inptr - k, n)
  {
    LowLow(Rest(input, 8 * inptr - k), n, k);
  }

  // Dumping them leaves the others.
  lemma HoldsLess(input: seq<Byte>, inptr: nat, b: nat, k: nat, n: nat)
    requires Holds(input, inptr, b, k) && n <= k
    ensures Holds(input, inptr, Shr(b, n), k - n)
  {
    var p, q := 8 * inptr - k, 8 * inptr - (k - n);
    LowLow(Rest(input, p), n, k);
    ShrShr(AsNumber(input), p, n);
    assert Rest(input, q) == Shr(Rest(input, p), n);
  }

  // Whether a step ran out of input; the boot loader then halts.
  datatype Input = Available | Exhausted

  class Reader {
    const input: seq<Byte>
    var inptr: nat
    var bb: nat
    var bk: nat

    // The buffer holds exactly the bk bits read but not consumed, which fit in a
    // 32-bit word with room for another byte.
    ghost predicate Valid()
      reads this
    {
      Holds(input, inptr, bb, bk) && bk < 24
    }

    // The number of bits consumed.
    ghost function Pos(): (p: nat)
      requires Valid()
      reads this
      ensures p <= 8 * |input|
    {
      8 * inptr - bk
    }

    constructor (input: seq<Byte>, inptr: nat)
      requires inptr <= |input|
      ensures Valid() && this.input == input && this.inptr == inptr && bk == 0 && Pos() == 8 * inptr
    {
      this.input, this.inptr := input, inptr;
      bb, bk := 0, 0;
    }

    // NEEDBITS(n)
    method NeedBits(n: nat) returns (have: Input)
      requires Valid() && n <= 16
      modifies this
      ensures Valid() && Pos() == old(Pos())
      ensures have.Available? ==> bk >= n && Low(bb, n) == FieldAt(input, Pos(), n) && Pos() + n <= 8 * |input|
      ensures have.Available? ==> bk == old(bk) || bk < n + 8
      ensures have.Exhausted? ==> Pos() + n > 8 * |input|
    {
      ghost var p := Pos();
      while bk < n
        invariant Valid() && Pos() == p
        invariant bk == old(bk) || bk < n + 8
        decreases n - bk
      {
        if inptr == |input| { return Exhausted; }
        HoldsMore(input, inptr, bb, bk);
        bb := Or(bb, Shl(input[inptr], bk));
        inptr := inptr + 1;
        bk := bk + 8;
      }
      HoldsNext(input, inptr, bb, bk, n);
      have := Available;
    }

    // DUMPBITS(n)
    method DumpBits(n: nat)
      requires Valid() && n <= bk
      modifies this`bb, this`bk
      ensures Valid() && Pos() == old(Pos()) + n && bk == old(bk) - n
    {
      HoldsLess(input, inptr, bb, bk, n);
      bb := Shr(bb, n);
      bk := bk - n;
    }

    // NEEDBITS(n), the n bits, DUMPBITS(n).
    method TakeBits(n: nat) returns (have: Input, x: nat)
      requires Valid() && n <= 16
      modifies this
      ensures Valid()
      ensures match have
              case Available => Field(input, old(Pos()), n) == Ok(x, Pos())
              case Exhausted => Field(input, old(Pos()), n) == Bad(Halted) && old(Pos()) + n > 8 * |input|
    {
      x := 0;
      have := NeedBits(n);
      if have.Available? {
        x := Low(bb, n);
        DumpBits(n);
      }
    }

    // Lines 793-799: give back the whole bytes read ahead.
    method GiveBack()
      requires Valid()
      modifies this`inptr, this`bk
      ensures bk < 8 && inptr <= |input| && inptr == (old(Pos()) + 7) / 8
    {
      while bk >= 8
        invariant bk <= 8 * inptr && inptr <= |input| && 8 * inptr - bk == old(Pos())
      {
        bk := bk - 8;
        inptr := inptr - 1;
      }
    }
  }
}
