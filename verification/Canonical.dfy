// Canonical Huffman codes as in section 3.2.2 of RFC 1951, seen as intervals.
//
// With c[k] codes of each length k <= g, the r-th code of length k takes the
// strings of g bits (most significant bit read first) in the interval
// [Pos(k, r), Pos(k, r) + 2^(g-k)).
module Canonical {
  import opened Bits

  const BMAX: nat := 16

  // First code of length k (the next_code of the RFC); c[0] is not counted.
  function First(c: seq<nat>, k: nat): nat
    requires k <= |c|
  {
    if k <= 1 then 0 else 2 * (First(c, k - 1) + c[k - 1])
  }

  // Number of codes shorter than k.
  function Off(c: seq<nat>, k: nat): nat
    requires k <= |c|
  {
    if k <= 1 then 0 else Off(c, k - 1) + c[k - 1]
  }

  // Tables are w bits down, a multiple of l.
  predicate Level(l: nat, w: nat)
    decreases w
  {
    w == 0 || (l > 0 && w >= l && Level(l, w - l))
  }

  lemma {:induction false} LevelsApart(l: nat, a: nat, b: nat)
    requires l > 0 && Level(l, a) && Level(l, b) && a < b
    ensures a + l <= b
    decreases a
  {
    if a > 0 {
      LevelsApart(l, a - l, b - l);
    }
  }

  // The level of the tables that hold codes of length k.
  function LevelBelow(l: nat, k: nat): (w: nat)
    requires l > 0 && k > 0
    ensures Level(l, w) && w < k <= w + l
    decreases k
  {
    if k <= l then 0 else l + LevelBelow(l, k - l)
  }

  datatype Shape = Shape(c: seq<nat>, g: nat, l: nat) {

    predicate Valid() {
      && |c| == BMAX + 1
      && 1 <= l <= g <= BMAX
      && c[g] > 0
      && End(g) == Pow2(g)
    }

    function Pos(k: nat, r: nat): nat
      requires k <= g < |c|
    {
      Shl(First(c, k) + r, g - k)
    }

    // Where the codes of length k, and so all codes up to that length, end.
    function End(k: nat): nat
      requires k <= g < |c|
    {
      Pos(k, c[k])
    }

    predicate IsCode(k: nat, r: nat) {
      1 <= k <= g < |c| && r < c[k]
    }

    // The code as the table builder holds it: first bit read lowest.
    function Code(k: nat, r: nat): nat
      requires k <= g < |c|
    {
      Rev(g, Pos(k, r))
    }

    lemma EndIsNextStart(k: nat)
      requires 1 <= k < g < |c|
      ensures End(k) == Pos(k + 1, 0)
    {
      ShlInner(First(c, k) + c[k], g - k - 1);
    }

    lemma PosNext(k: nat, r: nat)
      requires k <= g < |c|
      ensures Pos(k, r + 1) == Pos(k, r) + Pow2(g - k)
    {
      ShlPlus(First(c, k) + r, 1, g - k);
      ShlOne(g - k);
    }

    lemma PosPlus(k: nat, r: nat, a: nat)
      requires k <= g < |c|
      ensures Pos(k, r + a) == Pos(k, r) + Shl(a, g - k)
    {
      ShlPlus(First(c, k) + r, a, g - k);
    }

    lemma {:induction false} EndMono(k1: nat, k2: nat)
      requires 1 <= k1 <= k2 <= g < |c|
      ensures End(k1) <= End(k2)
      ensures k1 < k2 ==> End(k1) <= Pos(k2, 0)
      decreases k2
    {
      if k1 < k2 {
        EndMono(k1, k2 - 1);
        EndIsNextStart(k2 - 1);
        PosPlus(k2, 0, c[k2]);
      }
    }

    // An earlier code's interval ends before a later one starts.
    lemma CodesOrdered(k1: nat, r1: nat, k2: nat, r2: nat)
      requires 1 <= k1 <= k2 <= g < |c|
      requires k1 == k2 ==> r1 < r2
      requires r1 < c[k1]
      ensures Pos(k1, r1) + Pow2(g - k1) <= Pos(k2, r2)
    {
      PosNext(k1, r1);
      if k1 == k2 {
        PosPlus(k1, r1 + 1, r2 - r1 - 1);
      } else {
        PosPlus(k1, r1 + 1, c[k1] - r1 - 1);
        EndMono(k1, k2);
        PosPlus(k2, 0, r2);
      }
    }

    lemma CodeEnd(k: nat, r: nat)
      requires Valid() && IsCode(k, r)
      ensures Pos(k, r) + Pow2(g - k) <= Pow2(g)
    {
      PosNext(k, r);
      PosPlus(k, r + 1, c[k] - r - 1);
      EndMono(k, g);
    }

    lemma CodeBounds(k: nat, r: nat)
      requires Valid() && IsCode(k, r)
      ensures Pos(k, r) + Pow2(g - k) <= Pow2(g)
      ensures First(c, k) + r < Pow2(k)
      ensures Low(Pos(k, r), g - k) == 0 && Shr(Pos(k, r), g - k) == First(c, k) + r
      ensures Code(k, r) < Pow2(k)
      ensures Code(k, r) == Rev(k, First(c, k) + r)
      ensures Rev(g, Code(k, r)) == Pos(k, r)
    {
      CodeEnd(k, r);
      AlignedFits(g, k, First(c, k) + r);
      Aligned(g, k, First(c, k) + r);
    }

    // A stream starts with the code (k, r) exactly when its reversal lies in
    // the code's interval.
    lemma InInterval(k: nat, r: nat, s: nat)
      requires Valid() && IsCode(k, r)
      ensures Low(s, k) == Code(k, r) <==> Pos(k, r) <= Rev(g, s) < Pos(k, r) + Pow2(g - k)
    {
      CodeBounds(k, r);
      RevPrefix(g, k, s, Code(k, r));
      SmallShr(Code(k, r), k);
      SameBlock(Rev(g, s), Pos(k, r), g - k);
    }

    // The first k bits of a stream, first one most significant, are the code's
    // value exactly when its low k bits are the reversed code.
    lemma CodeMatches(k: nat, r: nat, s: nat)
      requires Valid() && IsCode(k, r)
      ensures Rev(k, s) == First(c, k) + r <==> Low(s, k) == Code(k, r)
    {
      var y := First(c, k) + r;
      CodeBounds(k, r);
      RevLow(k, s);
      RevRev(k, s);
      RevRev(k, y);
      SmallShr(y, k);
    }

    // No code is a prefix of a later one.
    lemma CodesDisjoint(k1: nat, r1: nat, k2: nat, r2: nat)
      requires Valid() && IsCode(k1, r1) && IsCode(k2, r2)
      requires k1 < k2 || (k1 == k2 && r1 < r2)
      ensures Low(Code(k2, r2), k1) != Code(k1, r1)
    {
      CodesOrdered(k1, r1, k2, r2);
      InInterval(k1, r1, Code(k2, r2));
      CodeBounds(k2, r2);
    }

    // Somewhere below the root a table would start at a code l or more bits
    // long that leaves part of the table's block to longer codes. The width
    // search of huft_build, which increments before it compares, then makes that
    // table wider than the l bits its own links assume.
    ghost predicate Overwide() {
      exists k: nat, r: nat, w: nat :: OverwideAt(k, r, w)
    }

    ghost predicate OverwideAt(k: nat, r: nat, w: nat) {
      && IsCode(k, r)
      && l <= w && w + l <= k && Level(l, w)
      && Low(Pos(k, r), g - w) == 0
      && (w + l < k || Pos(k, r) + Pow2(g - w) > End(k))
    }

    // A table at most two levels deep is never too wide.
    lemma ShallowNotOverwide()
      requires Valid() && g <= 2 * l
      ensures !Overwide()
    {
      forall k: nat, r: nat, w: nat
        ensures !OverwideAt(k, r, w)
      {
        if OverwideAt(k, r, w) {
          assert k == g && w == l == g - l;
          BlockFits(k, r, w);
          assert false;
        }
      }
    }

    // The block that starts at a code ends within the g-bit strings.
    lemma BlockFits(k: nat, r: nat, w: nat)
      requires Valid() && IsCode(k, r) && w <= g && Low(Pos(k, r), g - w) == 0
      ensures Pos(k, r) + Pow2(g - w) <= Pow2(g)
    {
      CodeEnd(k, r);
      var y := Shr(Pos(k, r), g - w);
      Split(Pos(k, r), g - w);
      AlignedFits(g, w, y);
      ShlMono(y, Pow2(w), g - w);
      ShlPow2(w, g - w);
    }

    // The codes longer than k take at most 2^(g-k) strings each.
    lemma {:induction false} LongCodes(k: nat, k2: nat)
      requires 1 <= k <= k2 <= g < |c|
      ensures Off(c, k) <= Off(c, k2) + c[k2] - c[k]
      ensures End(k2) - End(k) <= Shl(Off(c, k2) + c[k2] - Off(c, k) - c[k], g - k)
      decreases k2
    {
      ShlOne(g - k);
      if k < k2 {
        LongCodes(k, k2 - 1);
        EndIsNextStart(k2 - 1);
        PosPlus(k2, 0, c[k2]);
        ShlShl(c[k2], g - k2, k2 - k);
        ShlGrows(Shl(c[k2], g - k2), k2 - k);
        ShlPlus(Off(c, k2) - Off(c, k) - c[k], c[k2], g - k);
      }
    }

    lemma {:induction false} ShlGrows(y: nat, n: nat)
      ensures y <= Shl(y, n)
    {
      if n != 0 { ShlGrows(y, n - 1); }
    }

    // Neither is any table of a code with fewer than 2^l codes.
    lemma FewNotOverwide()
      requires Valid() && Off(c, g) + c[g] < Pow2(l)
      ensures !Overwide()
    {
      forall k: nat, r: nat, w: nat
        ensures !OverwideAt(k, r, w)
      {
        if OverwideAt(k, r, w) {
          ManyCodes(k, r, w);
        }
      }
    }

    // The codes from (k, r) on are k bits long or longer and take all strings
    // from Pos(k, r).
    lemma CodesLeft(k: nat, r: nat)
      requires Valid() && IsCode(k, r)
      ensures Off(c, g) + c[g] >= Off(c, k) + r
      ensures Pow2(g) <= Pos(k, r) + Shl(Off(c, g) + c[g] - Off(c, k) - r, g - k)
    {
      LongCodes(k, g);
      PosPlus(k, r, c[k] - r);
      ShlPlus(c[k] - r, Off(c, g) + c[g] - Off(c, k) - c[k], g - k);
    }

    // A block that starts with a code l bits below it holds 2^l codes.
    lemma ManyCodes(k: nat, r: nat, w: nat)
      requires Valid() && IsCode(k, r) && w + l <= k && Low(Pos(k, r), g - w) == 0
      ensures Off(c, g) + c[g] >= Pow2(l)
    {
      BlockFits(k, r, w);
      CodesLeft(k, r);
      Pow2Mono(l + (g - k), g - w);
      ShlCancel(Off(c, g) + c[g] - Off(c, k) - r, l, g - k);
    }

    // ------------------------------------------------------------- look-ups

    // The length, k or more, of the code that the string x of g bits starts with.
    function LengthFrom(x: nat, k: nat): (n: nat)
      requires k <= g < |c|
      ensures k <= n <= g
      decreases g - k
    {
      if k == g || x < End(k) then k else LengthFrom(x, k + 1)
    }

    function LengthAt(x: nat): (n: nat)
      requires 1 <= g < |c|
      ensures 1 <= n <= g
    {
      LengthFrom(x, 1)
    }

    lemma {:induction false} LengthUpTo(x: nat, k: nat, n: nat)
      requires Valid() && 1 <= k <= n <= g && x < End(g)
      ensures LengthFrom(x, k) <= n <==> x < End(n)
      decreases n - k
    {
      EndMono(k, n);
      if k < n && x >= End(k) {
        LengthUpTo(x, k + 1, n);
      }
    }

    // The last of the strings that share with x all but their last n bits.
    function LastOf(x: nat, n: nat): nat {
      Shl(Shr(x, n), n) + (Pow2(n) - 1)
    }

    // How many bits are looked at for the code of a stream: at first l; for a longer
    // code, tables being w bits down, as many as the longest code takes that has the
    // same first w bits, but no more than l further ones.
    function Need(s: nat): nat
      requires 1 <= g < |c| && l > 0
    {
      var x := Rev(g, s);
      var k := LengthAt(x);
      if k <= l then l
      else
        var w := LevelBelow(l, k);
        var longest := LengthAt(LastOf(x, g - w));
        if longest <= w + l then longest else w + l
    }
  }
}
