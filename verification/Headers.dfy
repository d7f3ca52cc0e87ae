// What the fields of a block with its own codes stand for, written out in numbers: the
// head, the places of the code lengths, and the runs of lengths.
module Headers {
  import opened Bits
  import opened CodeLengths
  import opened Deflate

  // ---------------------------------------------------------------- the head

  // Fourteen bits, lowest first: how many literal/length codes there are beyond 257,
  // distance codes beyond 1 and code-length codes beyond 4.
  lemma HeadRead(input: seq<Byte>, p: nat, head: Head, q: nat)
    ensures HeadAt(input, p) == Ok(head, q) <==>
            && 257 <= head.nl <= 288 && 1 <= head.nd <= 32 && 4 <= head.nb <= 19 && q == p + 14 <= 8 * |input|
            && FieldAt(input, p, 14) == (head.nl - 257) + 32 * (head.nd - 1) + 1024 * (head.nb - 4)
  {
    var a, b, c := FieldAt(input, p, 5), FieldAt(input, p + 5, 5), FieldAt(input, p + 10, 4);
    HeadFields(input, p, a, b, c);
    HeadFrom(input, p, a, b, c);
    if 257 <= head.nl && 1 <= head.nd && 4 <= head.nb {
      OneHead(a, b, c, head.nl - 257, head.nd - 1, head.nb - 4);
    }
    hide *;
  }

  lemma HeadFrom(input: seq<Byte>, p: nat, a: nat, b: nat, c: nat)
    requires a == FieldAt(input, p, 5) && b == FieldAt(input, p + 5, 5) && c == FieldAt(input, p + 10, 4)
    ensures HeadAt(input, p)
         == if p + 14 <= 8 * |input| then Ok(Head(257 + a, 1 + b, 4 + c), p + 14) else Bad(Halted)
  {
    hide FieldAt;
  }

  // The three numbers in one.
  lemma OneHead(a: nat, b: nat, c: nat, a': nat, b': nat, c': nat)
    requires a < 32 && b < 32 && c < 16
    ensures a' < 32 && b' < 32 && a + 32 * b + 1024 * c == a' + 32 * b' + 1024 * c' ==> a' == a && b' == b && c' == c
  {
  }

  lemma HeadFields(input: seq<Byte>, p: nat, a: nat, b: nat, c: nat)
    requires a == FieldAt(input, p, 5) && b == FieldAt(input, p + 5, 5) && c == FieldAt(input, p + 10, 4)
    ensures a < 32 && b < 32 && c < 16 && FieldAt(input, p, 14) == a + 32 * b + 1024 * c
  {
    var x := Rest(input, p);
    ShrShr(AsNumber(input), p, 5);
    ShrShr(AsNumber(input), p, 10);
    ShrShr(x, 5, 5);
    LowAdd(x, 5, 9);
    LowAdd(Shr(x, 5), 5, 4);
    Split(x, 5);
    Split(Shr(x, 5), 5);
    Split(Shr(x, 10), 4);
    Powers();
    ShlSmall(c);
    ShlSmall(b + 32 * c);
  }

  // More than 286 literal/length codes, or 30 distance codes, are refused before anything
  // more is read.
  lemma TooMany(look: nat, f: Alphabets, head: Head, input: seq<Byte>, p: nat)
    requires f.ValidOrder() && 4 <= head.nb <= 19
    ensures head.nl > 286 || head.nd > 30 ==> SetLengthsAt(look, f.order, head, input, p) == Bad(Ret(1))
    ensures head.nl <= 286 && head.nd <= 30 && p + 3 * head.nb > 8 * |input| ==>
      SetLengthsAt(look, f.order, head, input, p) == Bad(Halted)
  {
  }

  // ------------------------------------------- lengths of the code-length code

  // Where the three bits for each symbol of that code come.
  lemma CodeLengthRead(input: seq<Byte>, p: nat, n: nat, x: nat, f: Alphabets, places: seq<nat>)
    requires f == RFC && n <= 19 && x < 19
    requires places == [3, 17, 15, 13, 11, 9, 7, 5, 4, 6, 8, 10, 12, 14, 16, 18, 0, 1, 2]
    ensures f.ValidOrder()
    ensures CodeLengthCode(f.order, input, p, n)[x]
         == if places[x] < n then FieldAt(input, p + 3 * places[x], 3) else 0
  {
    RfcOrder();
    PlaceIs(f.order, places, x);
    CodeLengthAt(f.order, input, p, n, places[x]);
  }

  lemma PlaceIs(order: seq<nat>, places: seq<nat>, x: nat)
    requires order == RFC.order && x < 19
    requires places == [3, 17, 15, 13, 11, 9, 7, 5, 4, 6, 8, 10, 12, 14, 16, 18, 0, 1, 2]
    ensures places[x] < 19 && order[places[x]] == x
  {
  }

  // -------------------------------------------------------------------- runs

  // The run is of n lengths x and ends at q.
  ghost predicate RunIs(r: Parsed<seq<nat>>, x: nat, n: nat, q: nat) {
    r.Ok? && r.pos == q && |r.value| == n && forall i :: 0 <= i < n ==> r.value[i] == x
  }

  // All the runs there are: a length below 16 alone; with 16 and two more bits 3 to 6 times
  // the last one; with 17 and three bits 3 to 10 zeros; with 18 and seven bits 11 to 138.
  lemma RunsAre(y: nat, ls: seq<nat>, input: seq<Byte>, p: nat, x: nat, n: nat, q: nat)
    requires y <= 18 && n > 0
    ensures RunIs(RunAt(y, ls, input, p), x, n, q) <==>
            if y < 16 then n == 1 && x == y && q == p
            else if y == 16 then
              && 3 <= n <= 6 && x == (if ls == [] then 0 else ls[|ls| - 1])
              && q == p + 2 <= 8 * |input| && FieldAt(input, p, 2) == n - 3
            else if y == 17 then 3 <= n <= 10 && x == 0 && q == p + 3 <= 8 * |input| && FieldAt(input, p, 3) == n - 3
            else 11 <= n <= 138 && x == 0 && q == p + 7 <= 8 * |input| && FieldAt(input, p, 7) == n - 11
  {
    Powers();
    Split(Rest(input, p), 2);
    Split(Rest(input, p), 3);
    Split(Rest(input, p), 7);
    hide Rest, Low;
    var r := RunAt(y, ls, input, p);
    if r.Ok? && |r.value| == n {
      assert r.value[0] == if y < 16 then y else if y == 16 then LastOf(ls) else 0;
    }
  }

  // After a length other than zero each run of zeros has one symbol and one field.
  lemma ZerosCoded(y: nat, ls: seq<nat>, input: seq<Byte>, p: nat, n: nat, q: nat)
    requires y <= 18 && ls != [] && ls[|ls| - 1] != 0 && 3 <= n <= 138
    ensures RunIs(RunAt(y, ls, input, p), 0, n, q) <==>
            && q <= 8 * |input|
            && if n <= 10 then y == 17 && q == p + 3 && FieldAt(input, p, 3) == n - 3
               else y == 18 && q == p + 7 && FieldAt(input, p, 7) == n - 11
  {
    RunsAre(y, ls, input, p, 0, n, q);
  }

  // And each repetition of it.
  lemma RepeatCoded(y: nat, ls: seq<nat>, input: seq<Byte>, p: nat, n: nat, q: nat)
    requires y <= 18 && ls != [] && ls[|ls| - 1] != 0 && 3 <= n <= 6
    ensures RunIs(RunAt(y, ls, input, p), ls[|ls| - 1], n, q) <==>
            y == 16 && q == p + 2 <= 8 * |input| && FieldAt(input, p, 2) == n - 3
  {
    RunsAre(y, ls, input, p, ls[|ls| - 1], n, q);
  }

  // Each of them can be written.
  lemma ZerosWritten(ls: seq<nat>, n: nat)
    requires 3 <= n <= 138
    ensures n <= 10 ==> RunIs(RunAt(17, ls, [n - 3], 0), 0, n, 3)
    ensures n > 10 ==> RunIs(RunAt(18, ls, [n - 11], 0), 0, n, 7)
  {
    var b: Byte := if n <= 10 then n - 3 else n - 11;
    assert [b][1..] == [];
    assert AsNumber([b]) == b == Rest([b], 0);
    Powers();
    if n <= 10 {
      SmallShr(b, 3);
      RunsAre(17, ls, [b], 0, 0, n, 3);
    } else {
      SmallShr(b, 7);
      RunsAre(18, ls, [b], 0, 0, n, 7);
    }
  }
}
