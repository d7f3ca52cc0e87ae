// Number printing, the numeric cases and the padding of lib/libxc/doprnt.c, and the
// parser of lib/libxc/atoi.c. A long is a 32-bit word read as signed; sums wrap round.
module Doprnt {
  import opened Bits

  const LONG: int := 0x1_0000_0000
  const LONG_MAX: int := 0x7FFFFFFF

  // The word with this value, read as signed.
  function Wrap(x: int): (r: int)
    ensures -LONG_MAX - 1 <= r <= LONG_MAX
  {
    var u := x % LONG;
    if u <= LONG_MAX then u else u - LONG
  }

  predicate IsLong(x: int) {
    -LONG_MAX - 1 <= x <= LONG_MAX
  }

  // The same word, read as unsigned.
  function Unsigned(x: int): (u: nat)
    requires IsLong(x)
    ensures u < LONG && Wrap(u) == x
  {
    if x < 0 then x + LONG else x
  }

  // ---------------------------------------------------------------- numerals

  // The numeral of n to a base, most significant digit first, without leading zeros.
  ghost function Numeral(n: nat, base: nat): (r: seq<nat>)
    requires base >= 2
    ensures |r| >= 1 && forall i :: 0 <= i < |r| ==> r[i] < base
  {
    if n < base then [n]
    else
      DivLess(n, base);
      Numeral(n / base, base) + [n % base]
  }

  // The digit at place i from the right.
  ghost function DigitAt(n: int, base: nat, i: nat): (r: nat)
    requires base >= 2
    ensures r < base
    decreases i
  {
    if i == 0 then n % base else DigitAt(n / base, base, i - 1)
  }

  // The digits of n are those of its numeral; beyond it they are zero, and its first
  // is not, but for n being zero.
  lemma {:induction false} NumeralDigits(n: nat, base: nat, i: nat)
    requires base >= 2
    ensures var r := Numeral(n, base); DigitAt(n, base, i) == if i < |r| then r[|r| - 1 - i] else 0
    decreases n, i
  {
    var r := Numeral(n, base);
    if n < base {
      if i > 0 {
        DivSmall(n, base);
        ZeroDigits(base, i - 1);
      }
    } else if i > 0 {
      DivLess(n, base);
      NumeralDigits(n / base, base, i - 1);
    }
  }

  lemma DivSmall(n: nat, base: nat)
    requires n < base
    ensures n / base == 0 && n % base == n
  {
  }

  lemma DivLess(n: nat, base: nat)
    requires base >= 2 && n >= base
    ensures 0 < n / base < n
  {
  }

  lemma {:induction false} ZeroDigits(base: nat, i: nat)
    requires base >= 2
    ensures DigitAt(0, base, i) == 0
  {
    if i > 0 { ZeroDigits(base, i - 1); }
  }

  lemma {:induction false} NumeralFirst(n: nat, base: nat)
    requires base >= 2 && n > 0
    ensures Numeral(n, base)[0] > 0
    decreases n
  {
    if n >= base {
      DivLess(n, base);
      NumeralFirst(n / base, base);
    }
  }

  function DigitChar(d: nat): char
    requires d < 16
  {
    if d < 10 then '0' + d as char else 'a' + (d - 10) as char
  }

  // The numeral in characters.
  ghost function Text(n: nat, base: nat): (s: string)
    requires 2 <= base <= 16
    ensures |s| == |Numeral(n, base)|
  {
    var r := Numeral(n, base);
    seq(|r|, i requires 0 <= i < |r| => DigitChar(r[i]))
  }

  // Characters temp[1..k] hold the digits of n from the right.
  ghost predicate Holds(temp: seq<char>, n: int, base: nat, k: nat)
    requires 2 <= base <= 16
  {
    |temp| > k && temp[0] == '\0' && forall j: nat :: 1 <= j <= k ==> temp[j] == DigitChar(DigitAt(n, base, j - 1))
  }

  // The characters left of the leading zeros, from place h down.
  lemma HoldsText(temp: seq<char>, n: nat, base: nat, k: nat, h: nat)
    requires 2 <= base <= 16 && Holds(temp, n, base, k) && |Numeral(n, base)| <= k && 1 <= h <= k
    requires forall j :: h < j <= k ==> temp[j] == '0'
    requires h == 1 || temp[h] != '0'
    ensures |Text(n, base)| == h
    ensures forall i: nat :: i < h ==> temp[h - i] == Text(n, base)[i]
  {
    var r := Numeral(n, base);
    var m := |r|;
    forall j: nat | 1 <= j <= k
      ensures temp[j] == DigitChar(if j <= m then r[m - j] else 0)
    {
      NumeralDigits(n, base, j - 1);
    }
    if n > 0 {
      NumeralFirst(n, base);
      assert temp[m] == DigitChar(r[0]) != '0';
    }
    assert m == h;
  }

  // n after dropping i digits.
  ghost function Drop(n: int, base: nat, i: nat): int
    requires base >= 2
  {
    if i == 0 then n else Drop(n, base, i - 1) / base
  }

  lemma {:induction false} DropInner(n: int, base: nat, i: nat)
    requires base >= 2
    ensures Drop(n / base, base, i) == Drop(n, base, i) / base
  {
    if i > 0 { DropInner(n, base, i - 1); }
  }

  lemma {:induction false} DropDigit(n: int, base: nat, i: nat)
    requires base >= 2
    ensures DigitAt(n, base, i) == Drop(n, base, i) % base
    decreases i
  {
    if i > 0 {
      DropDigit(n / base, base, i - 1);
      DropInner(n, base, i - 1);
    }
  }

  function Power(base: nat, k: nat): nat {
    if k == 0 then 1 else base * Power(base, k - 1)
  }

  lemma DivBound(n: nat, base: nat, p: nat)
    requires base >= 2 && n < base * p
    ensures n / base < p
  {
  }

  lemma {:induction false} NumeralLength(n: nat, base: nat, k: nat)
    requires base >= 2 && n < Power(base, k) && k > 0
    ensures |Numeral(n, base)| <= k
    decreases k
  {
    assert Power(base, 1) == base * Power(base, 0);
    if n >= base {
      DivBound(n, base, Power(base, k - 1));
      NumeralLength(n / base, base, k - 1);
    }
  }

  lemma PowersCover()
    ensures Power(10, 10) > LONG_MAX && Power(8, 11) > LONG && Power(16, 8) == LONG
  {
    assert Power(10, 5) == 100000;
    assert Power(10, 10) == 100000 * Power(10, 5);
    assert Power(8, 5) == 32768;
    assert Power(8, 10) == 32768 * Power(8, 5);
    assert Power(16, 4) == 65536;
    assert Power(16, 8) == 65536 * Power(16, 4);
  }

  // ------------------------------------------------------------- conversion

  // The C string t is in s.
  ghost predicate Written(s: seq<char>, t: string) {
    |t| < |s| && s[..|t|] == t && s[|t|] == '\0'
  }

  // Lines 260-264, 296-300 and 330-334: leave out leading zeros, and reverse.
  method Strip(temp: array<char>, k: nat, str: array<char>, ghost n: nat, ghost base: nat)
    requires temp != str && 2 <= base <= 16 && Holds(temp[..], n, base, k) && |Numeral(n, base)| <= k < str.Length
             && k > 0
    modifies str
    ensures Written(str[..], Text(n, base))
  {
    var i := k;
    while temp[i] == '0'
      invariant 0 <= i <= k && forall j :: i < j <= k ==> temp[j] == '0'
      decreases i
    {
      i := i - 1;
    }
    if i == 0 {
      i := i + 1;
    }
    ghost var h: nat := i;
    HoldsText(temp[..], n, base, k, h);
    var at := 0;
    while i >= 0
      invariant -1 <= i <= h && at == h - i && 0 <= at <= h + 1
      invariant forall x :: 0 <= x < at ==> str[x] == temp[h - x]
    {
      str[at] := temp[i];
      at := at + 1;
      i := i - 1;
    }
    assert str[..h] == Text(n, base);
  }

  // _prtl10
  method Prtl10(num0: int, str: array<char>)
    requires 0 <= num0 <= LONG_MAX && str.Length == 20
    modifies str
    ensures Written(str[..], Text(num0, 10))
  {
    var num := num0;
    var temp := new char[11](_ => ' ');
    temp[0] := '\0';
    for i := 1 to 11
      invariant Holds(temp[..], num0, 10, i - 1) && num == Drop(num0, 10, i - 1) && num >= 0
    {
      DropDigit(num0, 10, i - 1);
      temp[i] := '0' + (num % 10) as char;
      num := num / 10;
    }
    PowersCover();
    NumeralLength(num0, 10, 10);
    Strip(temp, 10, str, num0, 10);
  }

  // _prtl16
  method Prtl16(num0: int, str: array<char>)
    requires IsLong(num0) && str.Length == 20
    modifies str
    ensures Written(str[..], Text(Unsigned(num0), 16))
  {
    var num := num0;
    var temp := new char[9](_ => ' ');
    temp[0] := '\0';
    for i := 1 to 9
      invariant Holds(temp[..], num0, 16, i - 1) && num == Drop(num0, 16, i - 1)
    {
      DropDigit(num0, 16, i - 1);
      temp[i] := DigitChar(num % 16);
      num := num / 16;
    }
    PowersCover();
    NumeralLength(Unsigned(num0), 16, 8);
    forall i: nat | i < 8 ensures DigitAt(num0, 16, i) == DigitAt(Unsigned(num0), 16, i) {
      HexDigit(num0, i);
    }
    Strip(temp, 8, str, Unsigned(num0), 16);
  }

  // Shifting a negative word right brings in ones, above the digits that are used.
  lemma HexDrop(num: int, i: nat)
    requires IsLong(num) && i <= 8
    ensures Drop(Unsigned(num), 16, i) == Drop(num, 16, i) + if num < 0 then Pow2(32 - 4 * i) else 0
  {
    if i == 0 {
      TwoTo32();
    } else {
      HexDrop(num, i - 1);
      NextFour(32 - 4 * i);
    }
  }

  lemma HexDigit(num: int, i: nat)
    requires IsLong(num) && i < 8
    ensures DigitAt(num, 16, i) == DigitAt(Unsigned(num), 16, i)
  {
    HexDrop(num, i);
    DropDigit(num, 16, i);
    DropDigit(Unsigned(num), 16, i);
    NextFour(32 - 4 * i - 4);
    SameRest(Drop(num, 16, i), Pow2(32 - 4 * i - 4));
  }

  lemma SameRest(x: int, p: nat)
    ensures (x + 16 * p) % 16 == x % 16 && (x + 8 * p) % 8 == x % 8
  {
  }

  lemma NextThree(n: nat)
    ensures Pow2(n + 3) == 8 * Pow2(n)
  {
    assert Pow2(n + 2) == 4 * Pow2(n);
  }

  lemma NextFour(n: nat)
    ensures Pow2(n + 4) == 16 * Pow2(n)
  {
    assert Pow2(n + 2) == 4 * Pow2(n);
  }

  lemma TwoTo32()
    ensures Pow2(32) == LONG
  {
    assert Pow2(8) == 256;
    assert Pow2(12) == 16 * Pow2(8);
    assert Pow2(16) == 16 * Pow2(12);
    assert Pow2(20) == 16 * Pow2(16);
    assert Pow2(24) == 16 * Pow2(20);
    assert Pow2(28) == 16 * Pow2(24);
    assert Pow2(32) == 16 * Pow2(28);
  }

  // _prtl8: the eleventh digit has two bits.
  method Prtl8(num0: int, str: array<char>)
    requires IsLong(num0) && str.Length == 20
    modifies str
    ensures Written(str[..], Text(Unsigned(num0), 8))
  {
    var num := num0;
    var temp := new char[12](_ => ' ');
    temp[0] := '\0';
    for i := 1 to 12
      invariant Holds(temp[..], num0, 8, i - 1) && num == Drop(num0, 8, i - 1)
    {
      DropDigit(num0, 8, i - 1);
      temp[i] := '0' + (num % 8) as char;
      num := num / 8;
    }
    temp[11] := TwoBits(temp[11], DigitAt(num0, 8, 10));
    PowersCover();
    NumeralLength(Unsigned(num0), 8, 11);
    forall j: nat | 1 <= j <= 11
      ensures temp[j] == DigitChar(DigitAt(Unsigned(num0), 8, j - 1))
    {
      OctalDigit(num0, j - 1);
    }
    Strip(temp, 11, str, Unsigned(num0), 8);
  }

  // Line 295
  method TwoBits(c: char, ghost d: nat) returns (r: char)
    requires d < 8 && c == DigitChar(d)
    ensures r == DigitChar(d % 4)
  {
    var mask := '3' as int;
    AndThree(c as int, mask);
    r := And(c as int, mask) as char;
  }

  lemma AndThree(c: int, mask: int)
    requires '0' as int <= c < '8' as int && mask == '3' as int
    ensures And(c, mask) == '0' as int + (c - '0' as int) % 4
  {
    AndHalves(c, mask);
    AndTwentyFive(c / 2, mask / 2);
  }

  lemma AndTwentyFive(c: int, mask: int)
    requires 24 <= c < 28 && mask == 25
    ensures And(c, mask) == 24 + c % 2
  {
    AndHalves(c, mask);
    AndHalves(c / 2, mask / 2);
    AndSame(c / 2 / 2, mask / 2 / 2);
  }

  lemma {:induction false} AndSame(x: nat, y: nat)
    requires x == y
    ensures And(x, y) == x
  {
    if x > 0 {
      AndHalves(x, y);
      AndSame(x / 2, y / 2);
    }
  }

  lemma AndHalves(x: nat, y: nat)
    requires x > 0 && y > 0
    ensures And(x, y) == (if x % 2 == 1 && y % 2 == 1 then 1 else 0) + 2 * And(x / 2, y / 2)
  {
  }

  lemma OctalDrop(num: int, i: nat)
    requires IsLong(num) && i <= 10
    ensures Drop(Unsigned(num), 8, i) == Drop(num, 8, i) + if num < 0 then Pow2(32 - 3 * i) else 0
    ensures 0 <= Drop(Unsigned(num), 8, i) < Pow2(32 - 3 * i)
  {
    TwoTo32();
    if i > 0 {
      OctalDrop(num, i - 1);
      NextThree(32 - 3 * i);
    }
  }

  lemma OctalDigit(num: int, i: nat)
    requires IsLong(num) && i <= 10
    ensures DigitAt(Unsigned(num), 8, i) == if i < 10 then DigitAt(num, 8, i) else DigitAt(num, 8, i) % 4
  {
    OctalDrop(num, i);
    DropDigit(num, 8, i);
    DropDigit(Unsigned(num), 8, i);
    if i < 10 {
      NextThree(32 - 3 * i - 3);
      SameRest(Drop(num, 8, i), Pow2(32 - 3 * i - 3));
    } else {
      assert Pow2(2) == 4;
      TopOctal(num, Drop(num, 8, 10));
    }
  }

  lemma TopOctal(num: int, x: int)
    requires 0 <= x + (if num < 0 then 4 else 0) < 4
    ensures (x + if num < 0 then 4 else 0) % 8 == x % 8 % 4
  {
  }

  // ---------------------------------------------------------------- %u and %d

  const BILLION: int := 1000000000

  // d followed by k zeros.
  ghost function Scale(d: nat, k: nat): nat {
    if k == 0 then d else 10 * Scale(d, k - 1)
  }

  // Adding it only changes the first digit.
  lemma {:induction false} AddFirst(n: nat, d: nat, k: nat)
    requires Scale(1, k) <= n && n + Scale(d, k) < Scale(10, k)
    ensures |Numeral(n, 10)| == k + 1 && Numeral(n, 10)[0] + d < 10
    ensures Numeral(n + Scale(d, k), 10) == [Numeral(n, 10)[0] + d] + Numeral(n, 10)[1..]
    decreases k
  {
    if k > 0 {
      ScalePositive(k - 1);
      TenTimes(n, Scale(d, k - 1));
      AddFirst(n / 10, d, k - 1);
    }
  }

  lemma TenTimes(n: nat, m: nat)
    ensures (n + 10 * m) / 10 == n / 10 + m && (n + 10 * m) % 10 == n % 10
  {
  }

  lemma {:induction false} ScalePositive(k: nat)
    ensures Scale(1, k) >= 1
  {
    if k > 0 { ScalePositive(k - 1); }
  }

  lemma BillionIs(d: nat)
    ensures Scale(d, 9) == d * BILLION
  {
    ThreeZeros(d, 0);
    ThreeZeros(d, 3);
    ThreeZeros(d, 6);
  }

  lemma ThreeZeros(d: nat, k: nat)
    ensures Scale(d, k + 3) == 1000 * Scale(d, k)
  {
    assert Scale(d, k + 2) == 10 * Scale(d, k + 1);
  }

  lemma FirstDigit(n: nat, d: nat)
    requires BILLION <= n && n + d * BILLION < 10 * BILLION
    ensures |Text(n, 10)| == |Text(n + d * BILLION, 10)| == 10
    ensures Numeral(n, 10)[0] + d < 10
    ensures Text(n + d * BILLION, 10)[0] == Text(n, 10)[0] + d as char
    ensures Text(n + d * BILLION, 10)[1..] == Text(n, 10)[1..]
  {
    BillionIs(1);
    BillionIs(d);
    BillionIs(10);
    AddFirst(n, d, 9);
  }

  // Lines 138-148: print the word as unsigned. The billions taken off a word that reads
  // as negative are put back in the first digit.
  method PrintUnsigned(arg0: int, str: array<char>)
    requires IsLong(arg0) && str.Length == 20
    modifies str
    ensures Written(str[..], Text(Unsigned(arg0), 10))
  {
    var arg, digit1 := arg0, 0;
    while arg < 0
      invariant IsLong(arg) && 0 <= digit1 <= 3 && Unsigned(arg) + digit1 * BILLION == Unsigned(arg0)
      invariant digit1 > 0 ==> Unsigned(arg) >= 1147483648
      decreases Unsigned(arg)
    {
      arg := Wrap(arg - BILLION);
      digit1 := digit1 + 1;
    }
    Prtl10(arg, str);
    AddBack(str, arg, digit1);
  }

  method AddBack(str: array<char>, ghost n: nat, digit1: nat)
    requires str.Length == 20 && Written(str[..], Text(n, 10)) && digit1 <= 3 && n <= LONG_MAX
    requires digit1 > 0 ==> n >= BILLION
    modifies str
    ensures Written(str[..], Text(n + digit1 * BILLION, 10))
  {
    if digit1 > 0 {
      FirstDigit(n, digit1);
    }
    ghost var s, t, t' := str[..], Text(n, 10), Text(n + digit1 * BILLION, 10);
    assert s[..|t|][0] == t[0];
    str[0] := str[0] + digit1 as char;
    assert str[..] == s[0 := s[0] + digit1 as char];
    if digit1 > 0 {
      FirstReplaced(s, str[..], t, t', digit1);
    }
  }

  lemma FirstReplaced(s: seq<char>, s': seq<char>, t: string, t': string, d: nat)
    requires Written(s, t) && |t| == |t'| >= 1 && |s'| == |s| && d <= 3 && t[0] <= '9'
    requires t'[0] == t[0] + d as char && t'[1..] == t[1..] && s' == s[0 := s[0] + d as char]
    ensures Written(s', t')
  {
    assert s[..|t|][0] == t[0];
    forall i | 0 <= i < |t| ensures s'[i] == t'[i] {
      assert s[..|t|][i] == t[i];
      if i > 0 { assert t'[1..][i - 1] == t[1..][i - 1]; }
    }
  }

  // ------------------------------------------------------------------ fields

  // What func is given, character by character.
  class Sink {
    var out: string

    constructor ()
      ensures out == ""
    {
      out := "";
    }

    method Put(c: char)
      modifies this
      ensures out == old(out) + [c]
    {
      out := out + [c];
    }

    // Lines 220-221 and 227-228
    method Fill(c: char, count: int)
      modifies this
      ensures out == old(out) + Repeated(c, count)
    {
      var i := 0;
      while i < count
        invariant 0 <= i && (i <= count || i == 0)
        invariant out == old(out) + Repeated(c, i)
      {
        Put(c);
        i := i + 1;
      }
    }
  }

  function Repeated(c: char, count: int): (s: string)
    ensures |s| == if count > 0 then count else 0
  {
    if count <= 0 then "" else Repeated(c, count - 1) + [c]
  }

  const MAXSTR: int := 80

  // The width asked for, or none.
  function Width(fmin: int): int {
    if fmin > MAXSTR || fmin < 0 then 0 else fmin
  }

  // How many characters are filled in.
  function Padding(fmin: int, length: int): int {
    if Width(fmin) > length then Width(fmin) - length else 0
  }

  // The sign is before zeros and behind blanks; left-justified numbers have what fills
  // the field behind them.
  function Field(left: bool, fill: char, fmin: int, negative: bool, digits: string): string {
    var sign := if negative then "-" else "";
    var padding := Repeated(fill, Padding(fmin, |sign + digits|));
    if left then sign + digits + padding
    else if fill == '0' then sign + padding + digits
    else padding + sign + digits
  }

  lemma FieldLength(left: bool, fill: char, fmin: int, negative: bool, digits: string)
    ensures var length := |digits| + if negative then 1 else 0;
            |Field(left, fill, fmin, negative, digits)| == if length < fmin <= 80 then fmin else length
  {
  }

  // Lines 201-228, for a number: str holds its digits.
  method PrintField(sink: Sink, left: bool, fill: char, fmin0: int, negative: bool, str: array<char>,
                    ghost digits: string)
    requires Written(str[..], digits) && '\0' !in digits && (fill == ' ' || fill == '0')
    modifies sink
    ensures sink.out == old(sink.out) + Field(left, fill, fmin0, negative, digits)
  {
    var length := Strlen(str, digits);
    var fmin := fmin0;
    if fmin > MAXSTR || fmin < 0 {
      fmin := 0;
    }
    var leading := 0;
    if fmin != 0 {
      leading := fmin - length;
      if negative {
        leading := leading - 1;
      }
    }
    PaddingIs(fill, fmin0, length, negative, leading);
    EmitField(sink, left, fill, leading, negative, str, length);
    assert str[..length] == digits;
    FieldParts(left, fill, fmin0, negative, digits, leading);
  }

  lemma PaddingIs(fill: char, fmin: int, length: nat, negative: bool, leading: int)
    requires var room := Width(fmin) - length - if negative then 1 else 0;
             leading == if Width(fmin) != 0 then room else 0
    ensures Repeated(fill, leading) == Repeated(fill, Padding(fmin, length + if negative then 1 else 0))
  {
  }

  lemma FieldParts(left: bool, fill: char, fmin: int, negative: bool, digits: string, leading: int)
    requires fill == ' ' || fill == '0'
    requires Repeated(fill, leading) == Repeated(fill, Padding(fmin, |digits| + if negative then 1 else 0))
    ensures Emitted(left, fill, leading, negative, digits) == Field(left, fill, fmin, negative, digits)
  {
    var sign, padding := if negative then "-" else "", Repeated(fill, leading);
    assert |sign + digits| == |digits| + if negative then 1 else 0;
    if left {
      assert Emitted(left, fill, leading, negative, digits) == sign + digits + padding;
    } else if fill == '0' {
      assert Emitted(left, fill, leading, negative, digits) == sign + padding + digits;
    } else {
      assert Emitted(left, fill, leading, negative, digits) == padding + sign + digits;
    }
  }

  // The order of lines 217-228.
  function Emitted(left: bool, fill: char, leading: int, negative: bool, digits: string): string {
    (if negative && fill == '0' then "-" else "") + (if left then "" else Repeated(fill, leading))
      + (if negative && fill == ' ' then "-" else "") + digits + (if left then Repeated(fill, leading) else "")
  }

  method EmitField(sink: Sink, left: bool, fill: char, leading: int, negative: bool, str: array<char>, length: nat)
    requires length <= str.Length
    modifies sink
    ensures sink.out == old(sink.out) + Emitted(left, fill, leading, negative, str[..length])
  {
    if negative && fill == '0' {
      sink.Put('-');
    }
    if !left {
      sink.Fill(fill, leading);
    }
    if negative && fill == ' ' {
      sink.Put('-');
    }
    ghost var before := sink.out;
    for i := 0 to length
      invariant sink.out == before + str[..i]
    {
      sink.Put(str[i]);
    }
    if left {
      sink.Fill(fill, leading);
    }
  }

  // Lines 201-202
  method Strlen(str: array<char>, ghost s: string) returns (length: nat)
    requires Written(str[..], s) && '\0' !in s
    ensures length == |s|
  {
    length := 0;
    assert forall i :: 0 <= i < |s| ==> str[i] == str[..|s|][i] == s[i];
    while str[length] != '\0'
      invariant length <= |s|
      decreases |s| - length
    {
      length := length + 1;
    }
  }

  lemma TextHasNoNull(n: nat, base: nat)
    requires 2 <= base <= 16
    ensures '\0' !in Text(n, base)
  {
  }

  // ----------------------------------------------------------- conversions

  datatype Conversion = D | U | O | X

  function BaseOf(f: Conversion): nat {
    match f case D => 10 case U => 10 case O => 8 case X => 16
  }

  // The number printed: its sign and its magnitude.
  function Negative(f: Conversion, arg: int): bool {
    f == D && arg < 0
  }

  function Magnitude(f: Conversion, arg: int): (m: nat)
    requires IsLong(arg)
  {
    if Negative(f, arg) then -arg else Unsigned(arg)
  }

  // The most negative number is its own negation, and its magnitude when read as
  // unsigned.
  lemma Negated(x: int)
    requires IsLong(x) && x < 0
    ensures Unsigned(Wrap(-x)) == -x
  {
  }

  // Lines 119-181: %d, %u, %o and %x, on 32-bit words.
  method Convert(f: Conversion, arg0: int, str: array<char>) returns (sign: char)
    requires IsLong(arg0) && str.Length == 20
    modifies str
    ensures sign == if Negative(f, arg0) then '-' else '\0'
    ensures Written(str[..], Text(Magnitude(f, arg0), BaseOf(f)))
  {
    sign := '\0';
    var arg := arg0;
    match f
    case D =>
      if arg < 0 {
        sign := '-';
        Negated(arg);
        arg := Wrap(-arg);
      }
      PrintUnsigned(arg, str);
    case U =>
      PrintUnsigned(arg, str);
    case O =>
      Prtl8(arg, str);
    case X =>
      Prtl16(arg, str);
  }

  // A conversion with its field.
  method PrintNumber(sink: Sink, left: bool, fill: char, fmin: int, f: Conversion, arg: int)
    requires IsLong(arg) && (fill == ' ' || fill == '0')
    modifies sink
    ensures sink.out == old(sink.out) + Printed(left, fill, fmin, f, arg)
  {
    var str := new char[20](_ => ' ');
    var sign := Convert(f, arg, str);
    ghost var digits := Text(Magnitude(f, arg), BaseOf(f));
    TextHasNoNull(Magnitude(f, arg), BaseOf(f));
    PrintField(sink, left, fill, fmin, sign == '-', str, digits);
  }

  ghost function Printed(left: bool, fill: char, fmin: int, f: Conversion, arg: int): string
    requires IsLong(arg)
  {
    Field(left, fill, fmin, Negative(f, arg), Text(Magnitude(f, arg), BaseOf(f)))
  }

  // -------------------------------------------------------------------- atoi

  predicate IsDigit(c: char) {
    '0' <= c <= '9'
  }

  function DigitValue(c: char): (d: nat)
    requires IsDigit(c)
    ensures d <= 9
  {
    c as int - '0' as int
  }

  ghost predicate AllDigits(s: string) {
    forall i :: 0 <= i < |s| ==> IsDigit(s[i])
  }

  // The value of a string of digits.
  ghost function Number(s: string): nat
    requires AllDigits(s)
  {
    if s == "" then 0 else 10 * Number(s[..|s| - 1]) + DigitValue(s[|s| - 1])
  }

  // A digit run: its digits up to place n.
  ghost predicate DigitsTo(s: string, from: nat, n: nat) {
    from <= n <= |s| && AllDigits(s[from..n])
  }

  // What atoi reads in s: past the blanks, a sign if there is one, and all the digits
  // that follow.
  ghost predicate Reads(s: string, at: nat, negative: bool, from: nat, n: nat) {
    && at <= from <= |s| && DigitsTo(s, from, n) && (n < |s| ==> !IsDigit(s[n]))
    && (forall i :: 0 <= i < at ==> s[i] == ' ' || s[i] == '\t')
    && (at < |s| ==> s[at] != ' ' && s[at] != '\t')
    && (if at < |s| && (s[at] == '-' || s[at] == '+') then from == at + 1 && negative == (s[at] == '-')
        else from == at && !negative)
  }

  ghost function ValueRead(s: string, negative: bool, from: nat, n: nat): int
    requires DigitsTo(s, from, n)
  {
    Signed(negative, Number(s[from..n]))
  }

  // A magnitude with its sign, as a word.
  function Signed(negative: bool, value: nat): int {
    Wrap(if negative then -(value as int) else value)
  }

  // atoi, of the characters before the terminating null.
  method Atoi(p: string) returns (r: int)
    ensures exists at, negative, from, n :: Reads(p, at, negative, from, n) && r == ValueRead(p, negative, from, n)
  {
    var i := 0;
    while i < |p| && (p[i] == ' ' || p[i] == '\t')
      invariant i <= |p| && forall x :: 0 <= x < i ==> p[x] == ' ' || p[x] == '\t'
    {
      i := i + 1;
    }
    ghost var at := i;
    var f := false;
    if i < |p| && p[i] == '-' {
      f := true;
      i := i + 1;
    } else if i < |p| && p[i] == '+' {
      i := i + 1;
    }
    var value := AtoiDigits(p, i);
    ghost var n: nat :| DigitsUpTo(p, i, n) && value == Wrap(Number(p[i..n]));
    WrapMinus(Number(p[i..n]));
    r := if f then Wrap(-value) else value;
    assert Reads(p, at, f, i, n);
  }

  // Lines 23-24
  method AtoiDigits(p: string, from: nat) returns (value: int)
    requires from <= |p|
    ensures exists n: nat :: DigitsUpTo(p, from, n) && value == Wrap(Number(p[from..n]))
  {
    value := 0;
    var i := from;
    while i < |p| && IsDigit(p[i])
      invariant DigitsTo(p, from, i) && value == Wrap(Number(p[from..i]))
    {
      NextDigit(p, from, i, value);
      value := Wrap(value * 10 + DigitValue(p[i]));
      i := i + 1;
    }
    assert DigitsUpTo(p, from, i);
  }

  // Just the digits from there on.
  ghost predicate DigitsUpTo(p: string, from: nat, n: nat) {
    DigitsTo(p, from, n) && (n < |p| ==> !IsDigit(p[n]))
  }

  lemma NextDigit(p: string, from: nat, i: nat, value: int)
    requires DigitsTo(p, from, i) && i < |p| && IsDigit(p[i]) && value == Wrap(Number(p[from..i]))
    ensures DigitsTo(p, from, i + 1)
    ensures Wrap(value * 10 + DigitValue(p[i])) == Wrap(Number(p[from..i + 1]))
  {
    assert p[from..i + 1] == p[from..i] + [p[i]];
    assert p[from..i + 1][..|p[from..i + 1]| - 1] == p[from..i];
    TenWrap(Number(p[from..i]), DigitValue(p[i]));
  }

  lemma TenWrap(x: int, d: int)
    ensures Wrap(10 * Wrap(x) + d) == Wrap(10 * x + d)
  {
    var k := x / LONG;
    assert x == LONG * k + x % LONG;
    assert Wrap(x) == x - LONG * k || Wrap(x) == x - LONG * (k + 1);
    MultipleOff(10 * x + d, 10 * k);
    MultipleOff(10 * x + d, 10 * (k + 1));
  }

  lemma MultipleOff(x: int, k: int)
    ensures Wrap(x - LONG * k) == Wrap(x)
  {
    assert (x - LONG * k) % LONG == x % LONG;
  }

  lemma WrapMinus(x: int)
    ensures Wrap(-Wrap(x)) == Wrap(-x)
  {
    var k := x / LONG;
    assert x == LONG * k + x % LONG;
    MultipleOff(-x, -k);
    MultipleOff(-x, -(k + 1));
  }

  lemma EachDigit(s: string, from: nat, n: nat)
    requires DigitsTo(s, from, n)
    ensures forall x :: from <= x < n ==> IsDigit(s[x])
  {
    forall x | from <= x < n ensures IsDigit(s[x]) {
      assert s[from..n][x - from] == s[x];
    }
  }

  // What is read is determined by the string.
  lemma ReadsUnique(s: string, at: nat, negative: bool, from: nat, n: nat, at': nat, negative': bool, from': nat,
                    n': nat)
    requires Reads(s, at, negative, from, n) && Reads(s, at', negative', from', n')
    ensures at == at' && negative == negative' && from == from' && n == n'
  {
    assert !(at < at') && !(at' < at);
    EachDigit(s, from, n);
    EachDigit(s, from', n');
  }

  // ---------------------------------------------------------------- round trip

  // One digit string behind another.
  lemma {:induction false} NumberAppend(a: string, b: string)
    requires AllDigits(a) && AllDigits(b)
    ensures AllDigits(a + b) && Number(a + b) == Scale(Number(a), |b|) + Number(b)
  {
    if b == "" {
      assert a + b == a;
    } else {
      NumberAppend(a, b[..|b| - 1]);
      assert (a + b)[..|a + b| - 1] == a + b[..|b| - 1];
    }
  }

  lemma {:induction false} NumberOfText(n: nat)
    ensures AllDigits(Text(n, 10)) && Number(Text(n, 10)) == n
    decreases n
  {
    var t := Text(n, 10);
    if n < 10 {
      assert t[..0] == "";
    } else {
      DivLess(n, 10);
      NumberOfText(n / 10);
      assert t[..|t| - 1] == Text(n / 10, 10);
      assert t[|t| - 1] == DigitChar(n % 10);
    }
  }

  // The place of a character among the digits, and what a string of them is worth.
  function PlaceOf(c: char, digits: string): nat {
    if digits == "" || digits[0] == c then 0 else 1 + PlaceOf(c, digits[1..])
  }

  ghost function Worth(s: string, digits: string, base: nat): nat {
    if s == "" then 0 else base * Worth(s[..|s| - 1], digits, base) + PlaceOf(s[|s| - 1], digits)
  }

  lemma {:induction false} PlaceAt(digits: string, d: nat)
    requires d < |digits| && forall i, j :: 0 <= i < j < |digits| ==> digits[i] != digits[j]
    ensures PlaceOf(digits[d], digits) == d
  {
    if d > 0 {
      assert digits[1..][d - 1] == digits[d];
      PlaceAt(digits[1..], d - 1);
    }
  }

  lemma DigitPlace(d: nat, digits: string)
    requires d < 16 && digits == "0123456789abcdef"
    ensures PlaceOf(DigitChar(d), digits) == d
  {
    assert digits[d] == DigitChar(d);
    PlaceAt(digits, d);
  }

  lemma WorthLast(s: string, c: char, digits: string, base: nat)
    ensures Worth(s + [c], digits, base) == base * Worth(s, digits, base) + PlaceOf(c, digits)
    ensures Worth("", digits, base) == 0
  {
    assert (s + [c])[..|s|] == s;
  }

  lemma TextLast(n: nat, base: nat)
    requires 2 <= base <= 16
    ensures Text(n, base) == (if n < base then "" else Text(n / base, base)) + [DigitChar(n % base)]
  {
    if n < base { DivSmall(n, base); }
  }

  lemma {:induction false} WorthOfText(n: nat, base: nat, digits: string)
    requires 2 <= base <= 16 && digits == "0123456789abcdef"
    ensures Worth(Text(n, base), digits, base) == n
    decreases n
  {
    hide *;
    var q, d := n / base, n % base;
    TextLast(n, base);
    DigitPlace(d, digits);
    if n < base {
      DivSmall(n, base);
      WorthLast("", DigitChar(d), digits, base);
    } else {
      DivLess(n, base);
      WorthOfText(q, base, digits);
      WorthLast(Text(q, base), DigitChar(d), digits, base);
    }
  }

  // What %u, %o and %x print of a word, read with the digits of their base, is the word as
  // an unsigned number.
  lemma UnsignedBack(arg: int, digits: string)
    requires IsLong(arg) && digits == "0123456789abcdef"
    ensures Worth(Printed(false, ' ', 0, U, arg), digits, 10) == arg % 0x1_0000_0000
    ensures Worth(Printed(false, ' ', 0, O, arg), digits, 8) == arg % 0x1_0000_0000
    ensures Worth(Printed(false, ' ', 0, X, arg), digits, 16) == arg % 0x1_0000_0000
  {
    hide Worth, Text, Printed, Unsigned;
    BareField(U, arg);
    BareField(O, arg);
    BareField(X, arg);
    WorthOfText(Unsigned(arg), 10, digits);
    WorthOfText(Unsigned(arg), 8, digits);
    WorthOfText(Unsigned(arg), 16, digits);
  }

  lemma BareField(f: Conversion, arg: int)
    requires IsLong(arg) && f != D
    ensures Printed(false, ' ', 0, f, arg) == Text(Unsigned(arg), BaseOf(f)) && Unsigned(arg) == arg % 0x1_0000_0000
  {
  }

  // Fields wider than their number.
  lemma SevenPrinted()
    ensures Printed(true, ' ', 4, D, -7) == "-7  "
    ensures Printed(false, ' ', 4, D, -7) == "  -7"
    ensures Printed(false, '0', 4, D, -7) == "-007"
    ensures Printed(true, '0', 4, D, 7) == "7000"
  {
    assert Text(7, 10) == "7";
    TwiceRepeated(' ');
    TwiceRepeated('0');
    hide Text, Repeated;
  }

  lemma TwiceRepeated(c: char)
    ensures Repeated(c, 2) == [c, c] && Repeated(c, 3) == [c, c, c]
  {
    assert Repeated(c, 0) == "" && Repeated(c, 1) == [c];
  }

  lemma {:induction false} NumberOfZeros(k: int)
    ensures AllDigits(Repeated('0', k)) && Number(Repeated('0', k)) == 0
  {
    if k > 0 {
      NumberOfZeros(k - 1);
      ZeroBehind(Repeated('0', k - 1));
    }
  }

  lemma ZeroBehind(s: string)
    requires AllDigits(s) && Number(s) == 0
    ensures AllDigits(s + ['0']) && Number(s + ['0']) == 0
  {
    assert (s + ['0'])[..|s + ['0']| - 1] == s;
  }

  lemma {:induction false} ScaleZero(k: nat)
    ensures Scale(0, k) == 0
  {
    if k > 0 { ScaleZero(k - 1); }
  }

  lemma {:induction false} AllBlank(c: char, k: int)
    ensures forall i :: 0 <= i < |Repeated(c, k)| ==> Repeated(c, k)[i] == c
  {
    if k > 0 { AllBlank(c, k - 1); }
  }

  function SignText(negative: bool): string {
    if negative then "-" else ""
  }

  // The parts of a string, place by place.
  lemma Parts(blanks: string, sign: string, run: string, rest: string)
    ensures var s := blanks + sign + run + rest; var from := |blanks| + |sign|;
            && |s| == from + |run| + |rest|
            && (forall i :: 0 <= i < |blanks| ==> s[i] == blanks[i])
            && (forall i :: 0 <= i < |sign| ==> s[|blanks| + i] == sign[i])
            && (forall i :: from <= i < from + |run| ==> s[i] == run[i - from])
            && (rest != "" ==> s[from + |run|] == rest[0])
            && s[from..from + |run|] == run
  {
  }

  // What atoi makes of blanks, a sign, digits, and something that is no digit.
  lemma ReadsParts(blanks: string, negative: bool, run: string, rest: string, s: string)
    requires (forall i :: 0 <= i < |blanks| ==> blanks[i] == ' ') && AllDigits(run) && run != ""
    requires (rest != "" ==> !IsDigit(rest[0])) && s == blanks + SignText(negative) + run + rest
    ensures var from := |blanks| + |SignText(negative)|;
            && Reads(s, |blanks|, negative, from, from + |run|)
            && ValueRead(s, negative, from, from + |run|) == Signed(negative, Number(run))
  {
    Parts(blanks, SignText(negative), run, rest);
    assert IsDigit(run[0]);
  }

  // The digits that atoi reads of what %d printed.
  ghost function Run(left: bool, fill: char, fmin: int, arg: int): string
    requires IsLong(arg)
  {
    var digits := Text(Magnitude(D, arg), 10);
    var padding := Repeated(fill, Filled(fmin, arg));
    if fill == ' ' then digits else if left then digits + padding else padding + digits
  }

  // How many characters %d fills in.
  ghost function Filled(fmin: int, arg: int): int
    requires IsLong(arg)
  {
    Padding(fmin, |Text(Magnitude(D, arg), 10)| + if arg < 0 then 1 else 0)
  }

  lemma PrintedParts(left: bool, fill: char, fmin: int, arg: int)
    requires IsLong(arg) && (fill == ' ' || fill == '0')
    ensures var padding := Repeated(fill, Filled(fmin, arg));
            Printed(left, fill, fmin, D, arg) ==
              (if fill == ' ' && !left then padding else "") + SignText(arg < 0) + Run(left, fill, fmin, arg)
              + (if fill == ' ' && left then padding else "")
  {
    var digits, sign := Text(Magnitude(D, arg), 10), SignText(arg < 0);
    var padding := Repeated(fill, Filled(fmin, arg));
    assert |sign + digits| == |digits| + if arg < 0 then 1 else 0;
    Orders(sign, digits, padding);
  }

  lemma Orders(sign: string, digits: string, padding: string)
    ensures "" + sign + digits + padding == sign + digits + padding
    ensures "" + sign + (digits + padding) + "" == sign + digits + padding
    ensures "" + sign + (padding + digits) + "" == sign + padding + digits
    ensures padding + sign + digits + "" == padding + sign + digits
  {
  }

  lemma RunDigits(left: bool, fill: char, fmin: int, arg: int)
    requires IsLong(arg) && (fill == ' ' || fill == '0')
    ensures AllDigits(Run(left, fill, fmin, arg)) && Run(left, fill, fmin, arg) != ""
    ensures Number(Run(left, fill, fmin, arg)) ==
            if left && fill == '0' then Scale(Magnitude(D, arg), Filled(fmin, arg)) else Magnitude(D, arg)
  {
    var m, k := Magnitude(D, arg), Filled(fmin, arg);
    var digits := Text(m, 10);
    NumberOfText(m);
    NumberOfZeros(k);
    if fill == '0' && left {
      NumberAppend(digits, Repeated('0', k));
    } else if fill == '0' {
      NumberAppend(Repeated('0', k), digits);
      ScaleZero(|digits|);
    }
  }

  lemma PrintedRun(left: bool, fill: char, fmin: int, arg: int, at: nat, negative: bool, from: nat, n: nat)
    requires IsLong(arg) && (fill == ' ' || fill == '0')
    requires Reads(Printed(left, fill, fmin, D, arg), at, negative, from, n)
    ensures AllDigits(Run(left, fill, fmin, arg))
    ensures ValueRead(Printed(left, fill, fmin, D, arg), negative, from, n)
            == Signed(arg < 0, Number(Run(left, fill, fmin, arg)))
  {
    var s, run := Printed(left, fill, fmin, D, arg), Run(left, fill, fmin, arg);
    var padding := Repeated(fill, Filled(fmin, arg));
    RunDigits(left, fill, fmin, arg);
    PrintedParts(left, fill, fmin, arg);
    AllBlank(fill, Filled(fmin, arg));
    var blanks := if fill == ' ' && !left then padding else "";
    var rest := if fill == ' ' && left then padding else "";
    ReadsParts(blanks, arg < 0, run, rest, s);
    var from' := |blanks| + |SignText(arg < 0)|;
    ReadsUnique(s, at, negative, from, n, |blanks|, arg < 0, from', from' + |run|);
  }

  // atoi gives back what %d printed, in a field of any width, if and only if the number
  // does not have zeros filled in behind it; of zero itself they do no harm.
  lemma AtoiOfPrinted(left: bool, fill: char, fmin: int, arg: int, at: nat, negative: bool, from: nat, n: nat)
    requires IsLong(arg) && (fill == ' ' || fill == '0')
    requires Reads(Printed(left, fill, fmin, D, arg), at, negative, from, n)
    ensures ValueRead(Printed(left, fill, fmin, D, arg), negative, from, n) == arg <==>
            !(left && fill == '0' && arg != 0 && Filled(fmin, arg) > 0)
  {
    PrintedRun(left, fill, fmin, arg, at, negative, from, n);
    RunDigits(left, fill, fmin, arg);
    SignedMagnitude(arg);
    ZerosBehind(arg, Magnitude(D, arg), Filled(fmin, arg));
  }

  lemma SignedMagnitude(arg: int)
    requires IsLong(arg)
    ensures Signed(arg < 0, Magnitude(D, arg)) == arg
  {
  }

  // A number with zeros behind it is another word, but for zero.
  lemma ZerosBehind(arg: int, m: nat, k: nat)
    requires IsLong(arg) && m == Magnitude(D, arg)
    ensures Signed(arg < 0, Scale(m, k)) == arg <==> !(arg != 0 && k > 0)
  {
    if m == 0 {
      ScaleZero(k);
    } else if k == 0 {
      SignedMagnitude(arg);
    } else {
      var x := Scale(m, k);
      if Signed(arg < 0, x) == arg {
        SameWord(if arg < 0 then -(x as int) else x, arg);
        var q := MultipleOf(x - m);
        ScaleTimes(m, k);
        var h := EvenScale(k);
        OddMultiple(Scale(1, k), h, m, q);
      }
    }
  }

  lemma OddMultiple(t: nat, h: nat, m: nat, q: int)
    requires t == 2 * h && m * t - m == LONG * q && m < LONG
    ensures m == 0
  {
    TwoTo32();
    OddTimes(t, m, q);
    var q' := OddCancel(t - 1, h - 1, m, 32, q);
    OnlyZero(m, q');
  }

  lemma SameWord(x: int, y: int)
    requires Wrap(x) == y
    ensures (x - y) % LONG == 0 && (y - x) % LONG == 0
  {
  }

  lemma MultipleOf(x: int) returns (q: int)
    requires x % LONG == 0
    ensures x == LONG * q
  {
    q := x / LONG;
  }

  lemma {:induction false} ScaleTimes(m: nat, k: nat)
    ensures Scale(m, k) == m * Scale(1, k)
  {
    if k > 0 {
      ScaleTimes(m, k - 1);
      TenOut(m, Scale(1, k - 1));
    }
  }

  lemma TenOut(m: nat, x: nat)
    ensures m * (10 * x) == 10 * (m * x)
  {
  }

  lemma EvenScale(k: nat) returns (h: nat)
    requires k > 0
    ensures Scale(1, k) == 2 * h && h > 0
  {
    ScalePositive(k - 1);
    h := 5 * Scale(1, k - 1);
  }

  lemma OddTimes(t: nat, m: nat, q: int)
    requires m * t - m == LONG * q
    ensures (t - 1) * m == LONG * q
  {
  }

  // An odd factor does not help in being a multiple of a power of two.
  lemma {:induction false} OddCancel(c: int, a: int, v: nat, w: nat, q: int) returns (q': int)
    requires c == 2 * a + 1 && c * v == Pow2(w) * q
    ensures v == Pow2(w) * q'
    decreases w
  {
    if w == 0 {
      q' := v;
    } else {
      var p := Pow2(w - 1);
      Halve(c, a, v, p, q);
      q' := OddCancel(c, a, v / 2, w - 1, q);
      assert v == 2 * (p * q') == (2 * p) * q';
    }
  }

  lemma Halve(c: int, a: int, v: nat, p: nat, q: int)
    requires c == 2 * a + 1 && c * v == 2 * p * q
    ensures v % 2 == 0 && c * (v / 2) == p * q
  {
    var b := v / 2;
    assert c * v == 2 * (a * v) + v;
    assert 2 * p * q == 2 * (p * q);
    assert v == 2 * (p * q - a * v);
    assert c * v == 2 * (c * b);
  }

  lemma OnlyZero(m: nat, q: int)
    requires m < LONG && m == LONG * q
    ensures m == 0
  {
  }
}
