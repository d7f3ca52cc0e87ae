// The decoder of inflate.c, proved against the format in Deflate.
module Inflate {
  import opened Ahead
  import opened Bits
  import opened BitReader
  import opened Canonical
  import opened CodeLengths
  import opened Crc
  import opened Deflate
  import opened HuftBuild
  import opened HuftDecode
  import opened HuftTables
  import opened Lz77

  // Bits in a byte, and in two.
  const OCTET: nat := 8
  const PAIR: nat := 16

  // The tables and their index width decode the codes of these lengths. With no
  // code at all there are no tables.
  ghost predicate DecoderFor(lens: seq<nat>, m: nat, src: Source, tables: seq<seq<Huft>>, bits: nat) {
    && Lengths(lens) && |lens| - src.s <= |src.e| == |src.d| && m > 0
    && (if tables == [] then Count(lens, 0) == |lens|
        else exists kmin, g :: DecodesSpan(lens, m, src, tables, bits, kmin, g))
  }

  ghost predicate DecodesSpan(lens: seq<nat>, m: nat, src: Source, tables: seq<seq<Huft>>, bits: nat, kmin: nat, g: nat)
    requires Lengths(lens) && |lens| - src.s <= |src.e| == |src.d|
  {
    && ShapedBy(lens, kmin, g) && bits == Clamp(m, kmin, g)
    && DecodesSymbols(lens, src, tables, bits)
    && Feeds(ShapeOf(lens, g, bits), tables)
    && RejectsOthers(lens, tables, bits, g)
    && AlwaysSane(tables, bits)
  }

  // The longest length is at most any bound of the lengths.
  lemma LongestBound(lens: seq<nat>, kmin: nat, g: nat, bound: nat)
    requires Spans(lens, kmin, g) && forall y :: 0 <= y < |lens| ==> lens[y] <= bound
    ensures g <= bound
  {
    SymbolsAre(lens, g, 0);
  }

  lemma {:induction false} NoLengths(lens: seq<nat>)
    requires Lengths(lens)
    ensures Count(lens, 0) == |lens| <==> forall y :: 0 <= y < |lens| ==> lens[y] == 0
    ensures Count(lens, 0) == |lens| ==> Kraft(lens) == 0
  {
    if lens != [] {
      NoLengths(lens[..|lens| - 1]);
      assert lens == lens[..|lens| - 1] + [lens[|lens| - 1]];
    }
  }

  // The sets of codes that huft_build returns 0 for.
  lemma UsableBuilt(lens: seq<nat>, s: nat, d: seq<nat>, e: seq<nat>, m: nat,
                    ret: nat, tables: seq<seq<Huft>>, bits: nat, kmin: nat, g: nat)
    requires Lengths(lens) && |lens| - s <= |e| == |d|
    requires Builds(lens, s, d, e, m, ret, tables, bits, kmin, g)
    ensures (ret == 0 <==> Usable(lens)) && (ret == 2 <==> Kraft(lens) > FULL) && ret <= 2
  {
    NoLengths(lens);
    if Count(lens, 0) < |lens| {
      SymbolsAre(lens, g, 0);
      if forall y :: 0 <= y < |lens| ==> lens[y] <= 1 {
        LongestBound(lens, kmin, g, 1);
      } else {
        var y :| 0 <= y < |lens| && lens[y] > 1;
        UsedLength(lens, kmin, g, y);
      }
    }
  }

  // Codes no longer than twice the wanted width, or complete and few, get tables
  // that decode them.
  lemma DecoderBuilt(lens: seq<nat>, s: nat, d: seq<nat>, e: seq<nat>, m: nat,
                     ret: nat, tables: seq<seq<Huft>>, bits: nat, kmin: nat, g: nat)
    requires Lengths(lens) && |lens| - s <= |e| == |d| && m > 0
    requires forall n :: 0 <= n < |e| ==> e[n] <= 16 || e[n] == 99
    requires Builds(lens, s, d, e, m, ret, tables, bits, kmin, g)
    requires (forall y :: 0 <= y < |lens| ==> lens[y] <= 2 * m) || (|lens| < Pow2(m) && ret == 0)
    ensures ret <= 1 ==> DecoderFor(lens, m, SourceOf(lens, s, d, e), tables, bits)
  {
    if Count(lens, 0) < |lens| && ret <= 1 {
      var src := SourceOf(lens, s, d, e);
      if forall y :: 0 <= y < |lens| ==> lens[y] <= 2 * m {
        LongestBound(lens, kmin, g, 2 * m);
      }
      NotOverwide(lens, m, kmin, g);
      assert DecodesSpan(lens, m, src, tables, bits, kmin, g);
      assert Sane(tables, 0, bits, 0);
    }
  }

  lemma NotOverwide(lens: seq<nat>, m: nat, kmin: nat, g: nat)
    requires Spans(lens, kmin, g) && EndOf(lens, g) <= Pow2(g) && m > 0
    requires g <= 2 * m || g == 1 || (|lens| < Pow2(m) && Kraft(lens) == FULL)
    ensures !ShapeOf(lens, g, Clamp(m, kmin, g)).Overwide()
  {
    var sh := ShapeOf(lens, g, Clamp(m, kmin, g));
    ShapeValid(lens, kmin, g, sh.l);
    if g <= 2 * sh.l {
      sh.ShallowNotOverwide();
    } else {
      KraftAtMax(lens, g);
      ShapeCounts(lens, g, sh.l, g);
      UsedUpTo(lens, g);
      UsedTotal(lens);
      Pow2Mono(m, sh.l);
      sh.FewNotOverwide();
    }
  }

  // The walk at p, against the code: the symbol there, if all of its code can be looked up,
  // is found; other strings lead to entries marked invalid or made of memory never written.
  ghost predicate WalksTo(lens: seq<nat>, m: nat, src: Source, tables: seq<seq<Huft>>, bits: nat, input: seq<Byte>,
                          p: nat, y: nat)
    requires |lens| - src.s <= |src.e| == |src.d|
  {
    var found := Walk(tables, 0, bits, Rest(input, p));
    var symbol := Symbol(m, lens, input, p);
    if !Fed(tables, 0, bits, Rest(input, p), 8 * |input| - p) then symbol == Bad(Halted)
    else if symbol.Ok? then
      && symbol.value == y < |lens| && Finds(found, src, y, lens[y])
      && symbol.pos == p + found.skipped + found.entry.b
    else
      && (symbol == Bad(Undefined) || symbol == Bad(Ret(1)))
      && !found.entry.Blank?
      && found.entry == if symbol == Bad(Undefined) then Junk(found.entry.b) else Entry(99, found.entry.b, NoValue)
  }

  lemma FoundIsSymbol(lens: seq<nat>, m: nat, src: Source, tables: seq<seq<Huft>>, bits: nat, input: seq<Byte>, p: nat)
    returns (y: nat)
    requires DecoderFor(lens, m, src, tables, bits) && tables != [] && p <= 8 * |input|
    ensures AlwaysSane(tables, bits)
    ensures WalksTo(lens, m, src, tables, bits, input, p, y)
  {
    var kmin, g :| DecodesSpan(lens, m, src, tables, bits, kmin, g);
    var s := Rest(input, p);
    y := 0;
    NeedOfShape(lens, m, kmin, g, s);
    assert Fed(tables, 0, bits, s, 8 * |input| - p) <==> Looked(m, lens, input, p);
    if Looked(m, lens, input, p) {
      assert Sane(tables, 0, bits, s);
      FedEnough(tables, 0, bits, s, 8 * |input| - p);
      if y': nat :| StartsWith(lens, y', s) {
        y := y';
        CodeFound(lens, m, src, tables, bits, input, p, kmin, g, y);
      } else {
        NoneFound(lens, m, src, tables, bits, input, p, kmin, g);
      }
    }
  }

  lemma CodeFound(lens: seq<nat>, m: nat, src: Source, tables: seq<seq<Huft>>, bits: nat, input: seq<Byte>, p: nat,
                  kmin: nat, g: nat, y: nat)
    requires Lengths(lens) && |lens| - src.s <= |src.e| == |src.d| && ShapedBy(lens, kmin, g)
    requires DecodesSymbols(lens, src, tables, bits) && StartsWith(lens, y, Rest(input, p))
    requires Looked(m, lens, input, p) && Fed(tables, 0, bits, Rest(input, p), 8 * |input| - p)
    requires var found := Walk(tables, 0, bits, Rest(input, p));
             !found.entry.Blank? && found.skipped + found.entry.b <= 8 * |input| - p
    ensures WalksTo(lens, m, src, tables, bits, input, p, y)
  {
    var found := Walk(tables, 0, bits, Rest(input, p));
    assert Finds(found, src, y, lens[y]);
    hide Walk, Fed, Looked, ShapedBy, DecodesSymbols, StartsWith;
    OnlySymbol(lens, kmin, g, input, p, y);
  }

  lemma NoneFound(lens: seq<nat>, m: nat, src: Source, tables: seq<seq<Huft>>, bits: nat, input: seq<Byte>, p: nat,
                  kmin: nat, g: nat)
    requires Lengths(lens) && |lens| - src.s <= |src.e| == |src.d| && ShapedBy(lens, kmin, g)
    requires RejectsOthers(lens, tables, bits, g) && forall y: nat :: !StartsWith(lens, y, Rest(input, p))
    requires Looked(m, lens, input, p) && Fed(tables, 0, bits, Rest(input, p), 8 * |input| - p)
    ensures WalksTo(lens, m, src, tables, bits, input, p, 0)
  {
    assert Rejects(Walk(tables, 0, bits, Rest(input, p)), lens, Rest(input, p), g);
    UnwrittenSpans(lens, kmin, g, Rest(input, p));
    SomeCode(lens, kmin, g);
    hide Walk, Fed, Looked, ShapedBy, UnwrittenAt, Unwritten;
  }

  lemma SomeCode(lens: seq<nat>, kmin: nat, g: nat)
    requires Spans(lens, kmin, g)
    ensures Count(lens, 0) != |lens|
  {
    UsedTotal(lens);
    UsedUpTo(lens, g);
    assert Counts(lens)[g] > 0;
  }

  lemma OnlySymbol(lens: seq<nat>, kmin: nat, g: nat, input: seq<Byte>, p: nat, y: nat)
    requires ShapedBy(lens, kmin, g) && StartsWith(lens, y, Rest(input, p)) && p + lens[y] <= 8 * |input|
    ensures SymbolAt(lens, input, p, y) && forall z: nat :: SymbolAt(lens, input, p, z) ==> z == y
  {
    forall z: nat | SymbolAt(lens, input, p, z) ensures z == y {
      SymbolUnique(lens, kmin, g, z, y, Rest(input, p));
    }
  }

  // The literals and matches left to decode, from bit p after the bytes h.
  ghost predicate Heading(f: Alphabets, lit: seq<nat>, dst: seq<nat>, input: seq<Byte>, p: nat, h: seq<Byte>,
                          target: Parsed<seq<Byte>>) {
    f.Looking() && Codes(f, lit, dst, input, p, h) == target
  }

  function LiteralSource(f: Alphabets, lit: seq<nat>): Source {
    SourceOf(lit, 257, f.lengthBase, f.lengthExtra)
  }

  function DistanceSource(f: Alphabets, dst: seq<nat>): Source {
    SourceOf(dst, 0, f.distBase, f.distExtra)
  }

  ghost predicate LiteralDecoder(f: Alphabets, lit: seq<nat>, tables: seq<seq<Huft>>, bits: nat) {
    f.Looking() && |lit| <= N_MAX && DecoderFor(lit, f.LiteralLook(lit), LiteralSource(f, lit), tables, bits)
  }

  ghost predicate DistanceDecoder(f: Alphabets, dst: seq<nat>, tables: seq<seq<Huft>>, bits: nat) {
    f.Looking() && |dst| <= 30 && DecoderFor(dst, f.DistanceLook(), DistanceSource(f, dst), tables, bits)
  }

  class Inflater {
    const f: Alphabets
    const inp: Reader
    const win: Window

    ghost predicate Valid()
      reads this, inp, win, win.slide, win.sum, win.sum.tab
    {
      f.Looking() && inp.Valid() && win.Valid()
    }

    constructor (inp: Reader, win: Window)
      ensures this.inp == inp && this.win == win && f == LOOKING && f.Looking() && f.ValidOrder()
    {
      this.f, this.inp, this.win := LOOKING, inp, win;
      LookingValid();
    }

    // Lines 353-362: look up the next code, following links; e <= 16 on return.
    method Lookup(tables: seq<seq<Huft>>, bits: nat) returns (st: Status, entry: Huft)
      requires inp.Valid() && (tables != [] ==> AlwaysSane(tables, bits))
      modifies inp
      ensures inp.Valid()
      ensures LooksUp(tables, bits, inp.input, old(inp.Pos()), st, entry, inp.Pos())
    {
      entry := Blank;
      if tables == [] { return Undefined, entry; }
      ghost var p := inp.Pos();
      ghost var found := Walk(tables, 0, bits, Rest(inp.input, p));
      ghost var fed := Fed(tables, 0, bits, Rest(inp.input, p), 8 * |inp.input| - p);
      assert Sane(tables, 0, bits, Rest(inp.input, p));
      var have := inp.NeedBits(bits);
      if have.Exhausted? { return Halted, entry; }
      var t: nat, width: nat := 0, bits;
      entry := tables[0][Low(inp.bb, bits)];
      while entry.Entry? && entry.e > 16
        invariant inp.Valid() && inp.bk >= width && inp.Pos() >= p
        invariant AtEntry(tables, t, width, inp.input, inp.Pos(), entry, found, fed, inp.Pos() - p)
        decreases |tables| - t
      {
        if entry.e == 99 { return Ret(1), entry; }
        have, t, width, entry := Follow(tables, t, width, entry, found, fed, p);
        if have.Exhausted? { return Halted, entry; }
      }
      if entry.Junk? { return Undefined, entry; }
      inp.DumpBits(entry.b);
      st := Ret(0);
    }

    // Lines 358-361: dump the link's bits and look up in the table it leads to.
    method Follow(tables: seq<seq<Huft>>, t0: nat, ghost width0: nat, link: Huft, ghost found: Found, ghost fed: bool,
                  ghost p: nat)
      returns (have: Input, t: nat, width: nat, entry: Huft)
      requires inp.Valid() && inp.bk >= width0 && inp.Pos() >= p
      requires AtEntry(tables, t0, width0, inp.input, inp.Pos(), link, found, fed, inp.Pos() - p)
      requires link.Entry? && link.e > 16 && link.e != 99
      modifies inp
      ensures inp.Valid() && inp.Pos() >= p
      ensures have.Available? ==>
        && inp.bk >= width && t0 < t < |tables|
        && AtEntry(tables, t, width, inp.input, inp.Pos(), entry, found, fed, inp.Pos() - p)
      ensures have.Exhausted? ==> !fed
    {
      hide Walk, Fed, Low, Shr;
      FollowLink(tables, t0, width0, inp.input, inp.Pos(), link, found, fed, inp.Pos() - p);
      inp.DumpBits(link.b);
      t, width, entry := link.v.t, link.e - 16, link;
      have := inp.NeedBits(width);
      if have.Available? {
        var j := Low(inp.bb, width);
        entry := tables[t][j];
      }
    }

    // The walk from the root stands at this entry after `skipped` bits.
    static ghost predicate AtEntry(tables: seq<seq<Huft>>, t: nat, width: nat, input: seq<Byte>, p: nat, entry: Huft,
                                   found: Found, fed: bool, skipped: nat)
    {
      var j, rest := FieldAt(input, p, width), Walk(tables, t, width, Rest(input, p));
      && Sane(tables, t, width, Rest(input, p))
      && entry == tables[t][j]
      && p <= 8 * |input| && (fed <==> Fed(tables, t, width, Rest(input, p), 8 * |input| - p))
      && found == Found(rest.entry, skipped + rest.skipped)
    }

    static lemma FollowLink(tables: seq<seq<Huft>>, t: nat, width: nat, input: seq<Byte>, p: nat, entry: Huft,
                            found: Found, fed: bool, skipped: nat)
      requires AtEntry(tables, t, width, input, p, entry, found, fed, skipped) && p + width <= 8 * |input|
      requires entry.Entry? && entry.e > 16 && entry.e != 99
      ensures entry.b <= width && entry.e - 16 <= BMAX && entry.v.Table? && t < entry.v.t < |tables|
      ensures var j := FieldAt(input, p + entry.b, entry.e - 16);
              && j < |tables[entry.v.t]|
              && AtEntry(tables, entry.v.t, entry.e - 16, input, p + entry.b, tables[entry.v.t][j], found, fed,
                   skipped + entry.b)
      ensures skipped + entry.b <= found.skipped
      ensures p + entry.b + (entry.e - 16) > 8 * |input| ==> !fed
    {
      ShrShr(AsNumber(input), p, entry.b);
      assert Sane(tables, entry.v.t, entry.e - 16, Rest(input, p + entry.b));
    }

    // Look up the next symbol: its entry, or why there is none.
    method NextSymbol(tables: seq<seq<Huft>>, bits: nat, ghost lens: seq<nat>, ghost m: nat, ghost src: Source)
      returns (st: Status, entry: Huft, ghost y: nat)
      requires inp.Valid() && DecoderFor(lens, m, src, tables, bits)
      modifies inp
      ensures inp.Valid()
      ensures GetsSymbol(lens, m, src, inp.input, old(inp.Pos()), st, entry, y, inp.Pos())
    {
      ghost var p := inp.Pos();
      DecoderSane(lens, m, src, tables, bits);
      st, entry := Lookup(tables, bits);
      y := LookupIsSymbol(lens, m, src, tables, bits, inp.input, p, st, entry, inp.Pos());
    }

    // Lines 378-396: the rest of a match, whose length symbol is y.
    method ReadMatch(length: Huft, ghost y: nat, td: seq<seq<Huft>>, bd: nat, ghost dst: seq<nat>)
      returns (st: Status, n: nat, base: nat, x: nat)
      requires inp.Valid() && DistanceDecoder(f, dst, td, bd)
      requires 257 <= y <= 285 && length.Entry?
      requires length.e == f.lengthExtra[y - 257] && length.v == Number(f.lengthBase[y - 257])
      modifies inp
      ensures inp.Valid()
      ensures ReadsMatch(f, dst, inp.input, y, old(inp.Pos()), st, n, base + x, inp.Pos())
    {
      n, base, x := 0, 0, 0;
      var have, extra := inp.TakeBits(length.e);
      if have.Exhausted? { return Halted, n, base, x; }
      n := length.v.n + extra;
      st, base, x := ReadDistance(td, bd, dst);
    }

    // Lines 384-396
    method ReadDistance(td: seq<seq<Huft>>, bd: nat, ghost dst: seq<nat>) returns (st: Status, base: nat, x: nat)
      requires inp.Valid() && DistanceDecoder(f, dst, td, bd)
      modifies inp
      ensures inp.Valid()
      ensures ReadsDistance(f, dst, inp.input, old(inp.Pos()), st, base + x, inp.Pos())
    {
      hide Symbol, DecoderFor, GetsSymbol, DistanceSource, Pow2, FieldAt, Low, Rest;
      base, x := 0, 0;
      ghost var p := inp.Pos();
      var entry;
      ghost var z;
      st, entry, z := NextSymbol(td, bd, dst, f.DistanceLook(), DistanceSource(f, dst));
      NextIsDistance(f, dst, inp.input, p, st, entry, z, inp.Pos());
      if st != Ret(0) { return st, base, x; }
      ghost var p1 := inp.Pos();
      var have;
      have, x := inp.TakeBits(entry.e);
      if have.Exhausted? { return Halted, base, x; }
      FieldBound(inp.input, p1, entry.e);
      base := entry.v.n;
    }

    // Lines 374-419: the match of a length symbol, which was at bit p.
    method InflateMatch(entry: Huft, td: seq<seq<Huft>>, bd: nat, ghost lit: seq<nat>, ghost dst: seq<nat>,
                        ghost y: nat, ghost p: nat, ghost target: Parsed<seq<Byte>>)
      returns (st: Status)
      requires Valid() && DistanceDecoder(f, dst, td, bd) && Heading(f, lit, dst, inp.input, p, win.History(), target)
      requires Symbol(f.LiteralLook(lit), lit, inp.input, p) == Ok(y, inp.Pos()) && 257 <= y <= 285
      requires entry.Entry? && entry.e == f.lengthExtra[y - 257] && entry.v == Number(f.lengthBase[y - 257])
      modifies inp, win, win.slide, win.sum
      ensures st == Ret(0) ==>
        Valid() && inp.Pos() >= old(inp.Pos()) && Heading(f, lit, dst, inp.input, inp.Pos(), win.History(), target)
      ensures st != Ret(0) ==> target == Bad(st)
    {
      hide Codes, MatchAt, DistanceDecoder, ReadsMatch, CopyMatch, Symbol;
      ghost var p1, h := inp.Pos(), win.History();
      var n, base, x;
      st, n, base, x := ReadMatch(entry, y, td, bd, dst);
      AfterMatch(f, lit, dst, inp.input, p, h, y, p1, st, n, base + x, inp.Pos(), target);
      if st == Ret(0) {
        CopyMatchOut(n, base, x);
      }
    }

    // inflate_codes: decode the symbols of a block.
    method InflateCodes(tl: seq<seq<Huft>>, td: seq<seq<Huft>>, bl: nat, bd: nat,
                        ghost lit: seq<nat>, ghost dst: seq<nat>)
      returns (st: Status)
      requires Valid() && LiteralDecoder(f, lit, tl, bl) && DistanceDecoder(f, dst, td, bd)
      modifies inp, win, win.slide, win.sum
      ensures st == Ret(0) ==>
        Valid() && Codes(f, lit, dst, inp.input, old(inp.Pos()), old(win.History())) == Ok(win.History(), inp.Pos())
      ensures st != Ret(0) ==> Codes(f, lit, dst, inp.input, old(inp.Pos()), old(win.History())) == Bad(st)
    {
      ghost var target := Codes(f, lit, dst, inp.input, inp.Pos(), win.History());
      while true
        invariant Valid() && Heading(f, lit, dst, inp.input, inp.Pos(), win.History(), target)
        decreases 8 * |inp.input| - inp.Pos()
      {
        ghost var p, h := inp.Pos(), win.History();
        var entry;
        ghost var y;
        st, entry, y := NextSymbol(tl, bl, lit, f.LiteralLook(lit), LiteralSource(f, lit));
        AfterSymbol(f, lit, dst, inp.input, p, h, st, entry, y, inp.Pos(), target);
        if st != Ret(0) { return st; }
        if entry.e == 16 {
          win.PutByte(entry.v.n);
        } else if entry.e == 15 {
          break;
        } else {
          st := InflateMatch(entry, td, bd, lit, dst, y, p, target);
          if st != Ret(0) { return st; }
        }
      }
      st := Ret(0);
    }

    // inflate_stored
    method InflateStored() returns (st: Status)
      requires Valid()
      modifies inp, win, win.slide, win.sum
      ensures st == Ret(0) ==>
        Valid() && Stored(inp.input, old(inp.Pos()), old(win.History())) == Ok(win.History(), inp.Pos())
      ensures st != Ret(0) ==> Stored(inp.input, old(inp.Pos()), old(win.History())) == Bad(st)
    {
      ghost var at := (inp.Pos() + 7) / 8;
      ByteBoundary(inp.inptr, inp.bk);
      inp.DumpBits(inp.bk % 8);
      var n;
      st, n := StoredLength(at);
      if st == Ret(0) {
        st := StoredBytes(n, at + 4);
      }
    }

    // Lines 455-462: the length, which its complement must confirm.
    method StoredLength(ghost at: nat) returns (st: Status, n: nat)
      requires inp.Valid() && inp.Pos() == 8 * at
      modifies inp
      ensures inp.Valid()
      ensures StoredStart(inp.input, at, st, n, inp.Pos())
    {
      var have;
      have, n := PeekWord(at);
      if have.Exhausted? { return Halted, n; }
      inp.DumpBits(PAIR);
      var complement;
      have, complement := PeekWord(at + 2);
      if have.Exhausted? { return Halted, n; }
      if n != 0xFFFF - complement { return Ret(1), n; }
      inp.DumpBits(PAIR);
      st := Ret(0);
    }

    // NEEDBITS(16) and the 16 bits, at byte `at`.
    method PeekWord(ghost at: nat) returns (have: Input, x: nat)
      requires inp.Valid() && inp.Pos() == 8 * at
      modifies inp
      ensures inp.Valid() && inp.Pos() == 8 * at
      ensures have.Available? ==> at + 2 <= |inp.input| && inp.bk >= PAIR && x == Word(inp.input[at], inp.input[at + 1])
      ensures have.Exhausted? ==> at + 2 > |inp.input|
    {
      x := 0;
      have := inp.NeedBits(PAIR);
      if have.Available? {
        TwoBytes(inp.input, at);
        x := Low(inp.bb, PAIR);
      }
    }

    // Lines 465-476: the bytes from byte i on.
    method StoredBytes(n0: nat, ghost start: nat) returns (st: Status)
      requires Valid() && inp.Pos() == 8 * start
      modifies inp, win, win.slide, win.sum
      ensures st == Ret(0) || st == Halted
      ensures st == Ret(0) ==>
        && Valid() && start + n0 <= |inp.input| && inp.Pos() == 8 * (start + n0)
        && win.History() == old(win.History()) + inp.input[start..start + n0]
      ensures st.Halted? ==> start + n0 > |inp.input|
    {
      var n: nat := n0;
      ghost var i := start;
      while n != 0
        invariant Valid() && inp.Pos() == 8 * i && start <= i <= |inp.input| && n + i == start + n0
        invariant win.History() == old(win.History()) + inp.input[start..i]
        decreases n
      {
        n := n - 1;
        var have := StoredByte(i);
        if have.Exhausted? { return Halted; }
        assert inp.input[start..i + 1] == inp.input[start..i] + [inp.input[i]];
        i := i + 1;
      }
      st := Ret(0);
    }

    method StoredByte(ghost i: nat) returns (have: Input)
      requires Valid() && inp.Pos() == 8 * i
      modifies inp, win, win.slide, win.sum
      ensures have.Available? ==>
        Valid() && i < |inp.input| && inp.Pos() == 8 * (i + 1) && win.History() == old(win.History()) + [inp.input[i]]
      ensures have.Exhausted? ==> i >= |inp.input|
    {
      have := inp.NeedBits(OCTET);
      if have.Available? {
        OneByte(inp.input, i);
        win.PutByte(Low(inp.bb, OCTET));
        inp.DumpBits(OCTET);
      }
    }

    // inflate_fixed
    method InflateFixed() returns (st: Status)
      requires Valid()
      modifies inp, win, win.slide, win.sum
      ensures st == Ret(0) ==>
        Valid() && Codes(f, FixedLiterals(), FixedDistances(), inp.input, old(inp.Pos()), old(win.History()))
                   == Ok(win.History(), inp.Pos())
      ensures st != Ret(0) ==>
        Codes(f, FixedLiterals(), FixedDistances(), inp.input, old(inp.Pos()), old(win.History())) == Bad(st)
    {
      var ret, tl, bl, td, bd := FixedTables();
      if ret != 0 { return Ret(ret); }
      st := InflateCodes(tl, td, bl, bd, FixedLiterals(), FixedDistances());
    }

    // Lines 504-528: both tables; the distance code is incomplete, which is let pass.
    method FixedTables() returns (ret: nat, tl: seq<seq<Huft>>, bl: nat, td: seq<seq<Huft>>, bd: nat)
      requires f.Looking()
      ensures ret == 0 && LiteralDecoder(f, FixedLiterals(), tl, bl) && DistanceDecoder(f, FixedDistances(), td, bd)
    {
      var l := FixedLengths();
      ret, tl, bl := FixedLiteralTables(l[..]);
      td, bd := [], 0;
      if ret != 0 { return; }
      for i := 0 to 30
        invariant forall n :: 0 <= n < i ==> l[n] == 5
      {
        l[i] := 5;
      }
      ret, td, bd := FixedDistanceTables(l[..30]);
      if ret > 1 { return; }
      ret := 0;
    }

    method FixedLiteralTables(l: seq<nat>) returns (ret: nat, tl: seq<seq<Huft>>, bl: nat)
      requires f.Looking() && l == FixedLiterals()
      ensures ret == 0 && LiteralDecoder(f, FixedLiterals(), tl, bl)
    {
      FixedKraft();
      assert forall y :: 0 <= y < |l| ==> l[y] <= 14;
      ret, tl, bl := LiteralTables(l, 7);
    }

    method FixedDistanceTables(l: seq<nat>) returns (ret: nat, td: seq<seq<Huft>>, bd: nat)
      requires f.Looking() && |l| == 30 && forall n :: 0 <= n < 30 ==> l[n] == 5
      ensures ret <= 1 && DistanceDecoder(f, FixedDistances(), td, bd)
    {
      assert l == FixedDistances();
      FixedKraft();
      ret, td, bd := DistanceTables(l, 5);
      SameWidth(l, DistanceSource(f, l), td, bd, 5, f.DistanceLook(), 5);
    }

    // huft_build for literal/length codes, and for distance codes.
    method LiteralTables(lit: seq<nat>, m: nat) returns (ret: nat, tl: seq<seq<Huft>>, bl: nat)
      requires f.Looking() && 0 < |lit| <= N_MAX && Lengths(lit) && m == f.LiteralLook(lit)
      requires forall y :: 0 <= y < |lit| ==> lit[y] <= 2 * m
      ensures ret <= 2 && (ret == 0 <==> Usable(lit)) && (ret == 2 <==> Kraft(lit) > FULL)
      ensures ret == 0 ==> LiteralDecoder(f, lit, tl, bl)
    {
      ret, tl, bl := Build(lit, 257, f.lengthBase, f.lengthExtra, m);
      ghost var kmin, g :| Builds(lit, 257, f.lengthBase, f.lengthExtra, m, ret, tl, bl, kmin, g);
      UsableBuilt(lit, 257, f.lengthBase, f.lengthExtra, m, ret, tl, bl, kmin, g);
      DecoderBuilt(lit, 257, f.lengthBase, f.lengthExtra, m, ret, tl, bl, kmin, g);
    }

    method DistanceTables(dst: seq<nat>, m: nat) returns (ret: nat, td: seq<seq<Huft>>, bd: nat)
      requires f.Looking() && 0 < |dst| <= 30 && Lengths(dst) && m > 0
      requires (forall y :: 0 <= y < |dst| ==> dst[y] <= 2 * m) || |dst| < Pow2(m)
      ensures ret <= 2 && (ret == 0 <==> Usable(dst)) && (ret == 2 <==> Kraft(dst) > FULL)
      ensures ret == 0 || (ret == 1 && forall y :: 0 <= y < |dst| ==> dst[y] <= 2 * m) ==>
        DecoderFor(dst, m, DistanceSource(f, dst), td, bd)
    {
      ret, td, bd := Build(dst, 0, f.distBase, f.distExtra, m);
      ghost var kmin, g :| Builds(dst, 0, f.distBase, f.distExtra, m, ret, td, bd, kmin, g);
      UsableBuilt(dst, 0, f.distBase, f.distExtra, m, ret, td, bd, kmin, g);
      if ret == 0 || (ret == 1 && forall y :: 0 <= y < |dst| ==> dst[y] <= 2 * m) {
        DecoderBuilt(dst, 0, f.distBase, f.distExtra, m, ret, td, bd, kmin, g);
      }
    }

    // Lines 505-512: the literal/length code lengths.
    method FixedLengths() returns (l: array<nat>)
      ensures fresh(l) && l.Length == 288 && l[..] == FixedLiterals()
    {
      l := new nat[288];
      for i := 0 to 144
        invariant forall n :: 0 <= n < i ==> l[n] == 8
      {
        l[i] := 8;
      }
      for i := 144 to 256
        invariant forall n :: 0 <= n < i ==> l[n] == if n < 144 then 8 else 9
      {
        l[i] := 9;
      }
      for i := 256 to 280
        invariant forall n :: 0 <= n < i ==> l[n] == if n < 144 then 8 else if n < 256 then 9 else 7
      {
        l[i] := 7;
      }
      for i := 280 to 288
        invariant forall n :: 0 <= n < i ==> l[n] == if n < 144 || n >= 280 then 8 else if n < 256 then 9 else 7
      {
        l[i] := 8;
      }
    }

    // Lines 593-601: the lengths of the code-length code, zero where none is given.
    method CodeLengthLengths(ll: array<nat>, nb: nat) returns (have: Input)
      requires inp.Valid() && f.ValidOrder() && ll.Length >= 19 && nb <= 19
      modifies inp, ll
      ensures inp.Valid()
      ensures have.Available? ==>
        && inp.Pos() == old(inp.Pos()) + 3 * nb <= 8 * |inp.input|
        && ll[..][..19] == CodeLengthCode(f.order, inp.input, old(inp.Pos()), nb)
      ensures have.Exhausted? ==> old(inp.Pos()) + 3 * nb > 8 * |inp.input|
    {
      ghost var p := inp.Pos();
      have := GivenLengths(ll, nb);
      if have.Exhausted? { return; }
      var j := nb;
      while j < 19
        invariant nb <= j <= 19 && GivenAre(ll[..], inp.input, p, nb)
        invariant forall i :: nb <= i < j ==> ll[f.order[i]] == 0
        modifies ll
      {
        ll[f.order[j]] := 0;
        j := j + 1;
      }
      OrderedLengths(ll[..], inp.input, p, nb);
    }

    // The first n lengths of the code-length code are where the order puts them.
    ghost predicate GivenAre(ll: seq<nat>, input: seq<Byte>, p: nat, n: nat)
      requires |f.order| == 19 && n <= 19 <= |ll| && forall i :: 0 <= i < 19 ==> f.order[i] < 19
    {
      forall i :: 0 <= i < n ==> ll[f.order[i]] == FieldAt(input, p + 3 * i, CLEN)
    }

    method GivenLengths(ll: array<nat>, nb: nat) returns (have: Input)
      requires inp.Valid() && f.ValidOrder() && ll.Length >= 19 && nb <= 19
      modifies inp, ll
      ensures inp.Valid()
      ensures have.Available? ==>
        && inp.Pos() == old(inp.Pos()) + 3 * nb <= 8 * |inp.input|
        && GivenAre(ll[..], inp.input, old(inp.Pos()), nb)
      ensures have.Exhausted? ==> old(inp.Pos()) + 3 * nb > 8 * |inp.input|
    {
      ghost var p := inp.Pos();
      var j := 0;
      while j < nb
        invariant 0 <= j <= nb && inp.Valid() && inp.Pos() == p + 3 * j
        invariant GivenAre(ll[..], inp.input, p, j)
      {
        var x;
        have, x := inp.TakeBits(CLEN);
        if have.Exhausted? { return; }
        ll[f.order[j]] := x;
        j := j + 1;
      }
      have := Available;
    }

    lemma OrderedLengths(ll: seq<nat>, input: seq<Byte>, p: nat, nb: nat)
      requires f.ValidOrder() && |ll| >= 19 && nb <= 19 && GivenAre(ll, input, p, nb)
      requires forall i :: nb <= i < 19 ==> ll[f.order[i]] == 0
      ensures ll[..19] == CodeLengthCode(f.order, input, p, nb)
    {
      var ls := CodeLengthCode(f.order, input, p, nb);
      forall x | 0 <= x < 19
        ensures ll[x] == ls[x]
      {
        assert x in f.order;
        var i :| 0 <= i < 19 && f.order[i] == x;
        CodeLengthAt(f.order, input, p, nb, i);
      }
    }

    // Lines 622-625: one code of the code-length code, in its single table.
    method ReadCode(tl: seq<seq<Huft>>, bl: nat, ghost cl: seq<nat>) returns (st: Status, j: nat)
      requires inp.Valid() && |cl| == 19 && DecoderFor(cl, f.CodeLook(), SourceOf(cl, 19, [], []), tl, bl) && |tl| <= 1
      requires Usable(cl)
      modifies inp
      ensures inp.Valid()
      ensures match st
              case Ret(r) => r == 0 && Symbol(f.CodeLook(), cl, inp.input, old(inp.Pos())) == Ok(j, inp.Pos()) && j < 19
              case _ => Symbol(f.CodeLook(), cl, inp.input, old(inp.Pos())) == Bad(st)
    {
      j := 0;
      ghost var m, src, p := f.CodeLook(), SourceOf(cl, 19, [], []), inp.Pos();
      if tl == [] {
        NoTables(cl, m, src, bl);
        NoNeed(cl, m, Rest(inp.input, p));
        return Undefined, j;
      }
      OneLookUp(cl, m, src, tl, bl, inp.input, p);
      hide *;
      var have := inp.NeedBits(bl);
      if have.Exhausted? { return Halted, j; }
      var i := Low(inp.bb, bl);
      var td := tl[0][i];
      inp.DumpBits(td.b);
      if td.Junk? || !td.v.Number? { return Undefined, j; }
      j := td.v.n;
      st := Ret(0);
    }

    // Lines 616-660: the run-length coded lengths, n of them.
    method ReadLengths(tl: seq<seq<Huft>>, bl: nat, n: nat, ll: array<nat>, ghost cl: seq<nat>) returns (st: Status)
      requires inp.Valid() && |cl| == 19 && DecoderFor(cl, f.CodeLook(), SourceOf(cl, 19, [], []), tl, bl) && |tl| <= 1
      requires Usable(cl)
      requires n <= ll.Length
      modifies inp, ll
      ensures inp.Valid()
      ensures st == Ret(0) ==> AllLengths(f.CodeLook(), cl, n, inp.input, old(inp.Pos())) == Ok(ll[..n], inp.Pos())
      ensures st == Ret(0) ==> forall i :: 0 <= i < n ==> ll[i] <= 15
      ensures st != Ret(0) ==> AllLengths(f.CodeLook(), cl, n, inp.input, old(inp.Pos())) == Bad(st)
    {
      ghost var target := AllLengths(f.CodeLook(), cl, n, inp.input, inp.Pos());
      LengthsRead(f.CodeLook(), cl, n, inp.input, inp.Pos(), []);
      assert ll[..0] == [] && Listing(f.CodeLook(), cl, n, inp.input, inp.Pos(), ll[..0], target);
      hide AllLengths, LengthList, DecoderFor, Symbol, Listing, RunRead;
      var i, l := 0, 0;
      while i < n
        invariant 0 <= i <= n && inp.Valid() && l == LastOf(ll[..i])
        invariant Listing(f.CodeLook(), cl, n, inp.input, inp.Pos(), ll[..i], target)
        decreases n - i
      {
        ghost var p, ls := inp.Pos(), ll[..i];
        var j;
        st, j := ReadCode(tl, bl, cl);
        if st != Ret(0) { return st; }
        ghost var p1 := inp.Pos();
        var run, count;
        st, run, count := ReadRun(j, l, n - i);
        AfterRun(f.CodeLook(), cl, n, inp.input, p, ls, j, p1, st, run, count, inp.Pos(), target);
        if st != Ret(0) { return st; }
        i := WriteRun(ll, i, run, count);
        l := run;
      }
      st := Ret(0);
      ListingEnds(f.CodeLook(), cl, n, inp.input, inp.Pos(), ll[..n], target);
      ghost var all := ll[..n];
      assert forall x :: 0 <= x < n ==> ll[x] == all[x];
    }

    // Lines 626-658: the length a code-length symbol stands for and how many times;
    // a run must fit in the room left.
    method ReadRun(j: nat, l: nat, room: nat) returns (st: Status, run: nat, count: nat)
      requires inp.Valid() && j < 19 && room > 0
      modifies inp
      ensures inp.Valid()
      ensures RunRead(j, l, room, inp.input, old(inp.Pos()), st, run, count, inp.Pos())
    {
      st := Ret(0);
      if j < 16 {
        run, count := j, 1;
      } else {
        run := if j == 16 then l else 0;
        var have;
        have, count := inp.TakeBits(RepeatBits(j));
        if have.Exhausted? { return Halted, run, count; }
        count := RepeatLeast(j) + count;
        if count > room { return Ret(1), run, count; }
      }
    }

    // while (j--) ll[i++] = l
    method WriteRun(ll: array<nat>, i0: nat, run: nat, count: nat) returns (i: nat)
      requires i0 + count <= ll.Length
      modifies ll
      ensures i == i0 + count
      ensures ll[..i] == old(ll[..i0]) + Repeat(run, count)
    {
      var j := count;
      i := i0;
      while j != 0
        invariant i + j == i0 + count && i0 <= i
        invariant ll[..i0] == old(ll[..i0]) && forall n :: i0 <= n < i ==> ll[n] == run
        decreases j
      {
        ll[i] := run;
        i := i + 1;
        j := j - 1;
      }
    }

    // inflate_dynamic
    method InflateDynamic() returns (st: Status)
      requires Valid() && f.ValidOrder()
      modifies inp, win, win.slide, win.sum
      ensures st == Ret(0) ==>
        Valid() && Dynamic(f, inp.input, old(inp.Pos()), old(win.History())) == Ok(win.History(), inp.Pos())
      ensures st != Ret(0) ==> Dynamic(f, inp.input, old(inp.Pos()), old(win.History())) == Bad(st)
    {
      hide HeadAt, CodeSetsAt, Codes, LiteralDecoder, DistanceDecoder;
      var have, head := ReadHead();
      if have.Exhausted? { return Halted; }
      var tl, bl, td, bd;
      ghost var sets;
      st, tl, bl, td, bd, sets := ReadCodeSets(head);
      if st != Ret(0) { return st; }
      st := InflateCodes(tl, td, bl, bd, sets.lit, sets.dst);
    }

    // Lines 574-583
    method ReadHead() returns (have: Input, head: Head)
      requires inp.Valid()
      modifies inp
      ensures inp.Valid()
      ensures match have
              case Available => HeadAt(inp.input, old(inp.Pos())) == Ok(head, inp.Pos()) && head.nb <= 19
              case Exhausted => HeadAt(inp.input, old(inp.Pos())) == Bad(Halted)
    {
      var nl, nd, nb;
      head := Head(0, 0, 0);
      ghost var p := inp.Pos();
      have, nl := inp.TakeBits(HLIT);
      if have.Exhausted? { return; }
      ghost var p1 := inp.Pos();
      have, nd := inp.TakeBits(HDIST);
      if have.Exhausted? { return; }
      ghost var p2 := inp.Pos();
      have, nb := ReadCount();
      if have.Exhausted? { return; }
      head := Head(257 + nl, 1 + nd, 4 + nb);
      HeadIs(inp.input, p, p1, p2, inp.Pos(), nl, nd, nb);
    }

    // Lines 581-583
    method ReadCount() returns (have: Input, nb: nat)
      requires inp.Valid()
      modifies inp
      ensures inp.Valid()
      ensures match have
              case Available => Field(inp.input, old(inp.Pos()), HCLEN) == Ok(nb, inp.Pos()) && nb < 16
              case Exhausted => Field(inp.input, old(inp.Pos()), HCLEN) == Bad(Halted)
    {
      FewCodeLengths(inp.input, inp.Pos());
      have, nb := inp.TakeBits(HCLEN);
    }

    // Lines 587-702: the codes of a dynamic block. error() halts on an incomplete
    // literal or distance code.
    method ReadCodeSets(head: Head)
      returns (st: Status, tl: seq<seq<Huft>>, bl: nat, td: seq<seq<Huft>>, bd: nat, ghost sets: CodeSets)
      requires inp.Valid() && f.Looking() && f.ValidOrder()
      requires head.nl >= 257 && head.nd >= 1 && head.nb <= 19
      modifies inp
      ensures inp.Valid()
      ensures st == Ret(0) ==>
        && CodeSetsAt(f.CodeLook(), f.order, head, inp.input, old(inp.Pos())) == Ok(sets, inp.Pos())
        && LiteralDecoder(f, sets.lit, tl, bl) && DistanceDecoder(f, sets.dst, td, bd)
      ensures st != Ret(0) ==> CodeSetsAt(f.CodeLook(), f.order, head, inp.input, old(inp.Pos())) == Bad(st)
    {
      hide SetLengthsAt, CodeSetsAt, LiteralDecoder, DistanceDecoder, Usable;
      tl, bl, td, bd, sets := [], 0, [], 0, CodeSets([], []);
      ghost var p, n := inp.Pos(), head.nl + head.nd;
      var ll := new nat[286 + 30];
      st := ReadSetLengths(head, ll);
      if st != Ret(0) {
        NoCodeSets(f, head, inp.input, p, st);
        return st, tl, bl, td, bd, sets;
      }
      ghost var pos, ls := inp.Pos(), ll[..n];
      sets := CodeSets(ll[..n][..head.nl], ll[..n][head.nl..]);
      assert ll[..head.nl] == sets.lit && ll[head.nl..head.nl + head.nd] == sets.dst;
      st, tl, bl, td, bd := CodeTables(ll[..head.nl], ll[head.nl..head.nl + head.nd]);
      CodeSetsEnd(f, head, inp.input, p, pos, ls, sets, st);
    }

    // Lines 587-660
    method ReadSetLengths(head: Head, ll: array<nat>) returns (st: Status)
      requires inp.Valid() && f.ahead && f.ValidOrder() && ll.Length == 286 + 30
      requires head.nl >= 257 && head.nd >= 1 && head.nb <= 19
      modifies inp, ll
      ensures inp.Valid()
      ensures st == Ret(0) ==>
        && head.nl <= 286 && head.nd <= 30
        && SetLengthsAt(f.CodeLook(), f.order, head, inp.input, old(inp.Pos()))
           == Ok(ll[..head.nl + head.nd], inp.Pos())
        && forall i :: 0 <= i < head.nl + head.nd ==> ll[i] <= 15
      ensures st != Ret(0) ==> SetLengthsAt(f.CodeLook(), f.order, head, inp.input, old(inp.Pos())) == Bad(st)
    {
      if head.nl > 286 || head.nd > 30 {
        NoSetLengths(f, head, inp.input, inp.Pos(), Ret(1));
        return Ret(1);
      }
      st := ReadCodedLengths(head, ll, SetLengthsAt(f.CodeLook(), f.order, head, inp.input, inp.Pos()));
    }

    // Lines 593-660, spec being what the format says.
    method ReadCodedLengths(head: Head, ll: array<nat>, ghost spec: Parsed<seq<nat>>) returns (st: Status)
      requires inp.Valid() && f.ahead && f.ValidOrder() && ll.Length == 286 + 30
      requires 257 <= head.nl <= 286 && 1 <= head.nd <= 30 && head.nb <= 19
      requires spec == SetLengthsAt(f.CodeLook(), f.order, head, inp.input, inp.Pos())
      modifies inp, ll
      ensures inp.Valid()
      ensures st == Ret(0) ==>
        spec == Ok(ll[..head.nl + head.nd], inp.Pos()) && forall i :: 0 <= i < head.nl + head.nd ==> ll[i] <= 15
      ensures st != Ret(0) ==> spec == Bad(st)
    {
      hide *;
      var tc, bc;
      ghost var cl;
      st, tc, bc, cl := ReadLengthDecoder(head, ll, spec);
      if st != Ret(0) { return st; }
      st := ReadSetFrom(head.nl + head.nd, ll, tc, bc, cl, spec);
    }

    // Lines 593-612, spec being what the format says of all the lengths.
    method ReadLengthDecoder(head: Head, ll: array<nat>, ghost spec: Parsed<seq<nat>>)
      returns (st: Status, tc: seq<seq<Huft>>, bc: nat, ghost cl: seq<nat>)
      requires inp.Valid() && f.ahead && f.ValidOrder() && ll.Length == 286 + 30
      requires head.nl <= 286 && head.nd <= 30 && head.nb <= 19
      requires spec == SetLengthsAt(f.CodeLook(), f.order, head, inp.input, inp.Pos())
      modifies inp, ll
      ensures inp.Valid()
      ensures st == Ret(0) ==>
        && |cl| == 19 && Usable(cl) && DecoderFor(cl, f.CodeLook(), SourceOf(cl, 19, [], []), tc, bc) && |tc| <= 1
        && spec == AllLengths(f.CodeLook(), cl, head.nl + head.nd, inp.input, inp.Pos())
      ensures st != Ret(0) ==> spec == Bad(st)
    {
      ghost var p := inp.Pos();
      st, tc, bc, cl := ReadLengthCode(head.nb, ll);
      if st == Ret(0) {
        SetLengthsAre(f, head, inp.input, p, inp.Pos(), cl, spec);
      } else {
        NoSetLengths(f, head, inp.input, p, st);
      }
    }

    // The same, with what the format says.
    method ReadSetFrom(n: nat, ll: array<nat>, tc: seq<seq<Huft>>, bc: nat, ghost cl: seq<nat>,
                       ghost spec: Parsed<seq<nat>>)
      returns (st: Status)
      requires inp.Valid() && |cl| == 19 && DecoderFor(cl, f.CodeLook(), SourceOf(cl, 19, [], []), tc, bc) && |tc| <= 1
      requires Usable(cl)
      requires n <= ll.Length && spec == AllLengths(f.CodeLook(), cl, n, inp.input, inp.Pos())
      modifies inp, ll
      ensures inp.Valid()
      ensures st == Ret(0) ==> spec == Ok(ll[..n], inp.Pos()) && forall i :: 0 <= i < n ==> ll[i] <= 15
      ensures st != Ret(0) ==> spec == Bad(st)
    {
      st := ReadLengths(tc, bc, n, ll, cl);
    }

    // Lines 593-612
    method ReadLengthCode(nb: nat, ll: array<nat>)
      returns (st: Status, tc: seq<seq<Huft>>, bc: nat, ghost cl: seq<nat>)
      requires inp.Valid() && f.ahead && f.ValidOrder() && ll.Length >= 19 && nb <= 19
      modifies inp, ll
      ensures inp.Valid()
      ensures cl == CodeLengthCode(f.order, inp.input, old(inp.Pos()), nb)
      ensures st == Ret(0) ==>
        && inp.Pos() == old(inp.Pos()) + 3 * nb && Usable(cl)
        && DecoderFor(cl, f.CodeLook(), SourceOf(cl, 19, [], []), tc, bc) && |tc| <= 1
      ensures st != Ret(0) ==> NoLengthCode(cl, inp.input, old(inp.Pos()) + 3 * nb, st)
    {
      ghost var p := inp.Pos();
      cl := CodeLengthCode(f.order, inp.input, p, nb);
      tc, bc := [], 0;
      var have := CodeLengthLengths(ll, nb);
      if have.Exhausted? { return Halted, tc, bc, cl; }
      assert ll[..19] == ll[..][..19];
      CodeLengthsSmall(f.order, inp.input, p, nb);
      var ret;
      ret, tc, bc := CodeLengthTables(ll[..19]);
      st := Ret(ret);
    }

    // Lines 605-612
    method CodeLengthTables(cl: seq<nat>) returns (ret: nat, tc: seq<seq<Huft>>, bc: nat)
      requires f.ahead && |cl| == 19 && forall x :: 0 <= x < 19 ==> cl[x] <= 7
      ensures (ret == 0 <==> Usable(cl)) && (ret != 0 ==> ret == if Lengths(cl) && Kraft(cl) > FULL then 2 else 1)
      ensures ret == 0 ==> DecoderFor(cl, f.CodeLook(), SourceOf(cl, 19, [], []), tc, bc) && |tc| <= 1
    {
      ret, tc, bc := Build(cl, 19, [], [], 7);
      ghost var kmin, g :| Builds(cl, 19, [], [], 7, ret, tc, bc, kmin, g);
      UsableBuilt(cl, 19, [], [], 7, ret, tc, bc, kmin, g);
      DecoderBuilt(cl, 19, [], [], 7, ret, tc, bc, kmin, g);
      if Count(cl, 0) < 19 {
        LongestBound(cl, kmin, g, 7);
      }
    }

    // Lines 676-702
    method CodeTables(lit: seq<nat>, dst: seq<nat>)
      returns (st: Status, tl: seq<seq<Huft>>, bl: nat, td: seq<seq<Huft>>, bd: nat)
      requires f.Looking() && 0 < |lit| <= 286 && 0 < |dst| <= 30
      requires forall y :: 0 <= y < |lit| ==> lit[y] <= 15
      requires forall y :: 0 <= y < |dst| ==> dst[y] <= 15
      ensures CodesEnd(lit, dst, st)
      ensures st == Ret(0) ==> LiteralDecoder(f, lit, tl, bl) && DistanceDecoder(f, dst, td, bd)
    {
      var ret;
      td, bd := [], 0;
      ret, tl, bl := LiteralTables(lit, f.LiteralLook(lit));
      if ret == 1 { return Halted, tl, bl, td, bd; }
      if ret != 0 { return Ret(ret), tl, bl, td, bd; }
      assert Pow2(6) == 64;
      ret, td, bd := DistanceTables(dst, f.DistanceLook());
      if ret == 1 { return Halted, tl, bl, td, bd; }
      st := Ret(ret);
    }

    // inflate_block
    method InflateBlock() returns (st: Status, e: nat)
      requires Valid() && f.ValidOrder()
      modifies inp, win, win.slide, win.sum
      ensures st == Ret(0) ==>
        && Valid()
        && BlockAt(f, inp.input, old(inp.Pos()), old(win.History())) == Ok(BlockEnd(e, win.History()), inp.Pos())
      ensures st != Ret(0) ==> BlockAt(f, inp.input, old(inp.Pos()), old(win.History())) == Bad(st)
    {
      var have, t;
      have, e := inp.TakeBits(BFINAL);
      if have.Exhausted? { return Halted, e; }
      have, t := inp.TakeBits(BTYPE);
      if have.Exhausted? { return Halted, e; }
      st := InflateKind(t);
    }

    // Lines 753-764
    method InflateKind(t: nat) returns (st: Status)
      requires Valid() && f.ValidOrder()
      modifies inp, win, win.slide, win.sum
      ensures st == Ret(0) ==>
        Valid() && Block(f, t, inp.input, old(inp.Pos()), old(win.History())) == Ok(win.History(), inp.Pos())
      ensures st != Ret(0) ==> Block(f, t, inp.input, old(inp.Pos()), old(win.History())) == Bad(st)
    {
      if t == 2 {
        st := InflateDynamic();
      } else if t == 0 {
        st := InflateStored();
      } else if t == 1 {
        st := InflateFixed();
      } else {
        st := Ret(2);
      }
    }

    // Lines 783-791: block after block, up to the last.
    method InflateBlocks() returns (st: Status)
      requires Valid() && f.ValidOrder()
      modifies inp, win, win.slide, win.sum
      ensures st == Ret(0) ==>
        Valid() && Stream(f, inp.input, old(inp.Pos()), old(win.History())) == Ok(win.History(), inp.Pos())
      ensures st != Ret(0) ==> Stream(f, inp.input, old(inp.Pos()), old(win.History())) == Bad(st)
    {
      ghost var spec := Stream(f, inp.input, inp.Pos(), win.History());
      var e := 0;
      while e != 1
        invariant Valid() && Streaming(f, inp.input, inp.Pos(), win.History(), e, spec)
        decreases 8 * |inp.input| - inp.Pos(), if e == 1 then 0 else 1
      {
        ghost var p, h := inp.Pos(), win.History();
        st, e := InflateBlock();
        if st != Ret(0) {
          StreamStops(f, inp.input, p, h, st, spec);
          return;
        }
        NextBlock(f, inp.input, p, h, e, win.History(), inp.Pos(), spec);
      }
      st := Ret(0);
    }

    // Lines 793-802: give back what was read ahead, flush the rest.
    method Finish()
      requires Valid()
      modifies inp, win, win.sum
      ensures win.dict + win.output == old(win.History()) && win.sum.crc == CrcBytes(ONES, win.output)
      ensures inp.inptr == (old(inp.Pos()) + 7) / 8 && inp.bk < 8
    {
      inp.GiveBack();
      win.FlushOutput(win.wp);
      assert win.dict + win.output + win.slide[..0] == win.dict + win.output;
    }

    // inflate: decompress the stream that starts at the next byte. What the window
    // holds at first (dict) stands before the output.
    method Inflate() returns (st: Status)
      requires inp.inptr <= |inp.input| && win.Valid() && win.wp == 0 && win.output == []
      requires f.Looking() && f.ValidOrder()
      modifies inp, win, win.slide, win.sum
      ensures Comes(f, inp.input, 8 * old(inp.inptr), win.dict, st, win.output, inp.inptr)
      ensures st == Ret(0) ==> Xor(win.sum.crc, ONES) == Crc32(win.output)
    {
      Reset();
      st := InflateBlocks();
      if st == Ret(0) {
        Finish();
      }
    }

    // Lines 777-780
    method Reset()
      requires f.Looking() && inp.inptr <= |inp.input| && win.Valid() && win.wp == 0 && win.output == []
      modifies inp, win
      ensures Valid() && inp.Pos() == 8 * inp.inptr && inp.inptr == old(inp.inptr)
      ensures win.History() == win.dict
    {
      win.wp := 0;
      inp.bk := 0;
      inp.bb := 0;
      EmptyBuffer(inp.input, inp.inptr);
      assert win.dict + win.output + win.slide[..0] == win.dict;
    }

    // Lines 395-418: copy it.
    method CopyMatchOut(n: nat, base: nat, x: nat)
      requires win.Valid() && n > 0 && 1 <= base + x <= WSIZE
      modifies win, win.slide, win.sum
      ensures win.Valid() && base + x <= |old(win.History())|
      ensures win.History() == CopyMatch(old(win.History()), base + x, n)
    {
      var d := (win.wp - base - x) % WORD;
      win.CopyOut(n, d, base + x);
    }
  }

  // One symbol of a block, against the format: from bit p and the bytes h on, the
  // rest of the block is `target`; after the symbol it is the same from pos and
  // h', or the block ends there.
  lemma AfterSymbol(f: Alphabets, lit: seq<nat>, dst: seq<nat>, input: seq<Byte>, p: nat, h: seq<Byte>,
                    st: Status, entry: Huft, y: nat, pos: nat, target: Parsed<seq<Byte>>)
    requires f.Looking() && |lit| <= N_MAX && Heading(f, lit, dst, input, p, h, target)
    requires GetsSymbol(lit, f.LiteralLook(lit), LiteralSource(f, lit), input, p, st, entry, y, pos)
    ensures st != Ret(0) ==> target == Bad(st)
    ensures st == Ret(0) ==> entry.Entry? && entry.v.Number? && pos > p
    ensures st == Ret(0) && entry.e == 16 ==>
      entry.v.n < 256 && Heading(f, lit, dst, input, pos, h + [entry.v.n], target)
    ensures st == Ret(0) && entry.e == 15 ==> target == Ok(h, pos)
    ensures st == Ret(0) && entry.e != 16 && entry.e != 15 ==>
      257 <= y <= 285 && entry.e == f.lengthExtra[y - 257] && entry.v == Number(f.lengthBase[y - 257])
  {
    if st == Ret(0) {
      assert y >= 257 ==> f.lengthExtra[y - 257] <= 16;
    }
  }

  lemma AfterMatch(f: Alphabets, lit: seq<nat>, dst: seq<nat>, input: seq<Byte>, p: nat, h: seq<Byte>, y: nat, p1: nat,
                   st: Status, len: nat, dist: nat, pos: nat, target: Parsed<seq<Byte>>)
    requires f.Looking() && Heading(f, lit, dst, input, p, h, target) && |h| >= WSIZE
    requires Symbol(f.LiteralLook(lit), lit, input, p) == Ok(y, p1) && 257 <= y <= 285
    requires ReadsMatch(f, dst, input, y, p1, st, len, dist, pos)
    ensures st != Ret(0) ==> target == Bad(st)
    ensures st == Ret(0) ==>
      1 <= dist <= |h| && pos >= p1 && Heading(f, lit, dst, input, pos, CopyMatch(h, dist, len), target)
  {
  }

  // What reading the rest of a match comes to: p before it, pos after it.
  ghost predicate ReadsMatch(f: Alphabets, dst: seq<nat>, input: seq<Byte>, y: nat, p: nat, st: Status, len: nat,
                             dist: nat, pos: nat)
    requires f.Looking() && 257 <= y <= 285
  {
    var m := MatchAt(f, dst, input, y, p);
    if st == Ret(0) then m == Ok(Match(len, dist), pos) && len > 0 && 1 <= dist <= WSIZE else m == Bad(st)
  }

  ghost predicate ReadsDistance(f: Alphabets, dst: seq<nat>, input: seq<Byte>, p: nat, st: Status, dist: nat, pos: nat)
    requires f.Looking()
  {
    var d := DistanceAt(f, dst, input, p);
    if st == Ret(0) then d == Ok(dist, pos) && 1 <= dist <= WSIZE else d == Bad(st)
  }

  // The outcome for a distance symbol: none of them is marked invalid.
  lemma NextIsDistance(f: Alphabets, dst: seq<nat>, input: seq<Byte>, p: nat, st: Status, entry: Huft, z: nat, pos: nat)
    requires f.Looking() && |dst| <= 30
    requires GetsSymbol(dst, f.DistanceLook(), DistanceSource(f, dst), input, p, st, entry, z, pos)
    ensures st == Ret(0) ==>
      && Symbol(f.DistanceLook(), dst, input, p) == Ok(z, pos) && z < 30
      && entry.Entry? && entry.e == f.distExtra[z] && entry.v == Number(f.distBase[z])
    ensures st != Ret(0) ==> Symbol(f.DistanceLook(), dst, input, p) == Bad(st)
  {
  }

  lemma {:induction false} KraftAppend(a: seq<nat>, b: seq<nat>)
    requires Lengths(a) && Lengths(b)
    ensures Lengths(a + b) && Kraft(a + b) == Kraft(a) + Kraft(b)
  {
    if b == [] {
      assert a + b == a;
    } else {
      KraftAppend(a, b[..|b| - 1]);
      assert (a + b)[..|a + b| - 1] == a + b[..|b| - 1];
    }
  }

  lemma {:induction false} KraftSame(lens: seq<nat>, k: nat)
    requires 1 <= k <= BMAX && forall y :: 0 <= y < |lens| ==> lens[y] == k
    ensures Kraft(lens) == Shl(|lens|, BMAX - k)
  {
    ShlOne(BMAX - k);
    if lens != [] {
      KraftSame(lens[..|lens| - 1], k);
      ShlPlus(|lens| - 1, 1, BMAX - k);
    }
  }

  // The fixed literal code is complete; the fixed distance code is not.
  lemma FixedKraft()
    ensures Lengths(FixedLiterals()) && Kraft(FixedLiterals()) == FULL
    ensures Lengths(FixedDistances()) && Kraft(FixedDistances()) < FULL
  {
    var a, b, c, d := seq(144, _ => 8), seq(112, _ => 9), seq(24, _ => 7), seq(8, _ => 8);
    KraftSevens(a, 8);
    KraftSevens(b, 9);
    KraftSevens(c, 7);
    KraftSevens(d, 8);
    KraftAppend(a, b);
    KraftAppend(a + b, c);
    KraftAppend(a + b + c, d);
    KraftSevens(FixedDistances(), 5);
    KraftDistances(Kraft(FixedDistances()));
    assert Shl(18432, 1) == 36864 && Shl(1024, 1) == 2048 && Shl(3072, 2) == 2 * Shl(3072, 1) == 12288;
  }

  lemma KraftDistances(kraft: nat)
    requires kraft == Shl(3840, 4)
    ensures kraft < FULL
  {
    assert Shl(3840, 2) == 2 * Shl(3840, 1) == 15360;
    assert Shl(3840, 4) == 2 * Shl(3840, 3) == 4 * Shl(3840, 2);
  }

  // Some codes of one length, as 128ths of the whole at least.
  lemma KraftSevens(lens: seq<nat>, k: nat)
    requires 1 <= k <= 9 && forall y :: 0 <= y < |lens| ==> lens[y] == k
    ensures Lengths(lens)
    ensures Kraft(lens) == Shl(128 * |lens|, 9 - k)
  {
    KraftSame(lens, k);
    ShlSeven(|lens|);
    ShlShl(|lens|, 7, 9 - k);
  }

  lemma ShlSeven(x: nat)
    ensures Shl(x, 7) == 128 * x
  {
    assert Shl(x, 2) == 2 * Shl(x, 1) == 4 * x;
    assert Shl(x, 4) == 2 * Shl(x, 3) == 4 * Shl(x, 2);
    assert Shl(x, 6) == 2 * Shl(x, 5) == 4 * Shl(x, 4);
    assert Shl(x, 7) == 2 * Shl(x, 6);
  }

  // Of a code set that may be used no string leads to an entry marked invalid: a complete one
  // leaves no strings over, and the one string that a lone code leaves gets memory never
  // written.
  lemma NoneInvalid(lens: seq<nat>, m: nat, src: Source, tables: seq<seq<Huft>>, bits: nat, input: seq<Byte>, p: nat)
    requires DecoderFor(lens, m, src, tables, bits) && tables != [] && Usable(lens) && |lens| >= 2
    ensures Symbol(m, lens, input, p) != Bad(Ret(1))
  {
    var kmin, g :| DecodesSpan(lens, m, src, tables, bits, kmin, g);
    var s := Rest(input, p);
    UnwrittenSpans(lens, kmin, g, s);
    KraftAtMax(lens, g);
    UsedTotal(lens);
    UsedUpTo(lens, g);
    RevBound(g, s);
    if Kraft(lens) < FULL {
      LongestBound(lens, kmin, g, 1);
      assert Pow2(1) == 2;
    }
  }

  // The entry looked up in the table of the code-length code.
  lemma OneLookUp(cl: seq<nat>, m: nat, src: Source, tables: seq<seq<Huft>>, bits: nat, input: seq<Byte>, p: nat)
    requires DecoderFor(cl, m, src, tables, bits) && |tables| == 1 && Usable(cl) && |cl| == 19 == src.s
    requires p <= 8 * |input|
    ensures bits <= BMAX && FieldAt(input, p, bits) < |tables[0]|
    ensures var entry, symbol := tables[0][FieldAt(input, p, bits)], Symbol(m, cl, input, p);
            && !entry.Blank? && entry.b <= bits
            && if p + bits > 8 * |input| then symbol == Bad(Halted)
               else if entry.Entry? && entry.v.Number? then symbol == Ok(entry.v.n, p + entry.b) && entry.v.n < 19
               else symbol == Bad(Undefined)
  {
    var y := FoundIsSymbol(cl, m, src, tables, bits, input, p);
    NoneInvalid(cl, m, src, tables, bits, input, p);
    OneTable(tables, bits, Rest(input, p));
    hide Symbol, Walk, Fed, AlwaysSane, DecoderFor;
  }

  // With a single table, the first look-up is the whole walk.
  lemma OneTable(tables: seq<seq<Huft>>, bits: nat, s: nat)
    requires |tables| == 1 && AlwaysSane(tables, bits)
    ensures Low(s, bits) < |tables[0]| && bits <= BMAX
    ensures var entry := tables[0][Low(s, bits)];
            Walk(tables, 0, bits, s) == Found(entry, 0) && !entry.Blank? && entry.b <= bits
    ensures forall left: nat :: Fed(tables, 0, bits, s, left) <==> bits <= left
  {
    assert Sane(tables, 0, bits, s);
    var entry := tables[0][Low(s, bits)];
    if entry.Entry? && entry.e > 16 && entry.e != 99 {
      LinkTarget(tables, bits, s);
    }
  }

  lemma LinkTarget(tables: seq<seq<Huft>>, bits: nat, s: nat)
    requires Sane(tables, 0, bits, s)
    requires var entry := tables[0][Low(s, bits)]; entry.Entry? && entry.e > 16 && entry.e != 99
    ensures tables[0][Low(s, bits)].v.t < |tables|
  {
    var entry := tables[0][Low(s, bits)];
    assert Sane(tables, entry.v.t, entry.e - 16, Shr(s, entry.b));
  }

  // The lengths left to read, from bit p after the lengths ls.
  ghost predicate Listing(look: nat, cl: seq<nat>, n: nat, input: seq<Byte>, p: nat, ls: seq<nat>,
                          target: Parsed<seq<nat>>) {
    |ls| <= n && LengthList(look, cl, n, input, p, ls) == target
  }

  lemma ListingEnds(look: nat, cl: seq<nat>, n: nat, input: seq<Byte>, p: nat, ls: seq<nat>, target: Parsed<seq<nat>>)
    requires Listing(look, cl, n, input, p, ls, target) && |ls| == n
    ensures target == Ok(ls, p)
  {
  }

  ghost predicate RunRead(y: nat, l: nat, room: nat, input: seq<Byte>, p: nat, st: Status, run: nat, count: nat,
                          pos: nat) {
    var n := Field(input, p, RepeatBits(y));
    match st
    case Ret(r) =>
      if r == 0 then
        && 1 <= count <= room && pos >= p
        && (y < 16 ==> run == y && count == 1 && pos == p)
        && (y >= 16 ==>
              n == Ok(count - RepeatLeast(y), pos) && count >= RepeatLeast(y) && run == if y == 16 then l else 0)
      else r == 1 && y >= 16 && n.Ok? && RepeatLeast(y) + n.value > room
    case Halted => y >= 16 && n == Bad(Halted)
    case Undefined => false
  }

  lemma AfterRun(look: nat, cl: seq<nat>, n: nat, input: seq<Byte>, p: nat, ls: seq<nat>, y: nat, p1: nat,
                 st: Status, run: nat, count: nat, pos: nat, target: Parsed<seq<nat>>)
    requires Listing(look, cl, n, input, p, ls, target) && |ls| < n
    requires Symbol(look, cl, input, p) == Ok(y, p1)
    requires RunRead(y, LastOf(ls), n - |ls|, input, p1, st, run, count, pos)
    ensures st != Ret(0) ==> target == Bad(st)
    ensures st == Ret(0) ==> Listing(look, cl, n, input, pos, ls + Repeat(run, count), target)
    ensures st == Ret(0) ==> LastOf(ls + Repeat(run, count)) == run
  {
    assert Repeat(run, 1) == [run];
  }

  lemma NoSetLengths(f: Alphabets, head: Head, input: seq<Byte>, p: nat, st: Status)
    requires f.ValidOrder() && head.nb <= 19
    requires
      if head.nl > 286 || head.nd > 30 then st == Ret(1)
      else NoLengthCode(CodeLengthCode(f.order, input, p, head.nb), input, p + 3 * head.nb, st)
    ensures SetLengthsAt(f.CodeLook(), f.order, head, input, p) == Bad(st)
  {
  }

  // How the code-length code comes to nothing.
  ghost predicate NoLengthCode(cl: seq<nat>, input: seq<Byte>, pos: nat, st: Status) {
    if pos > 8 * |input| then st == Halted
    else !Usable(cl) && st == Ret(if Lengths(cl) && Kraft(cl) > FULL then 2 else 1)
  }

  lemma SetLengthsAre(f: Alphabets, head: Head, input: seq<Byte>, p: nat, pos: nat, cl: seq<nat>,
                      spec: Parsed<seq<nat>>)
    requires f.ValidOrder() && head.nl <= 286 && head.nd <= 30 && head.nb <= 19
    requires pos == p + 3 * head.nb <= 8 * |input|
    requires cl == CodeLengthCode(f.order, input, p, head.nb) && Usable(cl)
    requires spec == SetLengthsAt(f.CodeLook(), f.order, head, input, p)
    ensures spec == AllLengths(f.CodeLook(), cl, head.nl + head.nd, input, pos)
  {
  }

  // How building the tables of a block's own codes ends.
  ghost predicate CodesEnd(lit: seq<nat>, dst: seq<nat>, st: Status) {
    st == if !Usable(lit) then Unusable(lit) else if !Usable(dst) then Unusable(dst) else Ret(0)
  }

  lemma NoCodeSets(f: Alphabets, head: Head, input: seq<Byte>, p: nat, st: Status)
    requires f.ValidOrder() && SetLengthsAt(f.CodeLook(), f.order, head, input, p) == Bad(st)
    ensures CodeSetsAt(f.CodeLook(), f.order, head, input, p) == Bad(st)
  {
  }

  lemma CodeSetsEnd(f: Alphabets, head: Head, input: seq<Byte>, p: nat, pos: nat, ls: seq<nat>, sets: CodeSets,
                    st: Status)
    requires f.ValidOrder() && |ls| == head.nl + head.nd
    requires SetLengthsAt(f.CodeLook(), f.order, head, input, p) == Ok(ls, pos)
    requires sets == CodeSets(ls[..head.nl], ls[head.nl..]) && CodesEnd(sets.lit, sets.dst, st)
    ensures CodeSetsAt(f.CodeLook(), f.order, head, input, p) == if st == Ret(0) then Ok(sets, pos) else Bad(st)
  {
  }

  lemma HeadIs(input: seq<Byte>, p: nat, p1: nat, p2: nat, p3: nat, nl: nat, nd: nat, nb: nat)
    requires Field(input, p, HLIT) == Ok(nl, p1) && Field(input, p1, HDIST) == Ok(nd, p2)
    requires Field(input, p2, HCLEN) == Ok(nb, p3)
    ensures HeadAt(input, p) == Ok(Head(257 + nl, 1 + nd, 4 + nb), p3)
  {
  }

  lemma FewCodeLengths(input: seq<Byte>, p: nat)
    ensures FieldAt(input, p, HCLEN) < 16
  {
    FieldBound(input, p, HCLEN);
    assert Pow2(4) == 16;
  }

  // The stream from bit p after the bytes h comes to spec; after the last block,
  // that is h.
  ghost predicate Streaming(f: Alphabets, input: seq<Byte>, p: nat, h: seq<Byte>, e: nat, spec: Parsed<seq<Byte>>)
    requires f.Looking() && f.ValidOrder()
  {
    if e == 1 then spec == Ok(h, p) else Stream(f, input, p, h) == spec
  }

  lemma NextBlock(f: Alphabets, input: seq<Byte>, p: nat, h: seq<Byte>, e: nat, h': seq<Byte>, pos: nat,
                  spec: Parsed<seq<Byte>>)
    requires f.Looking() && f.ValidOrder() && Streaming(f, input, p, h, 0, spec)
    requires BlockAt(f, input, p, h) == Ok(BlockEnd(e, h'), pos)
    ensures pos > p && Streaming(f, input, pos, h', e, spec)
  {
  }

  lemma StreamStops(f: Alphabets, input: seq<Byte>, p: nat, h: seq<Byte>, st: Status, spec: Parsed<seq<Byte>>)
    requires f.Looking() && f.ValidOrder() && Streaming(f, input, p, h, 0, spec)
    requires BlockAt(f, input, p, h) == Bad(st)
    ensures spec == Bad(st)
  {
  }

  // What inflate makes of the input from bit p on, a window with the bytes d before the
  // output. It succeeds if and only if there is a stream there all of whose codes can be
  // looked up; then the output is what the stream stands for, and the next read is at
  // the first whole byte after it. Else it ends in the way that the first thing wrong
  // there calls for.
  ghost predicate Comes(f: Alphabets, input: seq<Byte>, p: nat, d: seq<Byte>, st: Status, out: seq<Byte>, inptr: nat)
    requires f.Looking() && f.ValidOrder()
  {
    var spec := Whole(f, input, p, d);
    if st == Ret(0) then spec.Ok? && spec.value == d + out && inptr == (spec.pos + 7) / 8 else spec == Bad(st)
  }

  // The whole stream, after the bytes d.
  ghost function Whole(f: Alphabets, input: seq<Byte>, p: nat, d: seq<Byte>): Parsed<seq<Byte>>
    requires f.Valid() && f.ValidOrder()
  {
    Stream(f, input, p, d)
  }

  // What that is to the format. Where inflate succeeds, the format has the same stream there.
  // A stream of the format, read with nothing before it, succeeds with its own output if 15
  // more bits stand behind it, or if none of its blocks brings its own codes.
  lemma ComesOut(f: Alphabets, f': Alphabets, input: seq<Byte>, p: nat, d: seq<Byte>, st: Status, out: seq<Byte>,
                 inptr: nat)
    requires f.Looking() && f.ValidOrder() && f' == f.(ahead := false) && f'.Valid() && f'.ValidOrder()
    requires Comes(f, input, p, d, st, out, inptr)
    ensures var whole := Stream(f', input, p, d);
            st == Ret(0) ==> whole.Ok? && whole.value == d + out && inptr == (whole.pos + 7) / 8
    ensures var whole := Stream(f', input, p, []);
            whole.Ok? && (whole.pos + 15 <= 8 * |input| || OwnNone(f', input, p, []))
            ==> st == Ret(0) && out == whole.value && inptr == (whole.pos + 7) / 8
  {
    StreamAgrees(f, f', input, p, d);
    StreamAfter(f', input, p, d, []);
    assert d + [] == d;
    if OwnNone(f', input, p, []) {
      StreamSame(f, f', input, p, []);
      StreamAfter(f, input, p, d, []);
    }
    SameTail(d, out, Stream(f', input, p, []));
  }

  lemma SameTail(d: seq<Byte>, out: seq<Byte>, whole: Parsed<seq<Byte>>)
    ensures whole.Ok? && d + out == d + whole.value ==> out == whole.value
  {
    if whole.Ok? && d + out == d + whole.value {
      assert out == (d + out)[|d|..] && whole.value == (d + whole.value)[|d|..];
    }
  }

  lemma EmptyBuffer(input: seq<Byte>, inptr: nat)
    requires inptr <= |input|
    ensures Holds(input, inptr, 0, 0)
  {
    assert Low(Rest(input, 8 * inptr), 0) == 0;
  }

  lemma ByteBoundary(inptr: nat, k: nat)
    requires k <= 8 * inptr
    ensures 8 * inptr - k + k % 8 == 8 * ((8 * inptr - k + 7) / 8)
  {
  }

  // What the start of a stored block at byte `at` comes to.
  ghost predicate StoredStart(input: seq<Byte>, at: nat, st: Status, n: nat, pos: nat) {
    var confirmed := at + 4 <= |input| && Word(input[at], input[at + 1]) + Word(input[at + 2], input[at + 3]) == 0xFFFF;
    match st
    case Ret(r) =>
      if r == 0 then confirmed && n == Word(input[at], input[at + 1]) && pos == 8 * (at + 4)
      else r == 1 && at + 4 <= |input| && !confirmed
    case Halted => at + 4 > |input|
    case Undefined => false
  }

  lemma OneByte(input: seq<Byte>, i: nat)
    requires i < |input|
    ensures FieldAt(input, 8 * i, OCTET) == input[i]
  {
    ByteOfNumber(input, i);
  }

  lemma TwoBytes(input: seq<Byte>, i: nat)
    requires i + 2 <= |input|
    ensures FieldAt(input, 8 * i, PAIR) == Word(input[i], input[i + 1])
  {
    OneByte(input, i);
    OneByte(input, i + 1);
    FieldPlus(input, 8 * i, OCTET, OCTET);
    ShlByte(input[i + 1]);
  }

  lemma FieldPlus(input: seq<Byte>, p: nat, a: nat, b: nat)
    ensures FieldAt(input, p, a + b) == FieldAt(input, p, a) + Shl(FieldAt(input, p + a, b), a)
  {
    LowAdd(Rest(input, p), a, b);
    ShrShr(AsNumber(input), p, a);
  }

  lemma FieldBound(input: seq<Byte>, p: nat, n: nat)
    ensures FieldAt(input, p, n) < Pow2(n)
  {
    Split(Rest(input, p), n);
  }

  // The outcome of a look-up at bit p, against the walk: pos is where it leaves
  // the input.
  ghost predicate LooksUp(tables: seq<seq<Huft>>, bits: nat, input: seq<Byte>, p: nat, st: Status, entry: Huft,
                          pos: nat) {
    var found := Walk(tables, 0, bits, Rest(input, p));
    && p <= 8 * |input|
    && (tables != [] ==> (st.Halted? <==> !Fed(tables, 0, bits, Rest(input, p), 8 * |input| - p)))
    && match st
    case Ret(r) =>
      if r == 0 then
        && tables != [] && entry.Entry? && entry.e <= 16 && found.entry == entry
        && pos == p + found.skipped + entry.b <= 8 * |input|
      else r == 1 && tables != [] && found.entry.Entry? && found.entry.e == 99
    case Halted => tables != []
    case Undefined => tables == [] || found.entry.Junk?
  }

  // The same, against the code: an invalid code is one that names no symbol or
  // one that may not occur.
  ghost predicate GetsSymbol(lens: seq<nat>, m: nat, src: Source, input: seq<Byte>, p: nat, st: Status, entry: Huft,
                             y: nat, pos: nat)
    requires |lens| - src.s <= |src.e| == |src.d|
  {
    var symbol := Symbol(m, lens, input, p);
    match st
    case Ret(r) =>
      if r == 0 then
        && symbol == Ok(y, pos) && y < |lens|
        && entry.Entry? && entry.e <= 16 && entry == src.SymbolEntry(y, entry.b)
      else
        && r == 1
        && (symbol == Bad(st)
            || (symbol.Ok? && |lens| > symbol.value >= src.s && src.e[symbol.value - src.s] == 99))
    case _ => symbol == Bad(st)
  }

  lemma LookupIsSymbol(lens: seq<nat>, m: nat, src: Source, tables: seq<seq<Huft>>, bits: nat, input: seq<Byte>, p: nat,
                       st: Status, entry: Huft, pos: nat) returns (y: nat)
    requires DecoderFor(lens, m, src, tables, bits)
    requires LooksUp(tables, bits, input, p, st, entry, pos)
    ensures GetsSymbol(lens, m, src, input, p, st, entry, y, pos)
  {
    if tables == [] {
      y := 0;
      NoTables(lens, m, src, bits);
      NoNeed(lens, m, Rest(input, p));
    } else {
      y := FoundIsSymbol(lens, m, src, tables, bits, input, p);
      LookupGets(lens, m, src, tables, bits, input, p, st, entry, y, pos);
    }
  }

  lemma LookupGets(lens: seq<nat>, m: nat, src: Source, tables: seq<seq<Huft>>, bits: nat, input: seq<Byte>, p: nat,
                   st: Status, entry: Huft, y: nat, pos: nat)
    requires |lens| - src.s <= |src.e| == |src.d| && tables != []
    requires LooksUp(tables, bits, input, p, st, entry, pos) && WalksTo(lens, m, src, tables, bits, input, p, y)
    ensures GetsSymbol(lens, m, src, input, p, st, entry, y, pos)
  {
  }

  lemma NoNeed(lens: seq<nat>, m: nat, s: nat)
    requires Lengths(lens) && Count(lens, 0) == |lens|
    ensures NeedOf(lens, m, s) == 0
  {
    if exists kmin, g :: ShapedBy(lens, kmin, g) {
      var kmin, g :| ShapedBy(lens, kmin, g);
      SomeCode(lens, kmin, g);
    }
  }

  // Wanted widths no less than the longest length come to the same.
  lemma SameWidth(lens: seq<nat>, src: Source, tables: seq<seq<Huft>>, bits: nat, m: nat, m': nat, bound: nat)
    requires DecoderFor(lens, m, src, tables, bits) && bound <= m && bound <= m'
    requires forall y :: 0 <= y < |lens| ==> lens[y] <= bound
    ensures m' > 0 ==> DecoderFor(lens, m', src, tables, bits)
  {
    if tables != [] {
      var kmin, g :| DecodesSpan(lens, m, src, tables, bits, kmin, g);
      LongestBound(lens, kmin, g, bound);
      if m' > 0 { assert DecodesSpan(lens, m', src, tables, bits, kmin, g); }
    }
  }

  lemma DecoderSane(lens: seq<nat>, m: nat, src: Source, tables: seq<seq<Huft>>, bits: nat)
    requires DecoderFor(lens, m, src, tables, bits)
    ensures tables != [] ==> AlwaysSane(tables, bits)
  {
  }

  // Without tables there are no codes.
  lemma NoTables(lens: seq<nat>, m: nat, src: Source, bits: nat)
    requires DecoderFor(lens, m, src, [], bits)
    ensures forall y: nat, s: nat :: !StartsWith(lens, y, s)
  {
    forall y: nat, s: nat ensures !StartsWith(lens, y, s) {
      if StartsWith(lens, y, s) {
        SymbolFound(lens, y);
        SortedAt(lens, lens[y], Count(lens[..y], lens[y]));
        UsedTotal(lens);
      }
    }
  }
}
