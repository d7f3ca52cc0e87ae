// huft_build of inflate.c: from code lengths to multi-level decoding tables.
module HuftBuild {
  import opened Bits
  import opened Canonical
  import opened CodeLengths
  import opened HuftDecode
  import opened HuftTables

  // Lines 222-237: the index width of a table for the a + 1 codes of length k
  // left and the longer ones, w bits being read before it.
  method TableBits(sh: Shape, k: nat, ghost r: nat, w: nat, a: nat) returns (j: nat)
    requires sh.Valid() && sh.IsCode(k, r) && w < k && a + 1 == sh.c[k] - r
    requires Low(sh.Pos(k, r), sh.g - w) == 0
    ensures 1 <= j <= BMAX && Wide(sh, w, j, sh.Pos(k, r))
    ensures j > sh.l <==> w + sh.l <= k && (w + sh.l < k || sh.Pos(k, r) + Pow2(sh.g - w) > sh.End(k))
    ensures k <= w + j <= sh.g && (j == k - w || sh.End(w + j - 1) < sh.Pos(k, r) + Pow2(sh.g - w))
  {
    var z := if sh.g - w > sh.l then sh.l else sh.g - w;
    j := k - w;
    var f := Pow2(j);
    ghost var end := sh.Pos(k, r) + Pow2(sh.g - w);
    TableBitsStart(sh, k, r, w, a);
    if f > a + 1 {
      j := MoreBits(sh, k, w, z, f - (a + 1), end);
    }
  }

  // Lines 227-234: f patterns of k bits are not taken by the codes of length k;
  // widen the table until longer codes take the rest or it has z bits.
  method MoreBits(sh: Shape, k: nat, w: nat, z: nat, patterns: nat, ghost end: nat) returns (j: nat)
    requires sh.Valid() && 1 <= k < sh.g && w < k && w + z <= sh.g
    requires patterns > 0 && Shl(patterns, sh.g - k) + sh.End(k) == end <= sh.End(sh.g)
    ensures j > k - w && (j == k - w + 1 || j <= z)
    ensures j >= z || sh.End(w + j) >= end
    ensures w + j <= sh.g && sh.End(w + j - 1) < end
  {
    var f := patterns;
    var xp := k;
    j := k - w + 1;
    ShlMono(0, f, sh.g - k);
    ShlOne(sh.g - k);
    while j < z
      invariant k <= xp < sh.g && xp == w + j - 1
      invariant f > 0 && Shl(f, sh.g - xp) + sh.End(xp) == end && sh.End(xp) < end
      invariant j > k - w && (j == k - w + 1 || j <= z)
      decreases z - j
    {
      f := 2 * f;
      xp := xp + 1;
      TableBitsStep(sh, xp, f, end);
      if f <= sh.c[xp] { break; }
      f := f - sh.c[xp];
      j := j + 1;
    }
  }

  // The patterns of k bits in the block that starts at (k, r), against the codes
  // of that length left.
  lemma TableBitsStart(sh: Shape, k: nat, r: nat, w: nat, a: nat)
    requires sh.Valid() && sh.IsCode(k, r) && w < k && a + 1 == sh.c[k] - r
    requires Low(sh.Pos(k, r), sh.g - w) == 0
    ensures var f, end := Pow2(k - w), sh.Pos(k, r) + Pow2(sh.g - w);
            && end <= sh.End(sh.g)
            && (f <= a + 1 ==> sh.End(k) >= end)
            && (f > a + 1 ==> Shl(f - (a + 1), sh.g - k) + sh.End(k) == end && sh.End(k) < end && k < sh.g)
  {
    hide Low, Rev, First;
    sh.PosPlus(k, r, a + 1);
    sh.BlockFits(k, r, w);
    ShlPow2(k - w, sh.g - k);
    Compare(Pow2(k - w), a + 1, sh.g - k);
  }

  lemma Compare(f: nat, a: nat, n: nat)
    ensures f <= a ==> Shl(f, n) <= Shl(a, n)
    ensures f > a ==> Shl(a, n) < Shl(f, n) && Shl(f - a, n) + Shl(a, n) == Shl(f, n)
  {
    ShlMono(f, a, n);
    ShlMono(a, f, n);
    if f > a {
      ShlPlus(f - a, a, n);
    }
  }

  // Going one bit further: f patterns of xp bits are left before codes of that
  // length are taken from them.
  lemma TableBitsStep(sh: Shape, xp: nat, f: nat, end: nat)
    requires sh.Valid() && 2 <= xp <= sh.g && f >= 2 && f % 2 == 0
    requires Shl(f / 2, sh.g - (xp - 1)) + sh.End(xp - 1) == end
    ensures f <= sh.c[xp] ==> sh.End(xp) >= end
    ensures f > sh.c[xp] ==> Shl(f - sh.c[xp], sh.g - xp) + sh.End(xp) == end
    ensures f > sh.c[xp] ==> sh.End(xp) < end
  {
    sh.EndIsNextStart(xp - 1);
    sh.PosPlus(xp, 0, sh.c[xp]);
    ShlInner(f / 2, sh.g - xp);
    assert Shl(f / 2, sh.g - xp + 1) == 2 * Shl(f / 2, sh.g - xp);
    ShlMono(f, sh.c[xp], sh.g - xp);
    if f > sh.c[xp] {
      ShlPlus(f - sh.c[xp], sh.c[xp], sh.g - xp);
      ShlMono(0, f - sh.c[xp], sh.g - xp);
      ShlOne(sh.g - xp);
    }
  }

  // Lines 278-281: write the entry at every index that ends in the code's bits.
  method FillEntries(table: seq<Huft>, ghost width: nat, start: nat, len: nat, entry: Huft) returns (after: seq<Huft>)
    requires |table| == Pow2(width) && len <= width && start < Pow2(len)
    ensures FilledIn(table, after, start, len, entry)
  {
    after := table;
    var f := Shl(1, len);
    var j := start;
    ghost var m := 0;
    ShlOne(len);
    while j < |table|
      invariant |after| == |table| && j == start + Shl(m, len)
      invariant forall n :: 0 <= n < |table| ==>
        after[n] == if Low(n, len) == start && Shr(n, len) < m then entry else table[n]
      decreases |table| - j
    {
      Join(start, m, len);
      forall n | 0 <= n < |table| && Low(n, len) == start && Shr(n, len) == m
        ensures n == j
      {
        Split(n, len);
      }
      after := after[j := entry];
      ShlPlus(m, 1, len);
      j := j + f;
      m := m + 1;
    }
    forall n | 0 <= n < |table| && Low(n, len) == start
      ensures Shr(n, len) < m
    {
      Split(n, len);
      ShlMono(m, Shr(n, len), len);
    }
  }

  // Lines 283-286: add one to the k-bit code held in reverse.
  method IncrementCode(code: nat, k: nat) returns (i: nat)
    requires k > 0 && code < Pow2(k)
    ensures i == Inc(code, k)
  {
    i := code;
    var j := Shl(1, k - 1);
    ghost var m: nat := k;
    ShlOne(k - 1);
    while And(i, j) != 0
      invariant m == 0 ==> j == 0
      invariant m > 0 ==> j == Pow2(m - 1)
      invariant m <= k && i < Pow2(m) && Inc(i, m) == Inc(code, k)
      decreases m
    {
      BitOps(i, m - 1);
      TopBit(m, i);
      i := Xor(i, j);
      j := j / 2;
      m := m - 1;
    }
    if m > 0 {
      BitOps(i, m - 1);
      TopBit(m, i);
    }
    i := Xor(i, j);
  }

  // The table is for a code that is zero from bit w on.
  method TableWidth(sh: Shape, k: nat, ghost r: nat, w: nat, a: nat, ghost i: nat) returns (j: nat)
    requires sh.Valid() && sh.IsCode(k, r) && w < k && a + 1 == sh.c[k] - r && i == sh.Code(k, r) < Pow2(w)
    ensures Low(sh.Pos(k, r), sh.g - w) == 0
    ensures 1 <= j <= BMAX && Wide(sh, w, j, sh.Pos(k, r))
    ensures j > sh.l <==> w + sh.l <= k && (w + sh.l < k || sh.Pos(k, r) + Pow2(sh.g - w) > sh.End(k))
    ensures SnugAt(sh, w, j, sh.Pos(k, r))
  {
    sh.CodeBounds(k, r);
    RevOfSmall(sh.g, w, i);
    j := TableBits(sh, k, r, w, a);
    sh.BlockFits(k, r, w);
    WideIsSnug(sh, k, r, w, j);
  }

  lemma WideIsSnug(sh: Shape, k: nat, r: nat, w: nat, j: nat)
    requires sh.Valid() && sh.IsCode(k, r) && w < k <= w + j <= sh.g && Wide(sh, w, j, sh.Pos(k, r))
    requires sh.Pos(k, r) + Pow2(sh.g - w) <= Pow2(sh.g)
    requires j == k - w || sh.End(w + j - 1) < sh.Pos(k, r) + Pow2(sh.g - w)
    ensures SnugAt(sh, w, j, sh.Pos(k, r))
  {
    var last := sh.Pos(k, r) + Pow2(sh.g - w) - 1;
    sh.LengthUpTo(last, 1, w + j);
    if w + j > 1 {
      sh.LengthUpTo(last, 1, w + j - 1);
      if j == k - w {
        sh.EndIsNextStart(k - 1);
        sh.PosPlus(k, 0, r);
      }
    }
  }

  // Lines 218-258: one more table for the code i = (k, r), linked from the table
  // on top of the stack.
  method AddTable(sh: Shape, ghost src: Source, tables0: seq<seq<Huft>>, ghost keys0: seq<Key>, k: nat, ghost r: nat,
                  a: nat, i: nat, h0: int, w0: int, x0: seq<nat>, u0: seq<nat>)
    returns (tables: seq<seq<Huft>>, ghost keys: seq<Key>, h: nat, w: nat, x: seq<nat>, u: seq<nat>, q: nat, z: nat)
    requires Inv(sh, src, tables0, keys0, k, r, i, h0, w0, x0, u0) && sh.IsCode(k, r) && a + 1 == sh.c[k] - r
    requires k > w0 + sh.l
    requires h0 == -1 ==> sh.Pos(k, r) == 0 && k <= sh.l
    requires Spill(sh, tables0, keys0)
    ensures h == h0 + 1 < BMAX && w == w0 + sh.l
    ensures Inv(sh, src, tables, keys, k, r, i, h, w, x, u)
    ensures q == u[h] < |tables| && z == |tables[q]|
    ensures Spill(sh, tables, keys)
  {
    w := w0 + sh.l;
    var j := TableWidth(sh, k, r, w, a, i);
    z := Shl(1, j);
    ShlOne(j);
    q := |tables0|;
    if h0 == -1 {
      tables, keys := [seq(z, _ => Blank)], [Key(0, 0, j, 0)];
      h, x, u := 0, x0, u0[0 := 0];
      StartRoot(sh, src, tables0, keys0, k, r, i, w0, x0, u0, j);
      return;
    } else {
      h, x, u := h0 + 1, x0[h0 + 1 := i], u0[h0 + 1 := q];
      StartLinked(sh, src, tables0, keys0, k, r, i, h0, w0, x0, u0, j);
      tables := Linking(tables0, j, sh.l, u0[h0], Shr(i, w0));
      keys := keys0 + [Key(w, i, j, u0[h0])];
    }
  }

  // The state after a table was started.
  ghost predicate TableStarted(sh: Shape, src: Source, tables: seq<seq<Huft>>, keys: seq<Key>, k: nat, r: nat,
                           i: nat, h: int, w: int, x: seq<nat>, u: seq<nat>) {
    Inv(sh, src, tables, keys, k, r, i, h, w, x, u) && Spill(sh, tables, keys)
  }

  lemma StartRoot(sh: Shape, src: Source, tables: seq<seq<Huft>>, keys: seq<Key>, k: nat, r: nat,
                  i: nat, w: int, x: seq<nat>, u: seq<nat>, j: nat)
    requires Inv(sh, src, tables, keys, k, r, i, -1, w, x, u) && sh.IsCode(k, r) && sh.Pos(k, r) == 0
    requires j <= BMAX && Wide(sh, 0, j, 0)
    ensures TableStarted(sh, src, [seq(Pow2(j), _ => Blank)], [Key(0, 0, j, 0)], k, r, i, 0, 0, x, u[0 := 0])
  {
    RootWidth(sh, k, r, j);
    GrowRoot(sh, src, k, r, i, w, x, u, j);
    BlankLow(sh.l, Pow2(j));
  }

  lemma StartLinked(sh: Shape, src: Source, tables: seq<seq<Huft>>, keys: seq<Key>, k: nat, r: nat,
                    i: nat, h: int, w: int, x: seq<nat>, u: seq<nat>, j: nat)
    requires Inv(sh, src, tables, keys, k, r, i, h, w, x, u) && sh.IsCode(k, r) && h >= 0 && k > w + sh.l
    requires Low(sh.Pos(k, r), sh.g - (w + sh.l)) == 0 && Spill(sh, tables, keys)
    requires j <= BMAX && Wide(sh, w + sh.l, j, sh.Pos(k, r)) && SnugAt(sh, w + sh.l, j, sh.Pos(k, r))
    requires j > sh.l <==>
      w + sh.l + sh.l <= k && (w + sh.l + sh.l < k || sh.Pos(k, r) + Pow2(sh.g - (w + sh.l)) > sh.End(k))
    ensures h + 1 < BMAX && u[h] < |tables| && Shr(i, w) < |tables[u[h]]|
    ensures TableStarted(sh, src, Linking(tables, j, sh.l, u[h], Shr(i, w)), keys + [Key(w + sh.l, i, j, u[h])],
                     k, r, i, h + 1, w + sh.l, x[h + 1 := i], u[h + 1 := |keys|])
  {
    Grow(sh, src, tables, keys, k, r, i, h, w, x, u, j);
    NextLevel(sh, src, tables, keys, k, r, i, h, w, x, u);
    NewSpill(sh, tables, keys, k, r, i, w, u[h], j);
  }

  lemma NewSpill(sh: Shape, tables: seq<seq<Huft>>, keys: seq<Key>, k: nat, r: nat, i: nat, w: nat, top: nat, j: nat)
    requires sh.Valid() && sh.IsCode(k, r) && k > w + sh.l && Level(sh.l, w + sh.l)
             && i == sh.Code(k, r) < Pow2(w + sh.l)
    requires Low(sh.Pos(k, r), sh.g - (w + sh.l)) == 0 && Spill(sh, tables, keys)
    requires j > sh.l <==>
      w + sh.l + sh.l <= k && (w + sh.l + sh.l < k || sh.Pos(k, r) + Pow2(sh.g - (w + sh.l)) > sh.End(k))
    requires top < |tables| && Shr(i, w) < |tables[top]| && SnugAt(sh, w + sh.l, j, sh.Pos(k, r))
    ensures Spill(sh, Linking(tables, j, sh.l, top, Shr(i, w)), keys + [Key(w + sh.l, i, j, top)])
  {
    hide Spill, First, Shl, Shr, Low, Linking, StartedWide;
    var key := Key(w + sh.l, i, j, top);
    assert Snug(sh, key) by { sh.CodeBounds(k, r); }
    NewKey(sh, key, k, r);
    ShrBound(i, w, w + sh.l);
    GrowSpill(sh, tables, keys, top, Shr(i, w), key);
  }

  lemma NextLevel(sh: Shape, src: Source, tables: seq<seq<Huft>>, keys: seq<Key>, k: nat, r: nat,
                  i: nat, h: int, w: int, x: seq<nat>, u: seq<nat>)
    requires Inv(sh, src, tables, keys, k, r, i, h, w, x, u) && sh.IsCode(k, r) && h >= 0
    ensures w >= 0 && Level(sh.l, w + sh.l) && i == sh.Code(k, r) < Pow2(w + sh.l)
  {
    assert OnStack(sh, i, h, x, u, keys);
    KeyLevel(sh, tables, keys, u[h]);
  }

  // The root table has at least l index bits.
  lemma RootWidth(sh: Shape, k: nat, r: nat, j: nat)
    requires sh.Valid() && sh.IsCode(k, r) && Wide(sh, 0, j, sh.Pos(k, r)) && sh.Pos(k, r) == 0
    ensures j >= sh.l
  {
    sh.PosPlus(sh.g, 0, sh.c[sh.g]);
    ShlOne(sh.g);
    ShlMono(0, sh.c[sh.g], 0);
    if 1 <= j < sh.g {
      sh.EndMono(j, sh.g);
    }
  }

  // Lines 262-275: the entry for the t-th code, b bits long; p stops at n.
  method NextEntry(src: Source, ghost t: nat, p0: nat, b: nat) returns (entry: Huft, p: nat)
    requires src.Valid() && p0 == Min(t, src.n)
    ensures entry == src.EntryAt(t, b) && p == Min(t + 1, src.n)
  {
    p := p0;
    if p >= src.n {
      entry := Entry(99, b, NoValue);
    } else {
      entry := if p >= |src.v| then Junk(b) else src.SymbolEntry(src.v[p], b);
      p := p + 1;
    }
  }

  // Lines 262-281: enter the code i = (k, r) in the table q.
  method EnterCode(sh: Shape, src: Source, tables0: seq<seq<Huft>>, ghost keys: seq<Key>, k: nat, ghost r: nat,
                   i: nat, w: nat, q: nat, p0: nat)
    returns (tables: seq<seq<Huft>>, p: nat)
    requires sh.Valid() && src.Valid() && sh.IsCode(k, r) && i == sh.Code(k, r)
    requires Wf(sh, tables0, keys) && AllPlaced(sh, src, tables0, keys, k, r) && Spill(sh, tables0, keys)
    requires KeysOk(sh, keys, sh.Pos(k, r), w)
    requires q < |tables0| && w == keys[q].w < k <= w + sh.l && keys[q].prefix == Low(i, w)
    requires p0 == Min(Off(sh.c, k) + r, src.n)
    ensures Wf(sh, tables, keys) && AllPlaced(sh, src, tables, keys, k, r + 1) && Spill(sh, tables, keys)
    ensures |tables| == |tables0| && |tables[q]| == |tables0[q]|
    ensures p == Min(Off(sh.c, k) + r + 1, src.n)
  {
    var entry;
    entry, p := NextEntry(src, Off(sh.c, k) + r, p0, k - w);
    TableRoom(sh, tables0, keys, k, r, q);
    var table := FillEntries(tables0[q], keys[q].bits, Shr(i, w), k - w, entry);
    tables := tables0[q := table];
    FillTable(sh, src, tables0, keys, k, r, q, table);
  }

  lemma FillTable(sh: Shape, src: Source, tables: seq<seq<Huft>>, keys: seq<Key>, k: nat, r: nat, q: nat,
                  table: seq<Huft>)
    requires sh.Valid() && src.Valid() && sh.IsCode(k, r)
    requires Wf(sh, tables, keys) && AllPlaced(sh, src, tables, keys, k, r) && Spill(sh, tables, keys)
    requires q < |tables| && keys[q].w < k <= keys[q].w + sh.l && KeysOk(sh, keys, sh.Pos(k, r), keys[q].w)
    requires keys[q].prefix == Low(sh.Code(k, r), keys[q].w)
    requires FilledIn(tables[q], table, Shr(sh.Code(k, r), keys[q].w), k - keys[q].w,
                      src.EntryAt(Off(sh.c, k) + r, k - keys[q].w))
    ensures Wf(sh, tables[q := table], keys) && AllPlaced(sh, src, tables[q := table], keys, k, r + 1)
    ensures Spill(sh, tables[q := table], keys)
  {
    var t, len := Off(sh.c, k) + r, k - keys[q].w;
    FillWf(sh, tables, keys, k, r, q, table, src.EntryAt(t, len));
    FillPlaces(sh, src, tables, keys, k, r, q, table);
    FillSpill(sh, src, tables, keys, q, table, Shr(sh.Code(k, r), keys[q].w), len, t);
  }

  lemma FillSpill(sh: Shape, src: Source, tables: seq<seq<Huft>>, keys: seq<Key>, q: nat, table: seq<Huft>,
                  bits: nat, len: nat, t: nat)
    requires Spill(sh, tables, keys) && q < |tables| && src.Valid() && len <= sh.l
    requires FilledIn(tables[q], table, bits, len, src.EntryAt(t, len))
    ensures Spill(sh, tables[q := table], keys)
  {
    assert LinksLow(sh.l, tables[q]);
    FilledLow(sh.l, tables[q], table, bits, len, src.EntryAt(t, len));
  }

  // Lines 288-293: close the tables that the code i, next after (k, r), does not
  // continue.
  method CloseTables(sh: Shape, ghost keys: seq<Key>, k: nat, ghost r: nat, i: nat,
                     h0: nat, w0: nat, x: seq<nat>, ghost u: seq<nat>)
    returns (h: nat, w: nat)
    requires sh.Valid() && sh.IsCode(k, r) && i == Rev(sh.g, sh.Pos(k, r + 1))
    requires Stack(sh, sh.Code(k, r), h0, w0, x, u, keys) && w0 < k <= w0 + sh.l && keys[0].w == 0
    ensures h <= h0 && OnStack(sh, sh.Code(k, r), h, x, u, keys) && w == keys[u[h]].w <= w0
    ensures Low(i, w) == x[h] && i < Pow2(w + sh.l)
    ensures (h == h0 && w == w0) || k > w + sh.l
  {
    hide Low, Rev, First;
    h, w := h0, w0;
    NextCode(sh, k, r, w);
    while Low(i, w) != x[h]
      invariant 0 <= h <= h0 && OnStack(sh, sh.Code(k, r), h, x, u, keys) && w == keys[u[h]].w <= w0
      invariant (h == h0 && w == w0) || k > w + sh.l
      invariant i < Pow2(w + sh.l)
      decreases h
    {
      StepDown(sh, keys, k, r, i, h0, h, w, x, u);
      h := h - 1;
      w := w - sh.l;
    }
  }

  // One table is closed.
  lemma StepDown(sh: Shape, keys: seq<Key>, k: nat, r: nat, i: nat, h0: nat, h: nat, w: nat, x: seq<nat>, u: seq<nat>)
    requires sh.Valid() && sh.IsCode(k, r) && i == Rev(sh.g, sh.Pos(k, r + 1)) && w < k && h <= h0 < |x| && h0 < |u|
    requires forall t :: 0 <= t <= h0 ==> OnStack(sh, sh.Code(k, r), t, x, u, keys)
    requires OnStack(sh, sh.Code(k, r), h, x, u, keys) && w == keys[u[h]].w && Low(i, w) != x[h]
    requires u[0] < |keys| && keys[u[0]].w == 0
    ensures h > 0 && OnStack(sh, sh.Code(k, r), h - 1, x, u, keys) && keys[u[h - 1]].w == w - sh.l
    ensures i < Pow2(w)
  {
    StepOut(sh, k, r, w);
    assert OnStack(sh, sh.Code(k, r), h - 1, x, u, keys);
  }

  function Min(a: nat, b: nat): nat {
    if a <= b then a else b
  }

  lemma TableRoom(sh: Shape, tables: seq<seq<Huft>>, keys: seq<Key>, k: nat, r: nat, q: nat)
    requires sh.Valid() && sh.IsCode(k, r) && Wf(sh, tables, keys)
    requires q < |keys| && Fits(sh, keys[q])
    requires keys[q].w < k <= keys[q].w + sh.l && keys[q].prefix == Low(sh.Code(k, r), keys[q].w)
    ensures |tables[q]| == Pow2(keys[q].bits) && k - keys[q].w <= keys[q].bits
    ensures Shr(sh.Code(k, r), keys[q].w) < Pow2(k - keys[q].w)
  {
    var w := keys[q].w;
    assert WfTable(sh, tables, keys, q);
    sh.CodeBounds(k, r);
    ShrBound(sh.Code(k, r), w, k);
  }

  // The next code is at most k bits long before zeros.
  lemma NextCode(sh: Shape, k: nat, r: nat, w: nat)
    requires sh.Valid() && sh.IsCode(k, r) && w < k <= w + sh.l
    ensures Rev(sh.g, sh.Pos(k, r + 1)) < Pow2(w + sh.l)
  {
    hide Rev, Low, Shl, Shr, First, Pow2;
    Join(0, First(sh.c, k) + r + 1, sh.g - k);
    RevMultiple(sh.g, k, sh.Pos(k, r + 1));
    Pow2Mono(k, w + sh.l);
  }

  // If the next code does not share its first w bits with (k, r), it starts a
  // block at that level.
  lemma StepOut(sh: Shape, k: nat, r: nat, w: nat)
    requires sh.Valid() && sh.IsCode(k, r) && w < k
    requires Low(Rev(sh.g, sh.Pos(k, r + 1)), w) != Low(sh.Code(k, r), w)
    ensures w > 0 && Rev(sh.g, sh.Pos(k, r + 1)) < Pow2(w)
  {
    sh.PosNext(k, r);
    sh.CodeEnd(k, r);
    Join(0, First(sh.c, k) + r, sh.g - k);
    StepOutFrom(sh, sh.Pos(k, r), k, w);
  }

  lemma StepOutFrom(sh: Shape, cur: nat, k: nat, w: nat)
    requires w < k <= sh.g && Low(cur, sh.g - k) == 0 && cur + Pow2(sh.g - k) <= Pow2(sh.g)
    requires Low(Rev(sh.g, cur + Pow2(sh.g - k)), w) != Low(Rev(sh.g, cur), w)
    ensures w > 0 && Rev(sh.g, cur + Pow2(sh.g - k)) < Pow2(w)
  {
    if cur + Pow2(sh.g - k) == Pow2(sh.g) {
      RevOverflow(sh.g);
    } else {
      BackedUp(sh, cur, k, w);
    }
  }

  lemma RevOverflow(g: nat)
    ensures Rev(g, Pow2(g)) == 0
  {
    ShlOne(g);
    Join(0, 1, g);
    RevLow(g, Pow2(g));
    RevZero(g);
  }

  // The last table made, q with z entries, is the one on top of the stack.
  ghost predicate TopTable(tables: seq<seq<Huft>>, h: int, u: seq<nat>, q: nat, z: nat) {
    0 <= h < |u| && q == u[h] < |tables| && z == |tables[q]|
  }

  // The loop state before the code (k, r): h == -1 only before the first code.
  ghost predicate Ready(sh: Shape, src: Source, tables: seq<seq<Huft>>, keys: seq<Key>, k: nat, r: nat,
                        i: nat, h: int, w: int, x: seq<nat>, u: seq<nat>, q: nat, z: nat, p: nat)
  {
    && Inv(sh, src, tables, keys, k, r, i, h, w, x, u)
    && p == Min(Off(sh.c, k) + r, src.n)
    && (TopTable(tables, h, u, q, z) || k > w + sh.l)
    && (h == -1 ==> sh.Pos(k, r) == 0 && k <= sh.l)
    && Spill(sh, tables, keys)
  }

  // Lines 215-259: tables down to the level that holds codes of length k.
  method AddTables(sh: Shape, ghost src: Source, tables0: seq<seq<Huft>>, ghost keys0: seq<Key>, k: nat, ghost r: nat,
                   a: nat, i: nat, h0: int, w0: int, x0: seq<nat>, u0: seq<nat>, q0: nat, z0: nat, ghost p: nat)
    returns (tables: seq<seq<Huft>>, ghost keys: seq<Key>, h: int, w: int, x: seq<nat>, u: seq<nat>, q: nat, z: nat)
    requires Ready(sh, src, tables0, keys0, k, r, i, h0, w0, x0, u0, q0, z0, p)
    requires sh.IsCode(k, r) && a + 1 == sh.c[k] - r
    ensures Ready(sh, src, tables, keys, k, r, i, h, w, x, u, q, z, p)
    ensures k <= w + sh.l && TopTable(tables, h, u, q, z)
  {
    tables, keys, h, w, x, u, q, z := tables0, keys0, h0, w0, x0, u0, q0, z0;
    while k > w + sh.l
      invariant Ready(sh, src, tables, keys, k, r, i, h, w, x, u, q, z, p)
      decreases k - w
    {
      tables, keys, h, w, x, u, q, z := AddTable(sh, src, tables, keys, k, r, a, i, h, w, x, u);
    }
  }

  // Lines 210-295: enter the codes of length k.
  method CodesOfLength(sh: Shape, src: Source, tables0: seq<seq<Huft>>, ghost keys0: seq<Key>, k: nat,
                       i0: nat, h0: int, w0: int, x0: seq<nat>, u0: seq<nat>, q0: nat, z0: nat, p0: nat)
    returns (tables: seq<seq<Huft>>, ghost keys: seq<Key>, i: nat, h: int, w: int, x: seq<nat>, u: seq<nat>,
             q: nat, z: nat, p: nat)
    requires Ready(sh, src, tables0, keys0, k, 0, i0, h0, w0, x0, u0, q0, z0, p0)
    ensures Ready(sh, src, tables, keys, k, sh.c[k], i, h, w, x, u, q, z, p)
    ensures h == -1 ==> h0 == -1 && sh.c[k] == 0
  {
    tables, keys, i, h, w, x, u, q, z, p := tables0, keys0, i0, h0, w0, x0, u0, q0, z0, p0;
    var a := sh.c[k];
    while a != 0
      invariant 0 <= a <= sh.c[k]
      invariant Ready(sh, src, tables, keys, k, sh.c[k] - a, i, h, w, x, u, q, z, p)
      invariant h == -1 ==> h0 == -1 && a == sh.c[k]
      decreases a
    {
      a := a - 1;
      tables, keys, i, h, w, x, u, q, z, p :=
        NextOfLength(sh, src, tables, keys, k, sh.c[k] - a - 1, a, i, h, w, x, u, q, z, p);
    }
  }

  // Lines 214-294: the next code of length k, with the tables it needs.
  method NextOfLength(sh: Shape, src: Source, tables0: seq<seq<Huft>>, ghost keys0: seq<Key>, k: nat, ghost r: nat,
                      a: nat, i0: nat, h0: int, w0: int, x0: seq<nat>, u0: seq<nat>, q0: nat, z0: nat, p0: nat)
    returns (tables: seq<seq<Huft>>, ghost keys: seq<Key>, i: nat, h: int, w: int, x: seq<nat>, u: seq<nat>,
             q: nat, z: nat, p: nat)
    requires Ready(sh, src, tables0, keys0, k, r, i0, h0, w0, x0, u0, q0, z0, p0)
    requires sh.IsCode(k, r) && a + 1 == sh.c[k] - r
    ensures Ready(sh, src, tables, keys, k, r + 1, i, h, w, x, u, q, z, p) && h >= 0
  {
    var h1, w1;
    tables, keys, h1, w1, x, u, q, z := AddTables(sh, src, tables0, keys0, k, r, a, i0, h0, w0, x0, u0, q0, z0, p0);
    tables, i, h, w, p := OneCode(sh, src, tables, keys, k, r, i0, h1, w1, x, u, q, p0);
  }

  // Lines 196-297: enter every code, in order of length.
  method BuildTables(sh: Shape, src: Source, kmin: nat) returns (tables: seq<seq<Huft>>, ghost keys: seq<Key>)
    requires sh.Valid() && src.Valid() && 1 <= kmin <= sh.l && sh.c[kmin] > 0
    requires forall n :: 1 <= n < kmin ==> sh.c[n] == 0
    ensures Wf(sh, tables, keys) && AllPlaced(sh, src, tables, keys, sh.g, sh.c[sh.g])
    ensures Spill(sh, tables, keys)
  {
    tables, keys := [], [];
    var x: seq<nat>, u: seq<nat> := seq(BMAX + 1, _ => 0), seq(BMAX, _ => 0);
    var i, p, h, w, q, z := 0, 0, -1, -(sh.l as int), 0, 0;
    FirstZero(sh, kmin);
    RevZero(sh.g);
    var k := kmin;
    while k <= sh.g
      invariant kmin <= k <= sh.g + 1
      invariant h == -1 ==> k == kmin
      invariant if k <= sh.g then Ready(sh, src, tables, keys, k, 0, i, h, w, x, u, q, z, p)
                else Ready(sh, src, tables, keys, sh.g, sh.c[sh.g], i, h, w, x, u, q, z, p)
    {
      tables, keys, i, h, w, x, u, q, z, p := CodesOfLength(sh, src, tables, keys, k, i, h, w, x, u, q, z, p);
      if k < sh.g {
        NextLength(sh, src, tables, keys, k, i, h, w, x, u);
      }
      k := k + 1;
    }
  }

  // Lines 260-294: what is done for each code.
  method OneCode(sh: Shape, src: Source, tables0: seq<seq<Huft>>, ghost keys: seq<Key>, k: nat, ghost r: nat,
                 i0: nat, h0: nat, w0: nat, x: seq<nat>, u: seq<nat>, q: nat, p0: nat)
    returns (tables: seq<seq<Huft>>, i: nat, h: nat, w: nat, p: nat)
    requires Inv(sh, src, tables0, keys, k, r, i0, h0, w0, x, u) && sh.IsCode(k, r)
    requires q == u[h0] < |tables0| && k <= w0 + sh.l && Spill(sh, tables0, keys)
    requires p0 == Min(Off(sh.c, k) + r, src.n)
    ensures Inv(sh, src, tables, keys, k, r + 1, i, h, w, x, u) && Spill(sh, tables, keys)
    ensures |tables| == |tables0| && |tables[q]| == |tables0[q]|
    ensures p == Min(Off(sh.c, k) + r + 1, src.n)
    ensures (h == h0 && w == w0) || k > w + sh.l
  {
    assert OnStack(sh, i0, h0, x, u, keys);
    tables, p := EnterCode(sh, src, tables0, keys, k, r, i0, w0, q, p0);
    IncCode(sh, k, r);
    i := IncrementCode(i0, k);
    assert OnStack(sh, i0, 0, x, u, keys) && WfTable(sh, tables, keys, 0);
    h, w := CloseTables(sh, keys, k, r, i, h0, w0, x, u);
    Advance(sh, src, tables, keys, k, r, i0, w0, i, h, w, x, u);
  }

  lemma IncCode(sh: Shape, k: nat, r: nat)
    requires sh.Valid() && sh.IsCode(k, r)
    ensures sh.Code(k, r) < Pow2(k)
    ensures Inc(sh.Code(k, r), k) == Rev(sh.g, sh.Pos(k, r + 1))
  {
    sh.CodeBounds(k, r);
    IncAt(sh.g, k, First(sh.c, k) + r, sh.Pos(k, r), sh.Pos(k, r + 1));
  }

  lemma IncAt(g: nat, k: nat, y: nat, pos: nat, next: nat)
    requires k <= g && y < Pow2(k) && pos == Shl(y, g - k) && next == Shl(y + 1, g - k)
    ensures Inc(Rev(g, pos), k) == Rev(g, next)
  {
    IncSteps(g, k, y);
  }

  lemma {:induction false} FirstZero(sh: Shape, k: nat)
    requires 1 <= k <= sh.g < |sh.c| && forall n :: 1 <= n < k ==> sh.c[n] == 0
    ensures First(sh.c, k) == 0 && Off(sh.c, k) == 0 && sh.Pos(k, 0) == 0
  {
    ShlOne(sh.g - k);
    if k > 1 { FirstZero(sh, k - 1); }
  }

  const N_MAX: nat := 288

  // Lines 135-140: how many codes have each length.
  method CountLengths(b: seq<nat>) returns (c: array<nat>)
    requires |b| > 0 && Lengths(b)
    ensures fresh(c) && c.Length == BMAX + 1 && c[..] == Counts(b)
  {
    c := new nat[BMAX + 1](_ => 0);
    var p := 0;
    var i := |b|;
    while i > 0
      invariant 0 <= p <= |b| && p + i == |b| && c.Length == BMAX + 1
      invariant forall k :: 0 <= k <= BMAX ==> c[k] == Count(b[..p], k)
    {
      forall k: nat ensures Count(b[..p + 1], k) == Count(b[..p], k) + if b[p] == k then 1 else 0 {
        CountStep(b, p, k);
      }
      c[b[p]] := c[b[p]] + 1;
      p := p + 1;
      i := i - 1;
    }
    assert b[..p] == b;
  }

  // Lines 150-163: the shortest and the longest length in use.
  method Bounds(b: seq<nat>, c: array<nat>) returns (kmin: nat, g: nat)
    requires Lengths(b) && c.Length == BMAX + 1 && c[..] == Counts(b) && Count(b, 0) < |b|
    ensures Spans(b, kmin, g)
  {
    ghost var k := SomeLength(b);
    assert c[k] == Counts(b)[k];
    kmin := 1;
    while c[kmin] == 0
      invariant 1 <= kmin <= k && forall n :: 1 <= n < kmin ==> c[n] == 0
      decreases k - kmin
    {
      kmin := kmin + 1;
    }
    g := BMAX;
    while c[g] == 0
      invariant k <= g <= BMAX && forall n :: g < n <= BMAX ==> c[n] == 0
      decreases g
    {
      g := g - 1;
    }
    assert forall n :: 0 <= n <= BMAX ==> c[n] == Counts(b)[n];
  }

  // Lines 168-174: the strings left over by the codes become dummy codes of
  // length g. There are more codes than strings exactly when `over` is returned.
  method FillOut(ghost b: seq<nat>, c: array<nat>, kmin: nat, g: nat) returns (y: int, over: bool)
    requires c.Length == BMAX + 1 && c[..] == Counts(b) && Spans(b, kmin, g)
    modifies c
    ensures over <==> EndOf(b, g) > Pow2(g)
    ensures !over ==> y == Pow2(g) - EndOf(b, g) && c[..] == Counts(b)[g := Count(b, g) + Pow2(g) - EndOf(b, g)]
  {
    ghost var c0 := Counts(b);
    FirstOfShortest(c0, kmin);
    ShlOne(kmin);
    y := Shl(1, kmin);
    over := false;
    var j := kmin;
    while j < g
      invariant kmin <= j <= g && c[..] == c0 && y == Pow2(j) - First(c0, j) >= 0
    {
      assert c[j] == c0[j];
      y := y - c[j];
      if y < 0 {
        Overflows(c0, j, g);
        return y, true;
      }
      j := j + 1;
      y := 2 * y;
    }
    assert c[g] == c0[g];
    y := y - c[g];
    if y < 0 { return y, true; }
    c[g] := c[g] + y;
  }

  // Lines 178-192: the used symbols in order of length, by counting.
  method SortSymbols(b: seq<nat>, c: array<nat>, kmin: nat, g: nat) returns (v: array<nat>)
    requires 0 < |b| <= N_MAX && Spans(b, kmin, g)
    requires c.Length == BMAX + 1 && forall n :: 1 <= n < g ==> c[n] == Counts(b)[n]
    ensures Used(b) <= v.Length == N_MAX && v[..Used(b)] == Sorted(b)
  {
    var x := Offsets(b, c, kmin, g);
    v := new nat[N_MAX];
    var i := 0;
    while i < |b|
      invariant 0 <= i <= |b| && x.Length == BMAX + 1
      invariant PlacesAt(b, x[..], i, g) && SortedSoFar(b, i, v[..])
    {
      SortOne(b, x, v, i, kmin, g);
      i := i + 1;
    }
    SortedAll(b, v[..]);
    assert v[..][..Used(b)] == v[..Used(b)];
  }

  // Lines 190-191
  method SortOne(b: seq<nat>, x: array<nat>, v: array<nat>, i: nat, ghost kmin: nat, ghost g: nat)
    requires Spans(b, kmin, g) && |b| <= N_MAX == v.Length && x.Length == BMAX + 1 && x != v
    requires i < |b| && PlacesAt(b, x[..], i, g) && SortedSoFar(b, i, v[..])
    modifies x, v
    ensures PlacesAt(b, x[..], i + 1, g) && SortedSoFar(b, i + 1, v[..])
  {
    var j := b[i];
    if j != 0 { UsedLength(b, kmin, g, i); }
    NextPlaces(b, x[..], i, g);
    if j != 0 {
      UsedLength(b, kmin, g, i);
      SortedStep(b, i, v[..]);
      v[x[j]] := i;
      x[j] := x[j] + 1;
    } else {
      SortedSkip(b, i, v[..]);
    }
  }

  // Where the next symbol of each length goes, after the first i symbols.
  ghost predicate PlacesAt(b: seq<nat>, x: seq<nat>, i: nat, g: nat) {
    i <= |b| && g < |x| <= BMAX + 1 && forall k: nat :: 1 <= k <= g ==> x[k] == OffsetAt(b, k) + Count(b[..i], k)
  }

  lemma NextPlaces(b: seq<nat>, x: seq<nat>, i: nat, g: nat)
    requires PlacesAt(b, x, i, g) && i < |b| && b[i] <= g
    ensures PlacesAt(b, if b[i] == 0 then x else x[b[i] := x[b[i]] + 1], i + 1, g)
  {
    forall k: nat | 1 <= k <= g
      ensures Count(b[..i + 1], k) == Count(b[..i], k) + if b[i] == k then 1 else 0
    {
      CountStep(b, i, k);
    }
  }

  // Lines 178-183: the place of the first symbol of each length.
  method Offsets(ghost b: seq<nat>, c: array<nat>, ghost kmin: nat, g: nat) returns (x: array<nat>)
    requires Spans(b, kmin, g)
    requires c.Length == BMAX + 1 && forall n :: 1 <= n < g ==> c[n] == Counts(b)[n]
    ensures fresh(x) && x.Length == BMAX + 1
    ensures PlacesAt(b, x[..], 0, g)
  {
    x := new nat[BMAX + 1](_ => 0);
    var j, p, xp, i := 0, 1, 2, g;
    i := i - 1;
    assert OffsetsTo(b, x[..], 1);
    while i != 0
      invariant 0 <= i < g && p == g - i && xp == p + 1
      invariant OffsetsTo(b, x[..], p) && j == OffsetAt(b, p)
      decreases i
    {
      NextOffset(b, x[..], p, j);
      j := j + c[p];
      x[xp] := j;
      p, xp := p + 1, xp + 1;
      i := i - 1;
    }
  }

  ghost function OffsetAt(b: seq<nat>, k: nat): nat
    requires k <= BMAX + 1
  {
    Off(Counts(b), k)
  }

  ghost predicate OffsetsTo(b: seq<nat>, x: seq<nat>, p: nat) {
    p < |x| <= BMAX + 1 && forall k: nat :: 1 <= k <= p ==> x[k] == OffsetAt(b, k)
  }

  lemma NextOffset(b: seq<nat>, x: seq<nat>, p: nat, j: nat)
    requires 1 <= p && p + 1 < |x| && OffsetsTo(b, x, p) && j == OffsetAt(b, p)
    ensures j + Counts(b)[p] == OffsetAt(b, p + 1)
    ensures OffsetsTo(b, x[p + 1 := j + Counts(b)[p]], p + 1)
  {
  }

  lemma UsedLength(b: seq<nat>, kmin: nat, g: nat, i: nat)
    requires Spans(b, kmin, g) && i < |b| && b[i] != 0
    ensures b[i] <= g
  {
    CountStep(b, i, b[i]);
    CountPrefix(b, i + 1, b[i]);
    assert Counts(b)[b[i]] == Count(b, b[i]);
  }

  // What huft_build returns. Without codes: 0 and no tables. Otherwise 2 exactly
  // when the codes take more than all strings, 1 exactly when they take less and
  // the longest is not one bit, else 0; and unless it is 2, tables that decode.
  ghost predicate Builds(b: seq<nat>, s: nat, d: seq<nat>, e: seq<nat>, m: nat,
                         ret: nat, tables: seq<seq<Huft>>, bits: nat, kmin: nat, g: nat)
    requires Lengths(b) && |b| - s <= |e| == |d|
  {
    if Count(b, 0) == |b| then ret == 0 && tables == [] && bits == 0
    else
      && Spans(b, kmin, g)
      && ret == (if Kraft(b) > FULL then 2 else if Kraft(b) < FULL && g != 1 then 1 else 0)
      && bits == Clamp(m, kmin, g)
      && (ret != 2 ==> EndOf(b, g) <= Pow2(g) && Decoding(b, SourceOf(b, s, d, e), tables, bits, g))
  }

  // huft_build, for code lengths b, s simple values, and base values d and extra
  // bits e for the others; m is the wanted width of the first table. Returns the
  // C return value, the tables (the first one is the root) and the width to look
  // up with.
  method Build(b: seq<nat>, s: nat, d: seq<nat>, e: seq<nat>, m: nat)
    returns (ret: nat, tables: seq<seq<Huft>>, bits: nat)
    requires 0 < |b| <= N_MAX && Lengths(b) && |b| - s <= |e| == |d| && m > 0
    ensures exists kmin, g :: Builds(b, s, d, e, m, ret, tables, bits, kmin, g)
  {
    tables, bits := [], 0;
    var c := CountLengths(b);
    assert c[0] == Counts(b)[0];
    if c[0] == |b| {
      assert Builds(b, s, d, e, m, 0, [], 0, 0, 0);
      return 0, [], 0;
    }

    var k, i := Bounds(b, c);
    bits := Clamp(m, k, i);
    var y, over := FillOut(b, c, k, i);
    KraftAtMax(b, i);
    if over {
      assert Builds(b, s, d, e, m, 2, [], bits, k, i);
      return 2, [], bits;
    }

    ret := if y != 0 && i != 1 then 1 else 0;
    tables := MakeTables(b, s, d, e, c, k, i, bits);
    assert Builds(b, s, d, e, m, ret, tables, bits, k, i);
  }

  // Lines 178-297: sort the symbols and enter their codes, c being the counts with
  // dummy codes.
  method MakeTables(b: seq<nat>, s: nat, d: seq<nat>, e: seq<nat>, c: array<nat>, kmin: nat, g: nat, bits: nat)
    returns (tables: seq<seq<Huft>>)
    requires 0 < |b| <= N_MAX && Spans(b, kmin, g) && |b| - s <= |e| == |d|
    requires EndOf(b, g) <= Pow2(g) && 1 <= bits <= g && kmin <= bits
    requires c.Length == BMAX + 1 && c[..] == ShapeOf(b, g, bits).c
    ensures Decoding(b, SourceOf(b, s, d, e), tables, bits, g)
  {
    hide Decoding, Spill, AllPlaced, Wf, Count, Sorted, EndOf;
    var sh := Shape(c[..], g, bits);
    assert forall n :: 0 <= n <= BMAX ==> c[n] == sh.c[n];
    var v := SortSymbols(b, c, kmin, g);
    UsedTotal(b);
    var src := Source(v[..|b| - c[0]], |b|, s, d, e);
    ShapeValid(b, kmin, g, bits);
    SourceValid(b, s, d, e);
    ghost var keys;
    tables, keys := BuildTables(sh, src, kmin);
    BuiltDecoding(b, kmin, sh, src, tables, keys);
  }
}
