// The multi-level decoding tables of inflate.c: their invariant while they are
// being built, and what walking them yields.
module HuftTables {
  import opened Bits
  import opened Canonical

  datatype Value = Number(n: nat) | Table(t: nat) | NoValue

  // struct huft. `e` is 16 for a literal, 15 for end of block, 16 + j for a link
  // to a j-bit table, 99 for an invalid code, else a number of extra bits.
  // Junk is an entry made from a slot of v[] that was never written; Blank is an
  // entry that was never written itself.
  datatype Huft =
    | Entry(e: nat, b: nat, v: Value)
    | Junk(b: nat)
    | Blank

  // What huft_build reads to make entries: the used symbols in order of length
  // (v), and its arguments n, s, d and e.
  datatype Source = Source(v: seq<nat>, n: nat, s: nat, d: seq<nat>, e: seq<nat>) {

    predicate Valid() {
      && |v| <= n
      && |d| == |e|
      && forall t :: 0 <= t < |v| ==> v[t] < n && (v[t] >= s ==> v[t] - s < |e|)
    }

    // The entry for symbol y, b bits long.
    function SymbolEntry(y: nat, b: nat): Huft
      requires y >= s ==> y - s < |e| == |d|
    {
      if y < s then Entry(if y < 256 then 16 else 15, b, Number(y))
      else Entry(e[y - s], b, Number(d[y - s]))
    }

    // The entry for the t-th code in order of length.
    function EntryAt(t: nat, b: nat): Huft
      requires Valid()
    {
      if t >= n then Entry(99, b, NoValue)
      else if t >= |v| then Junk(b)
      else SymbolEntry(v[t], b)
    }
  }

  // A table (ghost view): the bits read before it, the first w bits that lead
  // to it, its index width, and the table that links to it.
  datatype Key = Key(w: nat, prefix: nat, bits: nat, parent: nat)

  ghost predicate WfTable(sh: Shape, tables: seq<seq<Huft>>, keys: seq<Key>, i: nat)
    requires |tables| == |keys| && i < |keys|
  {
    var key := keys[i];
    && key.w < sh.g
    && key.prefix < Pow2(key.w)
    && 1 <= key.bits <= BMAX
    && |tables[i]| == Pow2(key.bits)
    && (if i == 0 then key.w == 0 && key.bits >= sh.l
        else && key.parent < i
             && keys[key.parent].w + sh.l == key.w
             && keys[key.parent].prefix == Low(key.prefix, key.w - sh.l)
             && keys[key.parent].bits >= sh.l
             && Linked(sh, tables, key, i))
  }

  // The entry of the parent's table for this table's prefix is the link to it.
  ghost predicate Linked(sh: Shape, tables: seq<seq<Huft>>, key: Key, i: nat)
    requires key.parent < |tables| && sh.l <= key.w
  {
    var at := Shr(key.prefix, key.w - sh.l);
    at < |tables[key.parent]| && tables[key.parent][at] == Entry(16 + key.bits, sh.l, Table(i))
  }

  ghost predicate Wf(sh: Shape, tables: seq<seq<Huft>>, keys: seq<Key>) {
    && |tables| == |keys|
    && (forall i :: 0 <= i < |keys| ==> WfTable(sh, tables, keys, i))
    && (forall i, j :: 0 <= i < j < |keys| ==> keys[i].w != keys[j].w || keys[i].prefix != keys[j].prefix)
  }

  // Table i holds the code (k, r): every index that continues its last bits has
  // its entry.
  ghost predicate Placed(sh: Shape, src: Source, tables: seq<seq<Huft>>, keys: seq<Key>, k: nat, r: nat, i: nat)
    requires src.Valid() && sh.IsCode(k, r)
  {
    && i < |keys| == |tables|
    && keys[i].w < k <= keys[i].w + sh.l
    && k - keys[i].w <= keys[i].bits
    && keys[i].prefix == Low(sh.Code(k, r), keys[i].w)
    && Filled(tables[i], Shr(sh.Code(k, r), keys[i].w), k - keys[i].w,
              src.EntryAt(Off(sh.c, k) + r, k - keys[i].w))
  }

  ghost predicate Filled(table: seq<Huft>, bits: nat, len: nat, entry: Huft) {
    forall j :: 0 <= j < |table| && Low(j, len) == bits ==> table[j] == entry
  }

  ghost predicate HasPlace(sh: Shape, src: Source, tables: seq<seq<Huft>>, keys: seq<Key>, k: nat, r: nat)
    requires src.Valid() && sh.IsCode(k, r)
  {
    exists i :: Placed(sh, src, tables, keys, k, r, i)
  }

  predicate Before(k1: nat, r1: nat, k2: nat, r2: nat) {
    k1 < k2 || (k1 == k2 && r1 < r2)
  }

  // All codes before (k, r) are in the tables.
  ghost predicate AllPlaced(sh: Shape, src: Source, tables: seq<seq<Huft>>, keys: seq<Key>, k: nat, r: nat)
    requires src.Valid()
  {
    forall k1, r1 :: sh.IsCode(k1, r1) && Before(k1, r1, k, r) ==> HasPlace(sh, src, tables, keys, k1, r1)
  }

  // A table is wide enough for each of the codes below it.
  ghost predicate Fits(sh: Shape, key: Key)
    requires sh.Valid()
  {
    forall k: nat, r: nat :: sh.IsCode(k, r) && k > key.w && Low(sh.Code(k, r), key.w) == key.prefix
      ==> key.bits >= (if k - key.w <= sh.l then k - key.w else sh.l)
  }

  // Table `key` was started before the position `cur`, or at it with w bits or fewer.
  ghost predicate Started(sh: Shape, key: Key, cur: nat, w: int) {
    Rev(sh.g, key.prefix) < cur || (Rev(sh.g, key.prefix) == cur && key.w <= w)
  }

  ghost predicate KeysOk(sh: Shape, keys: seq<Key>, cur: nat, w: int)
    requires sh.Valid()
  {
    forall i :: 0 <= i < |keys| ==> Fits(sh, keys[i]) && Started(sh, keys[i], cur, w)
  }

  // The stack of open tables u[0..h] and their prefixes x[0..h] for the code i;
  // h == -1 before the first table.
  ghost predicate Stack(sh: Shape, i: nat, h: int, w: int, x: seq<nat>, u: seq<nat>, keys: seq<Key>) {
    && |x| == BMAX + 1 && |u| == BMAX && -1 <= h < BMAX
    && (h == -1 ==> w + sh.l == 0 && keys == [])
    && x[0] == 0 && (h >= 0 ==> u[0] == 0)
    && (forall t :: 0 <= t <= h ==> OnStack(sh, i, t, x, u, keys))
    && (h >= 0 ==> OnStack(sh, i, h, x, u, keys) && w == keys[u[h]].w)
  }

  ghost predicate OnStack(sh: Shape, i: nat, t: nat, x: seq<nat>, u: seq<nat>, keys: seq<Key>)
    requires t < |x| && t < |u|
  {
    && u[t] < |keys|
    && t <= keys[u[t]].w
    && x[t] == keys[u[t]].prefix == Low(i, keys[u[t]].w)
    && (t > 0 ==> u[t - 1] < |keys| && keys[u[t]].w == keys[u[t - 1]].w + sh.l)
  }

  // ---------------------------------------------------------------- growing

  // The new tables and keys after lines 239-257: a blank table of j index bits,
  // linked from the table on top of the stack, if there is one.
  function Linking(tables: seq<seq<Huft>>, j: nat, l: nat, top: nat, at: nat): seq<seq<Huft>>
    requires top < |tables| && at < |tables[top]|
  {
    tables[top := tables[top][at := Entry(16 + j, l, Table(|tables|))]] + [seq(Pow2(j), _ => Blank)]
  }

  // The slot the new link goes to belongs to no code placed before.
  lemma SlotFree(sh: Shape, src: Source, tables: seq<seq<Huft>>, keys: seq<Key>, k1: nat, r1: nat, k: nat, r: nat,
                 top: nat)
    requires sh.Valid() && src.Valid() && sh.IsCode(k1, r1) && sh.IsCode(k, r) && Before(k1, r1, k, r)
    requires Placed(sh, src, tables, keys, k1, r1, top)
    requires keys[top].w + sh.l < k
    requires keys[top].prefix == Low(sh.Code(k, r), keys[top].w)
    ensures Low(Shr(sh.Code(k, r), keys[top].w), k1 - keys[top].w) != Shr(sh.Code(k1, r1), keys[top].w)
  {
    var w := keys[top].w;
    sh.CodesDisjoint(k1, r1, k, r);
    sh.CodeBounds(k1, r1);
    if Low(Shr(sh.Code(k, r), w), k1 - w) == Shr(sh.Code(k1, r1), w) {
      Reassemble(sh.Code(k, r), sh.Code(k1, r1), w, k1);
    }
  }

  // The index width chosen for a table at `cur` (before which w bits are read):
  // l bits, or enough for all codes that start in its block.
  ghost predicate Wide(sh: Shape, w: nat, j: nat, cur: nat)
    requires sh.Valid() && w <= sh.g
  {
    j >= sh.l || (1 <= j && w + j <= sh.g && sh.End(w + j) >= cur + Pow2(sh.g - w))
  }

  lemma WideFits(sh: Shape, w: nat, j: nat, cur: nat, parent: nat)
    requires sh.Valid() && w <= sh.g && Wide(sh, w, j, cur)
    requires cur < Pow2(sh.g) && Low(cur, sh.g - w) == 0
    ensures Fits(sh, Key(w, Rev(sh.g, cur), j, parent))
  {
    var key := Key(w, Rev(sh.g, cur), j, parent);
    forall k: nat, r: nat | sh.IsCode(k, r) && k > key.w && Low(sh.Code(k, r), key.w) == key.prefix
      ensures key.bits >= (if k - key.w <= sh.l then k - key.w else sh.l)
    {
      if j < sh.l && k > w + j {
        InBlock(sh, w, cur, k, r);
        sh.EndMono(w + j, k);
        sh.PosPlus(k, 0, r);
        assert false;
      }
    }
  }

  // A code that continues the w bits leading to block `cur` lies in that block.
  lemma InBlock(sh: Shape, w: nat, cur: nat, k: nat, r: nat)
    requires sh.Valid() && w <= sh.g && sh.IsCode(k, r)
    requires cur < Pow2(sh.g) && Low(cur, sh.g - w) == 0
    requires Low(sh.Code(k, r), w) == Rev(sh.g, cur)
    ensures cur <= sh.Pos(k, r) < cur + Pow2(sh.g - w)
  {
    RevMultiple(sh.g, w, cur);
    SmallShr(Rev(sh.g, cur), w);
    RevPrefix(sh.g, w, sh.Code(k, r), Rev(sh.g, cur));
    RevRev(sh.g, cur);
    SmallShr(cur, sh.g);
    sh.CodeBounds(k, r);
    SameBlock(sh.Pos(k, r), cur, sh.g - w);
  }

  // Adding a table keeps every code in its place.
  lemma LinkKeepsPlaced(sh: Shape, src: Source, tables: seq<seq<Huft>>, keys: seq<Key>, k1: nat, r1: nat, i1: nat,
                        k: nat, r: nat, top: nat, key: Key)
    requires sh.Valid() && src.Valid() && sh.IsCode(k1, r1) && sh.IsCode(k, r) && Before(k1, r1, k, r)
    requires Placed(sh, src, tables, keys, k1, r1, i1)
    requires top < |tables| == |keys|
    requires keys[top].w + sh.l < k
    requires keys[top].prefix == Low(sh.Code(k, r), keys[top].w)
    requires Shr(sh.Code(k, r), keys[top].w) < |tables[top]|
    ensures Placed(sh, src, Linking(tables, key.bits, sh.l, top, Shr(sh.Code(k, r), keys[top].w)),
                   keys + [key], k1, r1, i1)
  {
    if i1 == top {
      SlotFree(sh, src, tables, keys, k1, r1, k, r, top);
    }
  }

  // The state before the code (k, r) is entered, i being that code (or the end).
  ghost predicate Inv(sh: Shape, src: Source, tables: seq<seq<Huft>>, keys: seq<Key>, k: nat, r: nat,
                      i: nat, h: int, w: int, x: seq<nat>, u: seq<nat>)
  {
    && sh.Valid() && src.Valid() && 1 <= k <= sh.g && r <= sh.c[k]
    && i == Rev(sh.g, sh.Pos(k, r))
    && w < k
    && Wf(sh, tables, keys)
    && AllPlaced(sh, src, tables, keys, k, r)
    && KeysOk(sh, keys, sh.Pos(k, r), w)
    && Stack(sh, i, h, w, x, u, keys)
    && 0 <= w + sh.l && i < Pow2(w + sh.l)
  }

  lemma GrowWf(sh: Shape, tables: seq<seq<Huft>>, keys: seq<Key>, top: nat, key: Key)
    requires Wf(sh, tables, keys)
    requires key.parent == top < |keys|
    requires key.w < sh.g && key.prefix < Pow2(key.w) && 1 <= key.bits <= BMAX
    requires keys[top].w + sh.l == key.w && keys[top].prefix == Low(key.prefix, keys[top].w)
    requires keys[top].bits >= sh.l
    requires Shr(key.prefix, keys[top].w) < |tables[top]|
    requires forall i :: 0 <= i < |keys| && keys[i].w == key.w ==> keys[i].prefix != key.prefix
    ensures Wf(sh, Linking(tables, key.bits, sh.l, top, Shr(key.prefix, keys[top].w)), keys + [key])
  {
    var at := Shr(key.prefix, keys[top].w);
    var tables' := Linking(tables, key.bits, sh.l, top, at);
    var keys' := keys + [key];
    forall i | 0 <= i < |keys'|
      ensures WfTable(sh, tables', keys', i)
    {
      if i < |keys| {
        assert WfTable(sh, tables, keys, i);
        if i > 0 && keys[i].parent == top && Shr(keys[i].prefix, keys[i].w - sh.l) == at {
          Split(keys[i].prefix, keys[top].w);
          Split(key.prefix, keys[top].w);
          assert false;
        }
      }
    }
  }

  lemma GrowStack(sh: Shape, i: nat, h: int, w: int, x: seq<nat>, u: seq<nat>, keys: seq<Key>, key: Key)
    requires Stack(sh, i, h, w, x, u, keys) && h >= 0 && sh.Valid()
    requires key.w == w + sh.l < sh.g && key.prefix == i == Low(i, key.w)
    ensures h + 1 < BMAX
    ensures Stack(sh, i, h + 1, w + sh.l, x[h + 1 := i], u[h + 1 := |keys|], keys + [key])
  {
    assert OnStack(sh, i, h, x, u, keys);
    var x', u' := x[h + 1 := i], u[h + 1 := |keys|];
    forall t | 0 <= t <= h + 1
      ensures OnStack(sh, i, t, x', u', keys + [key])
    {
      if t <= h {
        assert OnStack(sh, i, t, x, u, keys);
      }
    }
  }

  // Lines 239-257: a new table is started for the code (k, r).
  lemma Grow(sh: Shape, src: Source, tables: seq<seq<Huft>>, keys: seq<Key>, k: nat, r: nat,
             i: nat, h: int, w: int, x: seq<nat>, u: seq<nat>, j: nat)
    requires Inv(sh, src, tables, keys, k, r, i, h, w, x, u) && sh.IsCode(k, r)
    requires h >= 0 && k > w + sh.l && j <= BMAX
    requires Wide(sh, w + sh.l, j, sh.Pos(k, r))
    ensures h + 1 < BMAX && u[h] < |tables| && Shr(i, w) < |tables[u[h]]|
    ensures Inv(sh, src, Linking(tables, j, sh.l, u[h], Shr(i, w)),
                keys + [Key(w + sh.l, i, j, u[h])], k, r, i, h + 1, w + sh.l, x[h + 1 := i], u[h + 1 := |keys|])
  {
    hide Wf, AllPlaced, KeysOk, Linking, Shr, Low, Rev, Shl;
    assert OnStack(sh, i, h, x, u, keys);
    GrowTables(sh, src, tables, keys, k, r, i, h, w, x, u, j);
    SmallShr(i, w + sh.l);
    GrowStack(sh, i, h, w, x, u, keys, Key(w + sh.l, i, j, u[h]));
    Pow2Mono(w + sh.l, w + sh.l + sh.l);
  }

  lemma GrowTables(sh: Shape, src: Source, tables: seq<seq<Huft>>, keys: seq<Key>, k: nat, r: nat,
                   i: nat, h: int, w: int, x: seq<nat>, u: seq<nat>, j: nat)
    requires Inv(sh, src, tables, keys, k, r, i, h, w, x, u) && sh.IsCode(k, r)
    requires h >= 0 && k > w + sh.l && j <= BMAX
    requires Wide(sh, w + sh.l, j, sh.Pos(k, r))
    ensures u[h] < |tables| && Shr(i, w) < |tables[u[h]]|
    ensures var tables' := Linking(tables, j, sh.l, u[h], Shr(i, w));
            var keys' := keys + [Key(w + sh.l, i, j, u[h])];
            && Wf(sh, tables', keys')
            && AllPlaced(sh, src, tables', keys', k, r)
            && KeysOk(sh, keys', sh.Pos(k, r), w + sh.l)
  {
    var top := u[h];
    assert OnStack(sh, i, h, x, u, keys);
    var key := Key(w + sh.l, i, j, top);
    TopSlot(sh, tables, keys, k, r, top);
    SmallShr(i, w + sh.l);
    LowLow(i, w, w + sh.l);
    GrowKeys(sh, keys, k, r, w, key);
    hide AllPlaced, KeysOk, Linking, Rev, Shr, Low;
    GrowWf(sh, tables, keys, top, key);
    GrowPlaced(sh, src, tables, keys, k, r, top, key);
  }

  lemma TopSlot(sh: Shape, tables: seq<seq<Huft>>, keys: seq<Key>, k: nat, r: nat, top: nat)
    requires sh.Valid() && sh.IsCode(k, r) && Wf(sh, tables, keys) && top < |keys|
    requires Fits(sh, keys[top]) && keys[top].prefix == Low(sh.Code(k, r), keys[top].w)
    requires keys[top].w + sh.l < k && sh.Code(k, r) < Pow2(keys[top].w + sh.l)
    ensures keys[top].bits >= sh.l
    ensures Shr(sh.Code(k, r), keys[top].w) < |tables[top]|
  {
    ShrBound(sh.Code(k, r), keys[top].w, keys[top].w + sh.l);
    assert WfTable(sh, tables, keys, top);
    Pow2Mono(sh.l, keys[top].bits);
  }

  lemma GrowKeys(sh: Shape, keys: seq<Key>, k: nat, r: nat, w: int, key: Key)
    requires sh.Valid() && sh.IsCode(k, r) && w < key.w && KeysOk(sh, keys, sh.Pos(k, r), w)
    requires key.w < k && key.prefix == sh.Code(k, r) < Pow2(key.w)
    requires Wide(sh, key.w, key.bits, sh.Pos(k, r))
    ensures forall n :: 0 <= n < |keys| && keys[n].w == key.w ==> keys[n].prefix != key.prefix
    ensures KeysOk(sh, keys + [key], sh.Pos(k, r), key.w)
  {
    sh.CodeBounds(k, r);
    forall n | 0 <= n < |keys|
      ensures Started(sh, keys[n], sh.Pos(k, r), key.w)
      ensures keys[n].w == key.w ==> keys[n].prefix != key.prefix
    {
      assert Started(sh, keys[n], sh.Pos(k, r), w);
    }
    RevOfSmall(sh.g, key.w, key.prefix);
    WideFits(sh, key.w, key.bits, sh.Pos(k, r), key.parent);
  }

  lemma GrowPlaced(sh: Shape, src: Source, tables: seq<seq<Huft>>, keys: seq<Key>, k: nat, r: nat, top: nat, key: Key)
    requires sh.Valid() && src.Valid() && sh.IsCode(k, r)
    requires top < |tables| == |keys|
    requires keys[top].w + sh.l < k
    requires keys[top].prefix == Low(sh.Code(k, r), keys[top].w)
    requires Shr(sh.Code(k, r), keys[top].w) < |tables[top]|
    requires AllPlaced(sh, src, tables, keys, k, r)
    ensures AllPlaced(sh, src, Linking(tables, key.bits, sh.l, top, Shr(sh.Code(k, r), keys[top].w)),
                      keys + [key], k, r)
  {
    var tables' := Linking(tables, key.bits, sh.l, top, Shr(sh.Code(k, r), keys[top].w));
    forall k1, r1 | sh.IsCode(k1, r1) && Before(k1, r1, k, r)
      ensures HasPlace(sh, src, tables', keys + [key], k1, r1)
    {
      assert HasPlace(sh, src, tables, keys, k1, r1);
      var i1 :| Placed(sh, src, tables, keys, k1, r1, i1);
      LinkKeepsPlaced(sh, src, tables, keys, k1, r1, i1, k, r, top, key);
    }
  }

  // The root table, started for the first code.
  lemma GrowRoot(sh: Shape, src: Source, k: nat, r: nat, i: nat, w: int, x: seq<nat>, u: seq<nat>, j: nat)
    requires Inv(sh, src, [], [], k, r, i, -1, w, x, u) && sh.IsCode(k, r)
    requires sh.Pos(k, r) == 0 && Wide(sh, 0, j, 0) && sh.l <= j <= BMAX && x[0] == 0
    ensures Inv(sh, src, [seq(Pow2(j), _ => Blank)], [Key(0, 0, j, 0)], k, r, i, 0, 0, x, u[0 := 0])
  {
    var key := Key(0, 0, j, 0);
    RevZero(sh.g);
    NothingBefore(sh, k, r);
    sh.CodeBounds(k, r);
    ShlOne(sh.g);
    SmallShr(0, sh.g);
    WideFits(sh, 0, j, 0, 0);
    assert OnStack(sh, 0, 0, x, u[0 := 0], [key]);
    Pow2Mono(0, sh.l);
  }

  // A code at position 0 is the first one.
  lemma NothingBefore(sh: Shape, k: nat, r: nat)
    requires sh.Valid() && sh.IsCode(k, r) && sh.Pos(k, r) == 0
    ensures forall k1: nat, r1: nat :: sh.IsCode(k1, r1) ==> !Before(k1, r1, k, r)
  {
    forall k1: nat, r1: nat | sh.IsCode(k1, r1)
      ensures !Before(k1, r1, k, r)
    {
      if Before(k1, r1, k, r) {
        sh.CodesOrdered(k1, r1, k, r);
      }
    }
  }

  // ---------------------------------------------------------------- filling

  // `after` is `before` with `entry` at every index that ends in `bits`.
  ghost predicate FilledIn(before: seq<Huft>, after: seq<Huft>, bits: nat, len: nat, entry: Huft) {
    && |after| == |before|
    && forall j :: 0 <= j < |before| ==> after[j] == if Low(j, len) == bits then entry else before[j]
  }

  // No index of a table continues both an earlier code and a later one.
  lemma NoOverlap(sh: Shape, k1: nat, r1: nat, k: nat, r: nat, w: nat, j: nat)
    requires sh.Valid() && sh.IsCode(k1, r1) && sh.IsCode(k, r) && Before(k1, r1, k, r)
    requires w < k1 && Low(sh.Code(k1, r1), w) == Low(sh.Code(k, r), w)
    requires Low(j, k - w) == Shr(sh.Code(k, r), w)
    ensures Low(j, k1 - w) != Shr(sh.Code(k1, r1), w)
  {
    LowLow(j, k1 - w, k - w);
    sh.CodesDisjoint(k1, r1, k, r);
    sh.CodeBounds(k1, r1);
    if Low(j, k1 - w) == Shr(sh.Code(k1, r1), w) {
      Reassemble(sh.Code(k, r), sh.Code(k1, r1), w, k1);
    }
  }

  // b is the first n bits of a if it agrees with a on w bits and on the n - w
  // bits that follow.
  lemma Reassemble(a: nat, b: nat, w: nat, n: nat)
    requires w <= n && Low(a, w) == Low(b, w) && Low(Shr(a, w), n - w) == Shr(b, w)
    ensures Low(a, n) == b
  {
    LowAdd(a, w, n - w);
    Split(b, w);
  }

  // Entering (k, r) in its table leaves earlier codes in place.
  lemma FillKeepsPlaced(sh: Shape, src: Source, tables: seq<seq<Huft>>, keys: seq<Key>, k1: nat, r1: nat, i1: nat,
                        k: nat, r: nat, q: nat, table: seq<Huft>, entry: Huft)
    requires sh.Valid() && src.Valid() && sh.IsCode(k1, r1) && sh.IsCode(k, r) && Before(k1, r1, k, r)
    requires Placed(sh, src, tables, keys, k1, r1, i1)
    requires q < |tables| == |keys| && keys[q].w < k
    requires keys[q].prefix == Low(sh.Code(k, r), keys[q].w)
    requires FilledIn(tables[q], table, Shr(sh.Code(k, r), keys[q].w), k - keys[q].w, entry)
    ensures Placed(sh, src, tables[q := table], keys, k1, r1, i1)
  {
    if i1 == q {
      var w := keys[q].w;
      forall j | 0 <= j < |table| && Low(j, k1 - w) == Shr(sh.Code(k1, r1), w)
        ensures table[j] == tables[q][j]
      {
        if Low(j, k - w) == Shr(sh.Code(k, r), w) {
          NoOverlap(sh, k1, r1, k, r, w, j);
        }
      }
    }
  }

  // The slot of a link is not one the code (k, r) writes to.
  lemma LinkSafe(sh: Shape, k: nat, r: nat, w: nat, key: Key)
    requires sh.Valid() && sh.IsCode(k, r)
    requires w < k <= w + sh.l == key.w <= sh.g
    requires key.prefix < Pow2(key.w) && Low(key.prefix, w) == Low(sh.Code(k, r), w)
    requires Rev(sh.g, key.prefix) < sh.Pos(k, r)
    ensures Low(Shr(key.prefix, w), k - w) != Shr(sh.Code(k, r), w)
  {
    sh.CodeBounds(k, r);
    sh.InInterval(k, r, key.prefix);
    if Low(Shr(key.prefix, w), k - w) == Shr(sh.Code(k, r), w) {
      Reassemble(key.prefix, sh.Code(k, r), w, k);
    }
  }

  lemma FillWf(sh: Shape, tables: seq<seq<Huft>>, keys: seq<Key>, k: nat, r: nat, q: nat, table: seq<Huft>, entry: Huft)
    requires sh.Valid() && sh.IsCode(k, r) && Wf(sh, tables, keys)
    requires q < |keys| && keys[q].w < k <= keys[q].w + sh.l
    requires KeysOk(sh, keys, sh.Pos(k, r), keys[q].w)
    requires keys[q].prefix == Low(sh.Code(k, r), keys[q].w)
    requires FilledIn(tables[q], table, Shr(sh.Code(k, r), keys[q].w), k - keys[q].w, entry)
    ensures Wf(sh, tables[q := table], keys)
  {
    var tables' := tables[q := table];
    forall i | 0 <= i < |keys|
      ensures WfTable(sh, tables', keys, i)
    {
      assert WfTable(sh, tables, keys, i);
      if i > 0 && keys[i].parent == q {
        assert Started(sh, keys[i], sh.Pos(k, r), keys[q].w);
        LinkSafe(sh, k, r, keys[q].w, keys[i]);
      }
    }
  }

  lemma FillPlaces(sh: Shape, src: Source, tables: seq<seq<Huft>>, keys: seq<Key>, k: nat, r: nat, q: nat,
                   table: seq<Huft>)
    requires sh.Valid() && src.Valid() && sh.IsCode(k, r)
    requires q < |tables| == |keys| && keys[q].w < k <= keys[q].w + sh.l && Fits(sh, keys[q])
    requires keys[q].prefix == Low(sh.Code(k, r), keys[q].w)
    requires AllPlaced(sh, src, tables, keys, k, r)
    requires FilledIn(tables[q], table, Shr(sh.Code(k, r), keys[q].w), k - keys[q].w,
                      src.EntryAt(Off(sh.c, k) + r, k - keys[q].w))
    ensures AllPlaced(sh, src, tables[q := table], keys, k, r + 1)
  {
    var tables' := tables[q := table];
    assert Placed(sh, src, tables', keys, k, r, q);
    forall k1: nat, r1: nat | sh.IsCode(k1, r1) && Before(k1, r1, k, r + 1)
      ensures HasPlace(sh, src, tables', keys, k1, r1)
    {
      if Before(k1, r1, k, r) {
        assert HasPlace(sh, src, tables, keys, k1, r1);
        var i1 :| Placed(sh, src, tables, keys, k1, r1, i1);
        FillKeepsPlaced(sh, src, tables, keys, k1, r1, i1, k, r, q, table,
                        src.EntryAt(Off(sh.c, k) + r, k - keys[q].w));
        assert Placed(sh, src, tables', keys, k1, r1, i1);
      } else {
        assert k1 == k && r1 == r;
      }
    }
  }

  // ---------------------------------------------------------------- backing up

  // Closing the tables whose prefix the next code does not have: the next code
  // then starts a block of the first level that is not open.
  lemma BackedUp(sh: Shape, cur: nat, k: nat, w1: nat)
    requires w1 < k <= sh.g && Low(cur, sh.g - k) == 0
    requires Low(Rev(sh.g, cur + Pow2(sh.g - k)), w1) != Low(Rev(sh.g, cur), w1)
    requires cur + Pow2(sh.g - k) < Pow2(sh.g)
    ensures Rev(sh.g, cur + Pow2(sh.g - k)) < Pow2(w1)
  {
    var g := sh.g;
    var next := cur + Pow2(g - k);
    RevPrefix(g, w1, Rev(g, next), Rev(g, cur));
    RevRev(g, cur);
    RevRev(g, next);
    SmallShr(cur, g);
    SmallShr(next, g);
    BlockStep(cur, g - k, g - w1);
    RevMultiple(g, w1, next);
  }

  // Stepping by a whole small block stays in the large block or ends it.
  lemma BlockStep(cur: nat, a: nat, b: nat)
    requires a <= b && Low(cur, a) == 0
    ensures Shr(cur + Pow2(a), b) == Shr(cur, b) || Low(cur + Pow2(a), b) == 0
  {
    var y := Shr(cur, a);
    Split(cur, a);
    ShlPlus(y, 1, a);
    ShlOne(a);
    assert cur + Pow2(a) == Shl(y + 1, a);
    ShlSplit(y, a, b);
    ShlSplit(y + 1, a, b);
    StepCarry(y, b - a);
    ShlOne(a);
  }

  lemma ShlSplit(y: nat, a: nat, b: nat)
    requires a <= b
    ensures Shr(Shl(y, a), b) == Shr(y, b - a)
    ensures Low(Shl(y, a), b) == Shl(Low(y, b - a), a)
  {
    Join(0, y, a);
    ShrShr(Shl(y, a), a, b - a);
    LowAdd(Shl(y, a), a, b - a);
  }

  lemma {:induction false} StepCarry(y: nat, n: nat)
    ensures Shr(y + 1, n) == Shr(y, n) || Low(y + 1, n) == 0
    decreases n
  {
    if n != 0 { StepCarry(y / 2, n - 1); }
  }

  // Lines 283-293: the state at the next code i, with the tables above level h
  // closed.
  lemma Advance(sh: Shape, src: Source, tables: seq<seq<Huft>>, keys: seq<Key>, k: nat, r: nat,
                i: nat, w0: int, next: nat, h: int, w: int, x: seq<nat>, u: seq<nat>)
    requires sh.Valid() && src.Valid() && sh.IsCode(k, r) && i == sh.Code(k, r)
    requires Wf(sh, tables, keys) && KeysOk(sh, keys, sh.Pos(k, r), w0) && AllPlaced(sh, src, tables, keys, k, r + 1)
    requires 0 <= h < BMAX && |x| == BMAX + 1 && |u| == BMAX && u[0] == 0 && x[0] == 0
    requires forall t :: 0 <= t <= h ==> OnStack(sh, i, t, x, u, keys)
    requires OnStack(sh, i, h, x, u, keys) && w == keys[u[h]].w < k
    requires next == Rev(sh.g, sh.Pos(k, r + 1)) && Low(next, w) == x[h] && next < Pow2(w + sh.l)
    ensures Inv(sh, src, tables, keys, k, r + 1, next, h, w, x, u)
  {
    sh.PosNext(k, r);
    forall n | 0 <= n < |keys|
      ensures Started(sh, keys[n], sh.Pos(k, r + 1), w)
    {
      assert Started(sh, keys[n], sh.Pos(k, r), w0);
    }
    forall t | 0 <= t <= h
      ensures OnStack(sh, next, t, x, u, keys)
    {
      assert OnStack(sh, i, t, x, u, keys);
      StackRises(sh, i, t, h, x, u, keys);
      LowLow(i, keys[u[t]].w, w);
      LowLow(next, keys[u[t]].w, w);
    }
  }

  lemma {:induction false} StackRises(sh: Shape, i: nat, t: nat, h: nat, x: seq<nat>, u: seq<nat>, keys: seq<Key>)
    requires t <= h < |x| && h < |u|
    requires forall n :: 0 <= n <= h ==> OnStack(sh, i, n, x, u, keys)
    ensures OnStack(sh, i, t, x, u, keys) && OnStack(sh, i, h, x, u, keys) && keys[u[t]].w <= keys[u[h]].w
    decreases h
  {
    assert OnStack(sh, i, h, x, u, keys);
    if t < h {
      StackRises(sh, i, t, h - 1, x, u, keys);
    }
  }

  lemma NextLength(sh: Shape, src: Source, tables: seq<seq<Huft>>, keys: seq<Key>, k: nat,
                   i: nat, h: int, w: int, x: seq<nat>, u: seq<nat>)
    requires sh.Valid() && k < sh.g
    requires Inv(sh, src, tables, keys, k, sh.c[k], i, h, w, x, u)
    ensures Inv(sh, src, tables, keys, k + 1, 0, i, h, w, x, u)
  {
    sh.EndIsNextStart(k);
  }

  // ---------------------------------------------------------------- walking

  datatype Found = Found(entry: Huft, skipped: nat)

  // Lines 353-361: follow the links from table t, indexed by the next `bits`
  // bits of the stream s; `skipped` bits are dumped before the entry found.
  function Walk(tables: seq<seq<Huft>>, t: nat, bits: nat, s: nat): Found
    decreases |tables| - t
  {
    var j := Low(s, bits);
    if t < |tables| && j < |tables[t]| then
      var entry := tables[t][j];
      if entry.Entry? && entry.e > 16 && entry.e != 99 && entry.v.Table? && t < entry.v.t then
        var rest := Walk(tables, entry.v.t, entry.e - 16, Shr(s, entry.b));
        Found(rest.entry, entry.b + rest.skipped)
      else Found(entry, 0)
    else Found(Blank, 0)
  }

  // Tables other than the first have at most l index bits.
  ghost predicate Narrow(sh: Shape, keys: seq<Key>) {
    forall i :: 0 < i < |keys| ==> keys[i].bits <= sh.l
  }

  function IndexBits(sh: Shape, keys: seq<Key>, i: nat): nat
    requires i < |keys|
  {
    if i == 0 then sh.l else keys[i].bits
  }

  // Tables before the i-th, but for the first one, have at most l index bits.
  ghost predicate NarrowBelow(sh: Shape, keys: seq<Key>, i: nat) {
    forall n :: 0 < n < i && n < |keys| ==> keys[n].bits <= sh.l
  }

  // A stream that starts with a table's prefix is led to that table.
  lemma {:induction false} WalkReaches(sh: Shape, tables: seq<seq<Huft>>, keys: seq<Key>, i: nat, s: nat)
    requires sh.Valid() && Wf(sh, tables, keys) && NarrowBelow(sh, keys, i)
    requires i < |keys| && Low(s, keys[i].w) == keys[i].prefix
    ensures var rest := Walk(tables, i, IndexBits(sh, keys, i), Shr(s, keys[i].w));
            Walk(tables, 0, sh.l, s) == Found(rest.entry, keys[i].w + rest.skipped)
    decreases i
  {
    assert WfTable(sh, tables, keys, i);
    if i > 0 {
      var p := keys[i].parent;
      var w := keys[p].w;
      LowLow(s, w, keys[i].w);
      WalkReaches(sh, tables, keys, p, s);
      assert IndexBits(sh, keys, p) == sh.l;
      assert Low(Shr(s, w), sh.l) == Shr(keys[i].prefix, w);
      LowLow(s, w, keys[i].w);
      WalkLink(tables, p, i, sh.l, keys[i].bits, Shr(s, w));
      ShrShr(s, w, sh.l);
    }
  }

  lemma WalkLink(tables: seq<seq<Huft>>, p: nat, i: nat, l: nat, bits: nat, s: nat)
    requires p < i && p < |tables| && Low(s, l) < |tables[p]|
    requires tables[p][Low(s, l)] == Entry(16 + bits, l, Table(i)) && 1 <= bits <= BMAX
    ensures var rest := Walk(tables, i, bits, Shr(s, l));
            Walk(tables, p, l, s) == Found(rest.entry, l + rest.skipped)
  {
  }

  // A stream that starts with a code is led to the code's entry.
  lemma WalkFinds(sh: Shape, src: Source, tables: seq<seq<Huft>>, keys: seq<Key>, k: nat, r: nat, i: nat, s: nat)
    requires sh.Valid() && src.Valid() && sh.IsCode(k, r) && Wf(sh, tables, keys) && Narrow(sh, keys)
    requires Placed(sh, src, tables, keys, k, r, i)
    requires Low(s, k) == sh.Code(k, r)
    ensures Walk(tables, 0, sh.l, s) == Found(src.EntryAt(Off(sh.c, k) + r, k - keys[i].w), keys[i].w)
  {
    var w := keys[i].w;
    LowLow(s, w, k);
    WalkReaches(sh, tables, keys, i, s);
    WalkInTable(sh, src, tables, keys, k, r, i, Shr(s, w));
  }

  lemma WalkInTable(sh: Shape, src: Source, tables: seq<seq<Huft>>, keys: seq<Key>, k: nat, r: nat, i: nat, s: nat)
    requires sh.Valid() && src.Valid() && sh.IsCode(k, r) && Wf(sh, tables, keys)
    requires Placed(sh, src, tables, keys, k, r, i)
    requires Low(s, k - keys[i].w) == Shr(sh.Code(k, r), keys[i].w)
    ensures Walk(tables, i, IndexBits(sh, keys, i), s) == Found(src.EntryAt(Off(sh.c, k) + r, k - keys[i].w), 0)
  {
    var w := keys[i].w;
    var entry := src.EntryAt(Off(sh.c, k) + r, k - w);
    var bits := IndexBits(sh, keys, i);
    assert WfTable(sh, tables, keys, i);
    EntryFound(tables[i], keys[i].bits, bits, Shr(sh.Code(k, r), w), k - w, entry, s);
    WalkStops(tables, i, bits, s, entry);
  }

  lemma EntryFound(table: seq<Huft>, width: nat, bits: nat, code: nat, len: nat, entry: Huft, s: nat)
    requires |table| == Pow2(width) && len <= bits <= width
    requires Filled(table, code, len, entry) && Low(s, len) == code
    ensures Low(s, bits) < |table| && table[Low(s, bits)] == entry
  {
    Split(s, bits);
    Pow2Mono(bits, width);
    LowLow(s, len, bits);
  }

  lemma WalkStops(tables: seq<seq<Huft>>, i: nat, bits: nat, s: nat, entry: Huft)
    requires i < |tables| && Low(s, bits) < |tables[i]| && tables[i][Low(s, bits)] == entry
    requires entry.Entry? ==> !entry.v.Table?
    ensures Walk(tables, i, bits, s) == Found(entry, 0)
  {
  }

  // The walk stays inside the tables, looks at no more than BMAX bits at a time,
  // dumps no more bits than it looked at, and ends at an entry that was written.
  ghost predicate Sane(tables: seq<seq<Huft>>, t: nat, bits: nat, s: nat)
    decreases |tables| - t
  {
    var j := Low(s, bits);
    && bits <= BMAX && t < |tables| && j < |tables[t]|
    && var entry := tables[t][j];
    && !entry.Blank? && entry.b <= bits
    && (entry.Entry? && entry.e > 16 && entry.e != 99 ==>
          && entry.v.Table? && t < entry.v.t
          && Sane(tables, entry.v.t, entry.e - 16, Shr(s, entry.b)))
  }

  // Every table on the way to a code's table is looked up sanely.
  lemma {:induction false} SaneReaches(sh: Shape, tables: seq<seq<Huft>>, keys: seq<Key>, i: nat, s: nat)
    requires sh.Valid() && Wf(sh, tables, keys) && Narrow(sh, keys)
    requires i < |keys| && Low(s, keys[i].w) == keys[i].prefix
    requires Sane(tables, i, IndexBits(sh, keys, i), Shr(s, keys[i].w))
    ensures Sane(tables, 0, sh.l, s)
    decreases i
  {
    assert WfTable(sh, tables, keys, i);
    if i > 0 {
      var p := keys[i].parent;
      var w := keys[p].w;
      LowLow(s, w, keys[i].w);
      assert IndexBits(sh, keys, p) == sh.l;
      ShrShr(s, w, sh.l);
      SaneLink(tables, p, i, sh.l, keys[i].bits, Shr(s, w));
      SaneReaches(sh, tables, keys, p, s);
    }
  }

  lemma SaneLink(tables: seq<seq<Huft>>, p: nat, i: nat, l: nat, bits: nat, s: nat)
    requires p < i && p < |tables| && Low(s, l) < |tables[p]| && l <= BMAX
    requires tables[p][Low(s, l)] == Entry(16 + bits, l, Table(i)) && 1 <= bits <= BMAX
    requires Sane(tables, i, bits, Shr(s, l))
    ensures Sane(tables, p, l, s)
  {
  }

  lemma SaneCode(sh: Shape, src: Source, tables: seq<seq<Huft>>, keys: seq<Key>, k: nat, r: nat, i: nat, s: nat)
    requires sh.Valid() && src.Valid() && sh.IsCode(k, r) && Wf(sh, tables, keys) && Narrow(sh, keys)
    requires Placed(sh, src, tables, keys, k, r, i)
    requires Low(s, k) == sh.Code(k, r)
    requires forall t :: 0 <= t < |src.e| ==> src.e[t] <= 16 || src.e[t] == 99
    ensures Sane(tables, 0, sh.l, s)
  {
    var w := keys[i].w;
    LowLow(s, w, k);
    SaneInTable(sh, src, tables, keys, k, r, i, Shr(s, w));
    SaneReaches(sh, tables, keys, i, s);
  }

  lemma SaneInTable(sh: Shape, src: Source, tables: seq<seq<Huft>>, keys: seq<Key>, k: nat, r: nat, i: nat, s: nat)
    requires sh.Valid() && src.Valid() && sh.IsCode(k, r) && Wf(sh, tables, keys) && Narrow(sh, keys)
    requires Placed(sh, src, tables, keys, k, r, i)
    requires Low(s, k - keys[i].w) == Shr(sh.Code(k, r), keys[i].w)
    requires forall t :: 0 <= t < |src.e| ==> src.e[t] <= 16 || src.e[t] == 99
    ensures Sane(tables, i, IndexBits(sh, keys, i), s)
  {
    var w := keys[i].w;
    var entry := src.EntryAt(Off(sh.c, k) + r, k - w);
    assert WfTable(sh, tables, keys, i);
    EntryFound(tables[i], keys[i].bits, IndexBits(sh, keys, i), Shr(sh.Code(k, r), w), k - w, entry, s);
    EntrySane(src, Off(sh.c, k) + r, k - w);
  }

  lemma EntrySane(src: Source, t: nat, b: nat)
    requires src.Valid() && forall n :: 0 <= n < |src.e| ==> src.e[n] <= 16 || src.e[n] == 99
    ensures var entry := src.EntryAt(t, b);
            !entry.Blank? && entry.b == b && (entry.Entry? ==> entry.e <= 16 || entry.e == 99)
  {
  }

  // ---------------------------------------------------------- tables too wide

  // There are bits left for every look-up of the walk.
  ghost predicate Fed(tables: seq<seq<Huft>>, t: nat, bits: nat, s: nat, left: int)
    decreases |tables| - t
  {
    var j := Low(s, bits);
    && bits <= left
    && (t < |tables| && j < |tables[t]| ==>
          var entry := tables[t][j];
          entry.Entry? && entry.e > 16 && entry.e != 99 && entry.v.Table? && t < entry.v.t ==>
            Fed(tables, entry.v.t, entry.e - 16, Shr(s, entry.b), left - entry.b))
  }

  // With these bits the entry is looked up and dumped.
  lemma {:induction false} FedEnough(tables: seq<seq<Huft>>, t: nat, bits: nat, s: nat, left: int)
    requires Sane(tables, t, bits, s) && Fed(tables, t, bits, s, left)
    ensures var found := Walk(tables, t, bits, s); !found.entry.Blank? && found.skipped + found.entry.b <= left
    decreases |tables| - t
  {
    var entry := tables[t][Low(s, bits)];
    if entry.Entry? && entry.e > 16 && entry.e != 99 {
      FedEnough(tables, entry.v.t, entry.e - 16, Shr(s, entry.b), left - entry.b);
    }
  }

  lemma FedLink(tables: seq<seq<Huft>>, p: nat, i: nat, l: nat, bits: nat, s: nat, left: int)
    requires p < i && p < |tables| && Low(s, l) < |tables[p]|
    requires tables[p][Low(s, l)] == Entry(16 + bits, l, Table(i)) && 1 <= bits <= BMAX
    ensures Fed(tables, p, l, s, left) <==> Fed(tables, i, bits, Shr(s, l), left - l)
  {
  }

  // Only the look-up in the table of the code counts: those on the way to it look at
  // fewer bits.
  lemma {:induction false} FedReaches(sh: Shape, tables: seq<seq<Huft>>, keys: seq<Key>, i: nat, s: nat, left: int)
    requires sh.Valid() && Wf(sh, tables, keys) && Narrow(sh, keys)
    requires i < |keys| && Low(s, keys[i].w) == keys[i].prefix
    ensures Fed(tables, 0, sh.l, s, left) <==>
            Fed(tables, i, IndexBits(sh, keys, i), Shr(s, keys[i].w), left - keys[i].w)
    decreases i
  {
    assert WfTable(sh, tables, keys, i);
    if i > 0 {
      var p := keys[i].parent;
      var w := keys[p].w;
      LowLow(s, w, keys[i].w);
      assert IndexBits(sh, keys, p) == sh.l;
      ShrShr(s, w, sh.l);
      FedLink(tables, p, i, sh.l, keys[i].bits, Shr(s, w), left - w);
      FedReaches(sh, tables, keys, p, s, left);
    }
  }

  lemma FedStops(table: seq<Huft>, tables: seq<seq<Huft>>, i: nat, bits: nat, s: nat, left: int)
    requires i < |tables| && tables[i] == table && Low(s, bits) < |table|
    requires var entry := table[Low(s, bits)]; entry.Entry? ==> !entry.v.Table?
    ensures Fed(tables, i, bits, s, left) <==> bits <= left
  {
  }

  lemma FedCode(sh: Shape, src: Source, tables: seq<seq<Huft>>, keys: seq<Key>, k: nat, r: nat, i: nat, s: nat,
                left: int)
    requires sh.Valid() && src.Valid() && sh.IsCode(k, r) && Wf(sh, tables, keys) && Narrow(sh, keys)
    requires Placed(sh, src, tables, keys, k, r, i)
    requires Low(s, k) == sh.Code(k, r)
    ensures Fed(tables, 0, sh.l, s, left) <==> keys[i].w + IndexBits(sh, keys, i) <= left
  {
    var w := keys[i].w;
    var entry := src.EntryAt(Off(sh.c, k) + r, k - w);
    LowLow(s, w, k);
    FedReaches(sh, tables, keys, i, s, left);
    assert WfTable(sh, tables, keys, i);
    EntryFound(tables[i], keys[i].bits, IndexBits(sh, keys, i), Shr(sh.Code(k, r), w), k - w, entry, Shr(s, w));
    FedStops(tables[i], tables, i, IndexBits(sh, keys, i), Shr(s, w), left - w);
  }

  // The bits looked at are those the shape needs.
  lemma NeedIs(sh: Shape, tables: seq<seq<Huft>>, keys: seq<Key>, k: nat, r: nat, i: nat, s: nat)
    requires sh.Valid() && sh.IsCode(k, r) && Wf(sh, tables, keys) && Narrow(sh, keys) && Spill(sh, tables, keys)
    requires i < |keys| && keys[i].w < k <= keys[i].w + sh.l && keys[i].prefix == Low(sh.Code(k, r), keys[i].w)
    requires Low(s, k) == sh.Code(k, r)
    ensures sh.Need(s) == keys[i].w + IndexBits(sh, keys, i)
  {
    var w := keys[i].w;
    assert WfTable(sh, tables, keys, i);
    LengthIs(sh, k, r, s);
    KeyLevel(sh, tables, keys, i);
    if i > 0 {
      if w == 0 { KeyAbove(sh, tables, keys, i); }
      LevelIs(sh.l, k, w);
      LowLow(s, w, k);
      assert Snug(sh, keys[i]);
      SnugBlock(sh, keys[i], s);
      NeedBelow(sh, s, k, w, keys[i].bits);
    }
  }

  // The longest code among the strings that share their first w bits with s.
  ghost function LongestWith(sh: Shape, w: nat, s: nat): nat
    requires 1 <= sh.g < |sh.c| && w <= sh.g
  {
    sh.LengthAt(sh.LastOf(Rev(sh.g, s), sh.g - w))
  }

  lemma SnugBlock(sh: Shape, key: Key, s: nat)
    requires Snug(sh, key) && Low(s, key.w) == key.prefix
    ensures var longest := LongestWith(sh, key.w, s);
            longest >= key.w + key.bits && (key.bits >= sh.l || longest == key.w + key.bits)
  {
    BlockOf(sh.g, key.w, s, key.prefix);
  }

  lemma NeedBelow(sh: Shape, s: nat, k: nat, w: nat, bits: nat)
    requires 1 <= sh.g < |sh.c| && 0 < sh.l < k && w <= sh.g && bits <= sh.l
    requires sh.LengthAt(Rev(sh.g, s)) == k && LevelBelow(sh.l, k) == w
    requires var longest := LongestWith(sh, w, s); longest >= w + bits && (bits >= sh.l || longest == w + bits)
    ensures sh.Need(s) == w + bits
  {
  }

  lemma KeyAbove(sh: Shape, tables: seq<seq<Huft>>, keys: seq<Key>, i: nat)
    requires sh.Valid() && Wf(sh, tables, keys) && 0 < i < |keys|
    ensures keys[i].w >= sh.l > 0
  {
    assert WfTable(sh, tables, keys, i);
  }

  lemma LevelIs(l: nat, k: nat, w: nat)
    requires l > 0 && Level(l, w) && w < k <= w + l
    ensures LevelBelow(l, k) == w
  {
    var v := LevelBelow(l, k);
    if v < w { LevelsApart(l, v, w); }
    if w < v { LevelsApart(l, w, v); }
  }

  lemma LengthIs(sh: Shape, k: nat, r: nat, s: nat)
    requires sh.Valid() && sh.IsCode(k, r) && Low(s, k) == sh.Code(k, r)
    ensures sh.LengthAt(Rev(sh.g, s)) == k
  {
    hide Rev, Low, Shl, First;
    var x := Rev(sh.g, s);
    sh.InInterval(k, r, s);
    sh.CodeEnd(k, r);
    RevBound(sh.g, s);
    sh.PosPlus(k, r + 1, sh.c[k] - r - 1);
    sh.PosNext(k, r);
    sh.LengthUpTo(x, 1, k);
    if k > 1 {
      sh.EndIsNextStart(k - 1);
      sh.PosPlus(k, 0, r);
      sh.LengthUpTo(x, 1, k - 1);
    }
  }

  // The block of the streams that start with the w bits of `prefix`.
  lemma BlockOf(g: nat, w: nat, s: nat, prefix: nat)
    requires w <= g && Low(s, w) == prefix
    ensures Shl(Shr(Rev(g, s), g - w), g - w) + (Pow2(g - w) - 1) == Rev(g, prefix) + (Pow2(g - w) - 1)
  {
    Split(s, w);
    RevOfSmall(g, w, prefix);
    RevSplit(g, w, s);
    RevSplit(g, w, prefix);
    RevLow(w, s);
    Split(Rev(g, prefix), g - w);
  }

  // An entry for at most l more bits that is no link, or one never written.
  ghost predicate Shallow(entry: Huft, l: nat) {
    entry.Blank? || (entry.b <= l && (entry.Entry? ==> !entry.v.Table?))
  }

  // Links are only at indices of l bits, whatever the width of the table.
  ghost predicate LinksLow(l: nat, table: seq<Huft>) {
    forall x: nat :: Pow2(l) <= x < |table| ==> Shallow(table[x], l)
  }

  // The code that a table was started for leaves part of its block to longer codes.
  ghost predicate StartedWide(sh: Shape, key: Key) {
    exists k: nat, r: nat :: StartsWide(sh, key, k, r)
  }

  ghost predicate StartsWide(sh: Shape, key: Key, k: nat, r: nat) {
    sh.OverwideAt(k, r, key.w) && sh.Code(k, r) == key.prefix
  }

  // The index width is that of the longest code in the block at cur, w bits down, or
  // less, but then l bits or more.
  ghost predicate SnugAt(sh: Shape, w: nat, j: nat, cur: nat) {
    && 1 <= sh.g < |sh.c| && w <= sh.g
    && var longest := sh.LengthAt(cur + (Pow2(sh.g - w) - 1));
    && longest >= w + j && (j >= sh.l || longest == w + j)
  }

  ghost predicate Snug(sh: Shape, key: Key) {
    SnugAt(sh, key.w, key.bits, Rev(sh.g, key.prefix))
  }

  // Below the root tables are as wide as their codes need, but for those that were
  // started wide, which are just the ones of more than l bits.
  ghost predicate Spill(sh: Shape, tables: seq<seq<Huft>>, keys: seq<Key>) {
    && (forall t :: 0 <= t < |tables| ==> LinksLow(sh.l, tables[t]))
    && (forall i :: 0 < i < |keys| ==> (keys[i].bits > sh.l <==> StartedWide(sh, keys[i])))
    && (forall i :: 0 < i < |keys| ==> Snug(sh, keys[i]))
  }

  lemma SpillNarrow(sh: Shape, tables: seq<seq<Huft>>, keys: seq<Key>)
    requires Spill(sh, tables, keys) && !sh.Overwide()
    ensures Narrow(sh, keys)
  {
    forall i | 0 < i < |keys| ensures keys[i].bits <= sh.l {
      forall k: nat, r: nat ensures !StartsWide(sh, keys[i], k, r) {
        assert !sh.OverwideAt(k, r, keys[i].w);
      }
    }
  }

  lemma BlankLow(l: nat, n: nat)
    ensures LinksLow(l, seq(n, _ => Blank))
  {
  }

  lemma FilledLow(l: nat, before: seq<Huft>, after: seq<Huft>, bits: nat, len: nat, entry: Huft)
    requires LinksLow(l, before) && FilledIn(before, after, bits, len, entry) && Shallow(entry, l)
    ensures LinksLow(l, after)
  {
  }

  lemma {:induction false} KeyLevel(sh: Shape, tables: seq<seq<Huft>>, keys: seq<Key>, i: nat)
    requires sh.Valid() && Wf(sh, tables, keys) && i < |keys|
    ensures Level(sh.l, keys[i].w)
    decreases i
  {
    assert WfTable(sh, tables, keys, i);
    if i > 0 {
      KeyLevel(sh, tables, keys, keys[i].parent);
    }
  }

  // The new table's width follows from the code it is started for.
  lemma NewKey(sh: Shape, key: Key, k: nat, r: nat)
    requires sh.Valid() && sh.IsCode(k, r) && Level(sh.l, key.w) && sh.l <= key.w < k && key.prefix == sh.Code(k, r)
    requires Low(sh.Pos(k, r), sh.g - key.w) == 0
    requires key.bits > sh.l <==>
      key.w + sh.l <= k && (key.w + sh.l < k || sh.Pos(k, r) + Pow2(sh.g - key.w) > sh.End(k))
    ensures key.bits > sh.l <==> StartedWide(sh, key)
  {
    if key.bits > sh.l {
      assert StartsWide(sh, key, k, r);
    }
    if StartedWide(sh, key) {
      var k', r' :| StartsWide(sh, key, k', r');
      SameCode(sh, k, r, k', r');
    }
  }

  lemma SameCode(sh: Shape, k: nat, r: nat, k': nat, r': nat)
    requires sh.Valid() && sh.IsCode(k, r) && sh.IsCode(k', r') && sh.Code(k, r) == sh.Code(k', r')
    ensures k == k' && r == r'
  {
    sh.CodeBounds(k, r);
    sh.CodeBounds(k', r');
    if Before(k, r, k', r') {
      sh.CodesOrdered(k, r, k', r');
    } else if Before(k', r', k, r) {
      sh.CodesOrdered(k', r', k, r);
    }
  }

  lemma GrowSpill(sh: Shape, tables: seq<seq<Huft>>, keys: seq<Key>, top: nat, at: nat, key: Key)
    requires Spill(sh, tables, keys) && top < |tables| && at < |tables[top]| && at < Pow2(sh.l)
    requires (key.bits > sh.l <==> StartedWide(sh, key)) && Snug(sh, key)
    ensures Spill(sh, Linking(tables, key.bits, sh.l, top, at), keys + [key])
  {
    var tables' := Linking(tables, key.bits, sh.l, top, at);
    BlankLow(sh.l, Pow2(key.bits));
    forall t | 0 <= t < |tables'| ensures LinksLow(sh.l, tables'[t]) {
      assert t < |tables| ==> LinksLow(sh.l, tables[t]);
    }
  }

  // The table w bits down on the way to table i.
  lemma {:induction false} Ancestor(sh: Shape, tables: seq<seq<Huft>>, keys: seq<Key>, i: nat, w: nat) returns (a: nat)
    requires sh.Valid() && Wf(sh, tables, keys) && i < |keys| && Level(sh.l, w) && w <= keys[i].w
    ensures a < |keys| && keys[a].w == w && keys[a].prefix == Low(keys[i].prefix, w)
    decreases i
  {
    assert WfTable(sh, tables, keys, i);
    KeyLevel(sh, tables, keys, i);
    if keys[i].w == w {
      a := i;
      SmallShr(keys[i].prefix, w);
    } else {
      LevelsApart(sh.l, w, keys[i].w);
      a := Ancestor(sh, tables, keys, keys[i].parent, w);
      LowLow(keys[i].prefix, w, keys[i].w - sh.l);
    }
  }

  // An overwide shape makes a table below the root too wide.
  lemma SomeWide(sh: Shape, src: Source, tables: seq<seq<Huft>>, keys: seq<Key>) returns (i: nat)
    requires sh.Valid() && src.Valid() && Wf(sh, tables, keys) && AllPlaced(sh, src, tables, keys, sh.g, sh.c[sh.g])
    requires Spill(sh, tables, keys) && sh.Overwide()
    ensures 0 < i < |keys| && keys[i].bits > sh.l
  {
    var k: nat, r: nat, w: nat :| sh.OverwideAt(k, r, w);
    assert Before(k, r, sh.g, sh.c[sh.g]);
    assert HasPlace(sh, src, tables, keys, k, r);
    var i0: nat :| Placed(sh, src, tables, keys, k, r, i0);
    PlacedLevel(sh, tables, keys, k, i0, w);
    i := Ancestor(sh, tables, keys, i0, w);
    StartOfBlock(sh, k, r, w, keys[i0].w);
    assert StartsWide(sh, keys[i], k, r);
  }

  lemma PlacedLevel(sh: Shape, tables: seq<seq<Huft>>, keys: seq<Key>, k: nat, i: nat, w: nat)
    requires sh.Valid() && Wf(sh, tables, keys) && i < |keys| && Level(sh.l, w) && w + sh.l <= k
    requires keys[i].w < k <= keys[i].w + sh.l
    ensures w <= keys[i].w
    ensures w > 0 ==> keys[0].w != w
  {
    assert WfTable(sh, tables, keys, 0);
  }

  // The code at the start of a block has no more bits set than lead to the block.
  lemma StartOfBlock(sh: Shape, k: nat, r: nat, w: nat, w': nat)
    requires sh.Valid() && sh.IsCode(k, r) && w <= w' && w <= sh.g && Low(sh.Pos(k, r), sh.g - w) == 0
    ensures sh.Code(k, r) < Pow2(w) && Low(Low(sh.Code(k, r), w'), w) == sh.Code(k, r)
  {
    LowLow(sh.Code(k, r), w, w');
    RevMultiple(sh.g, w, sh.Pos(k, r));
    SmallShr(sh.Code(k, r), w);
  }

  lemma {:induction false} FirstWide(sh: Shape, keys: seq<Key>, i: nat) returns (n: nat)
    requires 0 < i < |keys| && keys[i].bits > sh.l
    ensures 0 < n < |keys| && keys[n].bits > sh.l && NarrowBelow(sh, keys, n)
    decreases i
  {
    n := i;
    if m: nat :| 0 < m < i && keys[m].bits > sh.l {
      n := FirstWide(sh, keys, m);
    }
  }
}
