// The heap of c/mem.c: an address-ordered list of free chunks, linked through
// headers in the chunks themselves, in two regions of memory around a hole.
module Heap {
  const PARAGRAPH: nat := 16
  const HEADER: nat := 16
  const HOLESTART: nat := 640 * 1024
  const HOLEEND: nat := (1024 + 600) * 1024
  const WORD: nat := 0x1_0000_0000

  // mem_header; addresses are numbers, 0 being NULL.
  datatype Header = Header(size: nat, prev: nat, next: nat, sanity: nat)

  // The addresses from start, size of them: a header and what follows it.
  datatype Chunk = Chunk(start: nat, size: nat) {
    function End(): nat { start + size }

    predicate Has(x: nat) { start <= x < End() }
  }

  // ------------------------------------------------------- lists of chunks

  predicate Aligned(x: nat) {
    x % PARAGRAPH == 0
  }

  predicate WholeChunk(c: Chunk) {
    c.start > 0 && c.size > 0 && Aligned(c.start) && Aligned(c.size)
  }

  // In order of address, each starting no earlier than the one before ends.
  ghost predicate Ordered(list: seq<Chunk>) {
    && (forall i :: 0 <= i < |list| ==> WholeChunk(list[i]))
    && (forall i, j :: 0 <= i < j < |list| ==> list[i].End() <= list[j].start)
  }

  // No two of them adjacent.
  ghost predicate Apart(list: seq<Chunk>) {
    forall i, j :: 0 <= i < j < |list| ==> list[i].End() < list[j].start
  }

  ghost predicate InList(list: seq<Chunk>, x: nat) {
    exists i :: 0 <= i < |list| && list[i].Has(x)
  }

  ghost predicate InLive(live: set<Chunk>, x: nat) {
    exists c :: c in live && c.Has(x)
  }

  ghost predicate Disjoint(live: set<Chunk>) {
    forall c, d :: c in live && d in live && c != d ==> c.End() <= d.start || d.End() <= c.start
  }

  // Free and allocated chunks exactly tile the regions, without overlap.
  ghost predicate Tiled(regions: seq<Chunk>, free: seq<Chunk>, live: set<Chunk>) {
    && Ordered(free) && Apart(free)
    && (forall c :: c in live ==> WholeChunk(c)) && Disjoint(live)
    && (forall x: nat :: InList(regions, x) <==> InList(free, x) || InLive(live, x))
    && (forall x: nat :: !(InList(free, x) && InLive(live, x)))
  }

  // Chunks kept apart are determined by the addresses they cover.
  lemma {:induction false} CoverUnique(a: seq<Chunk>, b: seq<Chunk>)
    requires Ordered(a) && Apart(a) && Ordered(b) && Apart(b)
    requires forall x: nat :: InList(a, x) <==> InList(b, x)
    ensures a == b
  {
    if a == [] || b == [] {
      if b != [] { FirstCovers(b); }
      if a != [] { FirstCovers(a); }
    } else {
      FirstCovers(a);
      FirstCovers(b);
      assert a[0].start == b[0].start;
      FirstEnds(a);
      FirstEnds(b);
      FirstReaches(a, b);
      FirstReaches(b, a);
      forall x: nat ensures InList(a[1..], x) <==> InList(b[1..], x) {
        RestCovers(a, x);
        RestCovers(b, x);
      }
      CoverUnique(a[1..], b[1..]);
      assert a == [a[0]] + a[1..] && b == [b[0]] + b[1..];
    }
  }

  lemma FirstCovers(a: seq<Chunk>)
    requires Ordered(a) && a != []
    ensures InList(a, a[0].start)
    ensures forall x: nat :: InList(a, x) ==> a[0].start <= x
  {
    assert a[0].Has(a[0].start);
    forall x: nat | InList(a, x) ensures a[0].start <= x {
      var i :| 0 <= i < |a| && a[i].Has(x);
    }
  }

  lemma FirstEnds(a: seq<Chunk>)
    requires Ordered(a) && Apart(a) && a != []
    ensures !InList(a, a[0].End())
  {
  }

  lemma FirstReaches(a: seq<Chunk>, b: seq<Chunk>)
    requires Ordered(b) && a != [] && b != [] && a[0].start == b[0].start && a[0].size > 0 && !InList(b, a[0].End())
    ensures b[0].End() <= a[0].End()
  {
    assert !b[0].Has(a[0].End());
  }

  lemma RestCovers(a: seq<Chunk>, x: nat)
    requires Ordered(a) && a != []
    ensures InList(a[1..], x) <==> InList(a, x) && !a[0].Has(x)
  {
    if InList(a[1..], x) {
      var i :| 0 <= i < |a[1..]| && a[1..][i].Has(x);
      assert a[i + 1].Has(x);
    }
    if InList(a, x) && !a[0].Has(x) {
      var i :| 0 <= i < |a| && a[i].Has(x);
      assert a[1..][i - 1].Has(x);
    }
  }

  // The free list is a function of the live blocks: however the heap came to
  // these, it is the same.
  lemma FreeDetermined(regions: seq<Chunk>, free: seq<Chunk>, free': seq<Chunk>, live: set<Chunk>)
    requires Tiled(regions, free, live) && Tiled(regions, free', live)
    ensures free == free'
  {
    forall x: nat ensures InList(free, x) <==> InList(free', x) {
      assert InList(free, x) <==> InList(regions, x) && !InLive(live, x);
      assert InList(free', x) <==> InList(regions, x) && !InLive(live, x);
    }
    CoverUnique(free, free');
  }

  lemma NoneLive(regions: seq<Chunk>)
    requires Ordered(regions) && Apart(regions)
    ensures Tiled(regions, regions, {})
  {
  }

  // With nothing allocated it is the regions themselves.
  lemma AllFree(regions: seq<Chunk>, free: seq<Chunk>)
    requires Ordered(regions) && Apart(regions) && Tiled(regions, free, {})
    ensures free == regions
  {
    assert Tiled(regions, regions, {});
    FreeDetermined(regions, free, regions, {});
  }

  // Free addresses in a row are in one chunk: when no chunk has n bytes, no n
  // bytes in a row are free.
  lemma {:induction false} RunInChunk(free: seq<Chunk>, x: nat, n: nat) returns (i: nat)
    requires Ordered(free) && Apart(free) && n > 0
    requires forall y: nat :: x <= y < x + n ==> InList(free, y)
    ensures i < |free| && free[i].start <= x && x + n <= free[i].End()
  {
    if n == 1 {
      assert InList(free, x);
      i :| 0 <= i < |free| && free[i].Has(x);
    } else {
      i := RunInChunk(free, x, n - 1);
      var y := x + n - 1;
      assert InList(free, y);
      var j :| 0 <= j < |free| && free[j].Has(y);
      assert free[i].Has(y - 1);
      assert j == i;
    }
  }

  // So a request that no chunk is large enough for could not be met at all.
  lemma NoRoom(free: seq<Chunk>, x: nat, n: nat)
    requires Ordered(free) && Apart(free) && n > 0
    requires forall i :: 0 <= i < |free| ==> free[i].size < n
    ensures exists y: nat :: x <= y < x + n && !InList(free, y)
  {
    if forall y: nat :: x <= y < x + n ==> InList(free, y) {
      var i := RunInChunk(free, x, n);
      assert false;
    }
  }

  // -------------------------------------------------------------- requests

  // align_to_paragraph, on 32-bit words.
  function AlignToParagraph(address: nat): (r: nat)
    requires address < WORD
  {
    if address % PARAGRAPH != 0 then (address + PARAGRAPH) % WORD - (address + PARAGRAPH) % WORD % PARAGRAPH
    else address
  }

  lemma AlignsUp(address: nat)
    requires address + PARAGRAPH < WORD
    ensures address <= AlignToParagraph(address) < address + PARAGRAPH && Aligned(AlignToParagraph(address))
  {
  }

  // Line 62: how large a chunk a request needs; the sum is a 32-bit word.
  function Required(size: nat): nat
    requires size < WORD
  {
    (AlignToParagraph(size) + HEADER) % WORD
  }

  const LARGEST: nat := 0xFFFFFFE0

  // Requests other than those for a chunk of no bytes.
  predicate Askable(size: nat) {
    size < WORD && (size > 0 ==> Required(size) > 0)
  }

  // A chunk of the required size has room for the header and the bytes asked for,
  // and less than a paragraph more, exactly up to the largest request; the sums
  // wrap round beyond it, to nothing at all for the first paragraph of sizes.
  lemma RequiredHolds(size: nat)
    requires size < WORD
    ensures HEADER + size <= Required(size) < HEADER + size + PARAGRAPH <==> size <= LARGEST
    ensures HEADER + size <= Required(size) <==> size <= LARGEST
    ensures Required(size) == 0 <==> LARGEST < size <= LARGEST + PARAGRAPH
    ensures Aligned(Required(size))
  {
    var q, r := size / PARAGRAPH, size % PARAGRAPH;
    assert size == PARAGRAPH * q + r;
  }

  // ---------------------------------------------------------------- links

  // The start of chunk i, NULL past the end.
  function StartAt(list: seq<Chunk>, i: nat): nat {
    if i < |list| then list[i].start else 0
  }

  function StartBefore(list: seq<Chunk>, i: nat): nat
    requires i <= |list|
  {
    if i == 0 then 0 else list[i - 1].start
  }

  // The headers in memory link the chunks both ways.
  ghost predicate LinkedAt(mem: map<nat, Header>, list: seq<Chunk>, i: nat)
    requires i < |list|
  {
    var a := list[i].start;
    && a in mem
    && mem[a].size == list[i].size
    && mem[a].prev == StartBefore(list, i)
    && mem[a].next == StartAt(list, i + 1)
  }

  ghost predicate Linked(mem: map<nat, Header>, head: nat, list: seq<Chunk>) {
    head == StartAt(list, 0) && forall i: nat :: i < |list| ==> LinkedAt(mem, list, i)
  }

  // The header x at NULL after n bytes were taken from chunk i.
  ghost function AtNull(x: Header, list: seq<Chunk>, i: nat, n: nat): Header {
    if i < |list| && i + 1 == |list| && n == list[i].size then x.(prev := StartBefore(list, i)) else x
  }

  // Headers of other chunks than the i-th and its neighbours.
  ghost predicate SameFar(mem: map<nat, Header>, mem': map<nat, Header>, list: seq<Chunk>, i: nat) {
    forall j: nat :: j < |list| && (j + 1 < i || j > i + 1) ==>
      var a := list[j].start; a in mem && a in mem' && mem'[a] == mem[a]
  }

  lemma Distinct(list: seq<Chunk>, i: nat, j: nat)
    requires Ordered(list) && i < |list| && j < |list| && i != j
    ensures list[i].start != list[j].start
  {
    assert i < j ==> list[i].End() <= list[j].start;
    assert j < i ==> list[j].End() <= list[i].start;
  }

  // ------------------------------------------------- changes to the list

  // The list after n bytes were taken from the start of chunk i.
  function Taken(list: seq<Chunk>, i: nat, n: nat): seq<Chunk>
    requires i < |list| && n <= list[i].size
  {
    if n == list[i].size then list[..i] + list[i + 1..] else list[i := Chunk(list[i].start + n, list[i].size - n)]
  }

  function Inserted(list: seq<Chunk>, k: nat, c: Chunk): seq<Chunk>
    requires k <= |list|
  {
    list[..k] + [c] + list[k..]
  }

  predicate Touching(list: seq<Chunk>, i: nat) {
    i + 1 < |list| && list[i].End() == list[i + 1].start
  }

  // Chunks i and i + 1 made one if they touch.
  function Coalesced(list: seq<Chunk>, i: nat): seq<Chunk> {
    if Touching(list, i) then
      list[..i] + [Chunk(list[i].start, list[i].size + list[i + 1].size)] + list[i + 2..]
    else list
  }

  lemma UnlinkedList(mem: map<nat, Header>, head: nat, list: seq<Chunk>, i: nat, mem': map<nat, Header>, head': nat)
    requires Linked(mem, head, list) && i < |list| && SameFar(mem, mem', list, i)
    requires head' == if i == 0 then StartAt(list, 1) else head
    requires i > 0 ==>
      var p := list[i - 1].start; p in mem && p in mem' && mem'[p] == mem[p].(next := StartAt(list, i + 1))
    requires i + 1 < |list| ==>
      var x := list[i + 1].start; x in mem && x in mem' && mem'[x] == mem[x].(prev := StartBefore(list, i))
    ensures Linked(mem', head', list[..i] + list[i + 1..])
  {
    var list' := list[..i] + list[i + 1..];
    forall j: nat | j < |list'| ensures LinkedAt(mem', list', j) {
      assert LinkedAt(mem, list, if j < i then j else j + 1);
    }
  }

  lemma ReplacedList(mem: map<nat, Header>, head: nat, list: seq<Chunk>, i: nat, c: Chunk, mem': map<nat, Header>,
                     head': nat)
    requires Linked(mem, head, list) && i < |list| && SameFar(mem, mem', list, i)
    requires head' == if i == 0 then c.start else head
    requires i > 0 ==> var p := list[i - 1].start; p in mem && p in mem' && mem'[p] == mem[p].(next := c.start)
    requires i + 1 < |list| ==> var x := list[i + 1].start; x in mem && x in mem' && mem'[x] == mem[x].(prev := c.start)
    requires c.start in mem' && var h := mem'[c.start];
             h.size == c.size && h.prev == StartBefore(list, i) && h.next == StartAt(list, i + 1)
    ensures Linked(mem', head', list[i := c])
  {
    var list' := list[i := c];
    forall j: nat | j < |list'| ensures LinkedAt(mem', list', j) {
      assert LinkedAt(mem, list, j);
    }
  }

  lemma InsertedList(mem: map<nat, Header>, head: nat, list: seq<Chunk>, k: nat, c: Chunk, mem': map<nat, Header>,
                     head': nat)
    requires Linked(mem, head, list) && k <= |list|
    requires forall j: nat :: j < |list| && j + 1 != k && j != k ==>
               var a := list[j].start; a in mem && a in mem' && mem'[a] == mem[a]
    requires head' == if k == 0 then c.start else head
    requires k > 0 ==> var p := list[k - 1].start; p in mem && p in mem' && mem'[p] == mem[p].(next := c.start)
    requires k < |list| ==> var x := list[k].start; x in mem && x in mem' && mem'[x] == mem[x].(prev := c.start)
    requires c.start in mem' && var h := mem'[c.start];
             h.size == c.size && h.prev == StartBefore(list, k) && h.next == StartAt(list, k)
    ensures Linked(mem', head', Inserted(list, k, c))
  {
    var list' := Inserted(list, k, c);
    forall j: nat | j < |list'| ensures LinkedAt(mem', list', j) {
      if j < k {
        assert LinkedAt(mem, list, j);
      } else if j > k {
        assert LinkedAt(mem, list, j - 1);
      }
    }
  }

  lemma JoinedList(mem: map<nat, Header>, head: nat, list: seq<Chunk>, i: nat, mem': map<nat, Header>)
    requires Linked(mem, head, list) && Touching(list, i)
    requires forall j: nat :: j < |list| && j != i && j != i + 1 && j != i + 2 ==>
               var a := list[j].start; a in mem && a in mem' && mem'[a] == mem[a]
    requires i + 2 < |list| ==>
      var x := list[i + 2].start; x in mem && x in mem' && mem'[x] == mem[x].(prev := list[i].start)
    requires var a := list[i].start; a in mem && a in mem' && var h := mem'[a];
             h == mem[a].(size := list[i].size + list[i + 1].size, next := StartAt(list, i + 2))
    ensures Linked(mem', head, Coalesced(list, i))
  {
    var list' := Coalesced(list, i);
    forall j: nat | j < |list'| ensures LinkedAt(mem', list', j) {
      assert LinkedAt(mem, list, if j <= i then j else j + 1);
      if j == i + 1 { assert list'[j] == list[i + 2]; }
    }
  }

  // ------------------------------------------------- what they cover

  lemma TakenCovers(list: seq<Chunk>, i: nat, n: nat, x: nat)
    requires Ordered(list) && i < |list| && n <= list[i].size
    ensures InList(Taken(list, i, n), x) <==> InList(list, x) && !Chunk(list[i].start, n).Has(x)
  {
    if n == list[i].size {
      GoneCovers(list, i, x);
    } else {
      ShrunkCovers(list, i, n, x);
    }
  }

  lemma GoneCovers(list: seq<Chunk>, i: nat, x: nat)
    requires Ordered(list) && i < |list|
    ensures InList(list[..i] + list[i + 1..], x) <==> InList(list, x) && !list[i].Has(x)
  {
    GoneAt(list, i);
    if InList(list[..i] + list[i + 1..], x) { LeftCovers(list, i, list[..i] + list[i + 1..], x); }
    if InList(list, x) && !list[i].Has(x) { OthersLeft(list, i, list[..i] + list[i + 1..], x); }
  }

  // list' is the list without chunk i.
  ghost predicate Gone(list: seq<Chunk>, i: nat, list': seq<Chunk>) {
    && i < |list| && |list'| == |list| - 1
    && forall j: nat :: j < |list'| ==> list'[j] == list[if j < i then j else j + 1]
  }

  lemma LeftCovers(list: seq<Chunk>, i: nat, list': seq<Chunk>, x: nat)
    requires Ordered(list) && Gone(list, i, list') && InList(list', x)
    ensures InList(list, x) && !list[i].Has(x)
  {
    var j: nat :| j < |list'| && list'[j].Has(x);
    var j' := if j >= i then j + 1 else j;
    assert list[j'].Has(x);
    assert j' < i ==> list[j'].End() <= list[i].start;
    assert i < j' ==> list[i].End() <= list[j'].start;
  }

  lemma OthersLeft(list: seq<Chunk>, i: nat, list': seq<Chunk>, x: nat)
    requires Gone(list, i, list') && InList(list, x) && !list[i].Has(x)
    ensures InList(list', x)
  {
    var j: nat :| j < |list| && list[j].Has(x);
    assert list'[if j > i then j - 1 else j].Has(x);
  }

  lemma GoneAt(list: seq<Chunk>, i: nat)
    requires i < |list|
    ensures Gone(list, i, list[..i] + list[i + 1..])
  {
  }

  lemma ShrunkCovers(list: seq<Chunk>, i: nat, n: nat, x: nat)
    requires Ordered(list) && i < |list| && n < list[i].size
    ensures InList(list[i := Chunk(list[i].start + n, list[i].size - n)], x)
            <==> InList(list, x) && !Chunk(list[i].start, n).Has(x)
  {
    var list' := list[i := Chunk(list[i].start + n, list[i].size - n)];
    if InList(list', x) {
      var j :| 0 <= j < |list'| && list'[j].Has(x);
      assert list[j].Has(x);
    }
    if InList(list, x) && !Chunk(list[i].start, n).Has(x) {
      var j :| 0 <= j < |list| && list[j].Has(x);
      assert list'[j].Has(x);
    }
  }

  lemma TakenOrdered(list: seq<Chunk>, i: nat, n: nat)
    requires Ordered(list) && Apart(list) && i < |list| && 0 < n <= list[i].size && Aligned(n)
    ensures Ordered(Taken(list, i, n)) && Apart(Taken(list, i, n))
  {
    if n == list[i].size {
      GoneAt(list, i);
      GoneOrdered(list, i, Taken(list, i, n));
    } else {
      ShrunkOrdered(list, i, n, Taken(list, i, n));
    }
  }

  lemma GoneOrdered(list: seq<Chunk>, i: nat, list': seq<Chunk>)
    requires Ordered(list) && Apart(list) && Gone(list, i, list')
    ensures Ordered(list') && Apart(list')
  {
    forall a, b | 0 <= a < b < |list'| ensures list'[a].End() < list'[b].start {
      var a', b' := if a < i then a else a + 1, if b < i then b else b + 1;
      assert list'[a] == list[a'] && list'[b] == list[b'];
    }
  }

  lemma ShrunkOrdered(list: seq<Chunk>, i: nat, n: nat, list': seq<Chunk>)
    requires Ordered(list) && Apart(list) && i < |list| && 0 < n < list[i].size && Aligned(n)
    requires list' == list[i := Chunk(list[i].start + n, list[i].size - n)]
    ensures Ordered(list') && Apart(list')
  {
    assert WholeChunk(list'[i]);
  }

  // Allocating keeps the tiling.
  lemma TakenTiled(regions: seq<Chunk>, free: seq<Chunk>, live: set<Chunk>, i: nat, n: nat)
    requires Tiled(regions, free, live) && i < |free| && 0 < n <= free[i].size && Aligned(n)
    ensures Tiled(regions, Taken(free, i, n), live + {Chunk(free[i].start, n)})
    ensures Chunk(free[i].start, n) !in live
  {
    var c, free' := Chunk(free[i].start, n), Taken(free, i, n);
    TakenOrdered(free, i, n);
    LiveApart(regions, free, live, i);
    forall x: nat
      ensures InLive(live + {c}, x) <==> InLive(live, x) || c.Has(x)
      ensures InList(free', x) <==> InList(free, x) && !c.Has(x)
      ensures c.Has(x) ==> InList(free, x)
    {
      LiveMore(live, c, x);
      TakenCovers(free, i, n, x);
      if c.Has(x) { assert free[i].Has(x); }
    }
  }

  lemma LiveMore(live: set<Chunk>, c: Chunk, x: nat)
    ensures InLive(live + {c}, x) <==> InLive(live, x) || c.Has(x)
  {
    if InLive(live, x) {
      var d :| d in live && d.Has(x);
      assert d in live + {c};
    }
    assert c in live + {c};
  }

  // A live block has no address in common with a free chunk.
  lemma LiveApart(regions: seq<Chunk>, free: seq<Chunk>, live: set<Chunk>, i: nat)
    requires Tiled(regions, free, live) && i < |free|
    ensures forall c :: c in live ==> c.End() <= free[i].start || free[i].End() <= c.start
  {
    forall c | c in live ensures c.End() <= free[i].start || free[i].End() <= c.start {
      if c.Has(free[i].start) {
        assert free[i].Has(free[i].start);
        assert InLive(live, free[i].start) && InList(free, free[i].start);
      }
      if free[i].Has(c.start) {
        assert c.Has(c.start);
        assert InLive(live, c.start) && InList(free, c.start);
      }
    }
  }

  // Apart but for the pairs that start with chunks from lo to hi.
  ghost predicate ApartBut(list: seq<Chunk>, lo: int, hi: int) {
    forall i, j :: 0 <= i < j < |list| && !(lo <= i < hi) ==> list[i].End() < list[j].start
  }

  lemma InsertedOrdered(list: seq<Chunk>, k: nat, c: Chunk)
    requires Ordered(list) && Apart(list) && k <= |list| && WholeChunk(c)
    requires forall j :: 0 <= j < k ==> list[j].End() <= c.start
    requires forall j :: k <= j < |list| ==> c.End() <= list[j].start
    ensures Ordered(Inserted(list, k, c)) && ApartBut(Inserted(list, k, c), k - 1, k + 1)
  {
    var list' := Inserted(list, k, c);
    assert forall j: nat :: j < |list'| ==> list'[j] == if j < k then list[j] else if j == k then c else list[j - 1];
    if 0 < k < |list| {
      assert list[k - 1].End() <= c.start < c.End() <= list[k].start;
    }
    forall i, j | 0 <= i < j < |list'| && !(k - 1 <= i < k + 1)
      ensures list'[i].End() < list'[j].start
    {
      if i < k - 1 && j == k {
        assert list[i].End() < list[k - 1].start < list[k - 1].End() <= c.start;
      }
    }
  }

  lemma InsertedCovers(list: seq<Chunk>, k: nat, c: Chunk, x: nat)
    requires k <= |list|
    ensures InList(Inserted(list, k, c), x) <==> InList(list, x) || c.Has(x)
  {
    var list' := Inserted(list, k, c);
    if InList(list', x) {
      var j :| 0 <= j < |list'| && list'[j].Has(x);
      if j < k {
        assert list[j].Has(x);
      } else if j > k {
        assert list[j - 1].Has(x);
      }
    }
    if InList(list, x) {
      var j :| 0 <= j < |list| && list[j].Has(x);
      assert list'[if j < k then j else j + 1].Has(x);
    }
    assert list'[k] == c;
  }

  // list' is the list with chunks i and i + 1, which touch, made one.
  ghost predicate JoinOf(list: seq<Chunk>, i: nat, list': seq<Chunk>) {
    && Touching(list, i) && |list'| == |list| - 1
    && list'[i] == Chunk(list[i].start, list[i].size + list[i + 1].size)
    && (forall j: nat :: j < i ==> list'[j] == list[j])
    && (forall j: nat :: i < j < |list'| ==> list'[j] == list[j + 1])
  }

  lemma CoalescedJoins(list: seq<Chunk>, i: nat)
    requires Touching(list, i)
    ensures JoinOf(list, i, Coalesced(list, i))
  {
  }

  lemma JoinHas(list: seq<Chunk>, i: nat, list': seq<Chunk>, x: nat)
    requires Ordered(list) && JoinOf(list, i, list') && InList(list, x)
    ensures InList(list', x)
  {
    var j :| 0 <= j < |list| && list[j].Has(x);
    assert list'[if j > i then j - 1 else j].Has(x);
  }

  lemma HasJoin(list: seq<Chunk>, i: nat, list': seq<Chunk>, x: nat)
    requires Ordered(list) && JoinOf(list, i, list') && InList(list', x)
    ensures InList(list, x)
  {
    var j :| 0 <= j < |list'| && list'[j].Has(x);
    assert list[if j > i || (j == i && x >= list[i].End()) then j + 1 else j].Has(x);
  }

  lemma CoalescedCovers(list: seq<Chunk>, i: nat, x: nat)
    requires Ordered(list)
    ensures InList(Coalesced(list, i), x) <==> InList(list, x)
  {
    if Touching(list, i) {
      CoalescedJoins(list, i);
      if InList(list, x) { JoinHas(list, i, Coalesced(list, i), x); }
      if InList(Coalesced(list, i), x) { HasJoin(list, i, Coalesced(list, i), x); }
    }
  }

  lemma CoalescedOrdered(list: seq<Chunk>, i: nat, lo: int)
    requires Ordered(list) && ApartBut(list, lo, i + 1) && lo <= i
    ensures Ordered(Coalesced(list, i)) && ApartBut(Coalesced(list, i), lo, i)
  {
    if Touching(list, i) {
      CoalescedJoins(list, i);
      JoinOrdered(list, i, Coalesced(list, i), lo);
    } else if i + 1 < |list| {
      forall j | i < j < |list| ensures list[i].End() < list[j].start {
        if j > i + 1 {
          assert list[i].End() <= list[i + 1].start < list[i + 1].End() <= list[j].start;
        }
      }
    }
  }

  lemma JoinOrdered(list: seq<Chunk>, i: nat, list': seq<Chunk>, lo: int)
    requires Ordered(list) && ApartBut(list, lo, i + 1) && lo <= i && JoinOf(list, i, list')
    ensures Ordered(list') && ApartBut(list', lo, i)
  {
    assert list'[i].End() == list[i + 1].End();
    forall a, b | 0 <= a < b < |list'|
      ensures list'[a].End() <= list'[b].start
      ensures !(lo <= a < i) ==> list'[a].End() < list'[b].start
    {
      var a', b' := if a >= i then a + 1 else a, if b > i then b + 1 else b;
      assert list'[a].End() == list[a'].End() && list'[b].start == list[b'].start;
    }
  }

  // The list after block c was freed: put in its place, at k, and joined with its
  // neighbours.
  function Freed(list: seq<Chunk>, k: nat, c: Chunk): seq<Chunk>
    requires k <= |list|
  {
    var next := Coalesced(Inserted(list, k, c), k);
    if k == 0 then next else Coalesced(next, k - 1)
  }

  // Freeing keeps the tiling.
  lemma FreedTiled(regions: seq<Chunk>, free: seq<Chunk>, live: set<Chunk>, k: nat, c: Chunk)
    requires Tiled(regions, free, live) && c in live && Place(free, k, c.start)
    ensures Tiled(regions, Freed(free, k, c), live - {c})
  {
    var free', live' := Freed(free, k, c), live - {c};
    FreedOrdered(regions, free, live, k, c);
    forall x: nat
      ensures InLive(live, x) <==> InLive(live', x) || c.Has(x)
      ensures InLive(live', x) ==> !c.Has(x)
      ensures InList(free', x) <==> InList(free, x) || c.Has(x)
    {
      assert live == live' + {c};
      LiveMore(live', c, x);
      FreedCovers(free, k, c, x);
    }
  }

  lemma FreedCovers(free: seq<Chunk>, k: nat, c: Chunk, x: nat)
    requires k <= |free| && Ordered(Inserted(free, k, c)) && Ordered(Coalesced(Inserted(free, k, c), k))
    ensures InList(Freed(free, k, c), x) <==> InList(free, x) || c.Has(x)
  {
    var free1 := Inserted(free, k, c);
    InsertedCovers(free, k, c, x);
    CoalescedCovers(free1, k, x);
    if k > 0 { CoalescedCovers(Coalesced(free1, k), k - 1, x); }
  }

  // The place of an address in the list.
  ghost predicate Place(list: seq<Chunk>, k: nat, a: nat) {
    && k <= |list|
    && (forall j :: 0 <= j < k ==> list[j].start < a)
    && (k < |list| ==> a <= list[k].start)
  }

  lemma PlaceBetween(regions: seq<Chunk>, free: seq<Chunk>, live: set<Chunk>, k: nat, c: Chunk)
    requires Tiled(regions, free, live) && c in live && Place(free, k, c.start)
    ensures forall j :: 0 <= j < k ==> free[j].End() <= c.start
    ensures forall j :: k <= j < |free| ==> c.End() <= free[j].start
  {
    forall j | 0 <= j < |free|
      ensures if j < k then free[j].End() <= c.start else c.End() <= free[j].start
    {
      LiveApart(regions, free, live, j);
    }
  }

  lemma FreedOrdered(regions: seq<Chunk>, free: seq<Chunk>, live: set<Chunk>, k: nat, c: Chunk)
    requires Tiled(regions, free, live) && c in live && Place(free, k, c.start)
    ensures Ordered(Inserted(free, k, c)) && Ordered(Coalesced(Inserted(free, k, c), k))
    ensures Ordered(Freed(free, k, c)) && Apart(Freed(free, k, c))
  {
    var free1 := Inserted(free, k, c);
    PlaceBetween(regions, free, live, k, c);
    InsertedOrdered(free, k, c);
    CoalescedOrdered(free1, k, k - 1);
    FreedBelow(Coalesced(free1, k), k);
  }

  // Joining with the chunk below, if there is one.
  lemma FreedBelow(list: seq<Chunk>, k: nat)
    requires Ordered(list) && ApartBut(list, k - 1, k)
    ensures var list' := if k == 0 then list else Coalesced(list, k - 1); Ordered(list') && Apart(list')
  {
    if k > 0 {
      CoalescedOrdered(list, k - 1, k - 1);
    }
  }

  // --------------------------------------------------- changes to the headers

  // Links of the header at a: to NULL, or to headers elsewhere.
  ghost predicate LinksOut(mem: map<nat, Header>, a: nat) {
    && a != 0 && a in mem
    && var p, x := mem[a].prev, mem[a].next;
    && (p != 0 ==> p in mem && p != a)
    && (x != 0 ==> x in mem && x != a && x != p)
  }

  ghost predicate LinksSelf(mem: map<nat, Header>, a: nat) {
    a != 0 && a in mem && mem[a].prev == a == mem[a].next
  }

  // Memory after the chunk at curr was split so that nothing is taken.
  ghost function Turned(mem: map<nat, Header>, curr: nat): map<nat, Header>
    requires LinksOut(mem, curr)
  {
    var h := mem[curr];
    var mem' := if h.next != 0 then mem[h.next := mem[h.next].(prev := curr)] else mem;
    mem'[curr := h.(prev := curr, next := curr)]
  }

  // And after it was handed out: a chunk of no bytes before and after itself.
  ghost function SelfLinked(mem: map<nat, Header>, curr: nat): map<nat, Header>
    requires LinksOut(mem, curr)
  {
    Turned(mem, curr)[curr := Header(0, curr, curr, curr + HEADER)]
  }

  // The header after so many links.
  ghost function Followed(mem: map<nat, Header>, a: nat, links: nat): nat
    decreases links
  {
    if links == 0 || a !in mem then a else Followed(mem, mem[a].next, links - 1)
  }

  // From such a chunk, at the head of the list, the search for a larger one never gets to
  // another.
  lemma {:induction false} GoesRound(mem: map<nat, Header>, curr: nat, links: nat)
    requires LinksOut(mem, curr)
    ensures var mem' := SelfLinked(mem, curr);
            Followed(mem', curr, links) == curr && curr in mem' && mem'[curr].size == 0
  {
    if links > 0 {
      GoesRound(mem, curr, links - 1);
    }
  }

  lemma ListLinksOut(mem: map<nat, Header>, head: nat, list: seq<Chunk>, i: nat)
    requires Linked(mem, head, list) && Ordered(list) && i < |list|
    ensures LinksOut(mem, list[i].start)
    ensures mem[list[i].start].size == list[i].size
    ensures mem[list[i].start].prev == StartBefore(list, i) && mem[list[i].start].next == StartAt(list, i + 1)
  {
    assert LinkedAt(mem, list, i);
    if i > 0 { assert LinkedAt(mem, list, i - 1); }
    if i + 1 < |list| { assert LinkedAt(mem, list, i + 1); }
  }

  // A block in use has its size, and the address of its data as a check.
  ghost predicate Marked(mem: map<nat, Header>, c: Chunk) {
    c.start in mem && mem[c.start].size == c.size && mem[c.start].sanity == c.start + HEADER
  }

  ghost predicate AllMarked(mem: map<nat, Header>, live: set<Chunk>) {
    forall c :: c in live ==> Marked(mem, c)
  }

  // The headers written when n bytes are taken from the chunk at curr with header h. NULL is
  // one of them exactly if all of the last chunk is taken.
  predicate Touches(h: Header, curr: nat, n: nat, a: nat) {
    || a == curr
    || (a == h.prev && a != 0)
    || (a == h.next && a != 0)
    || (a == curr + n && n != h.size)
    || (a == 0 && n == h.size && h.next == 0)
  }

  // What allocating n bytes from the chunk at curr does to memory.
  ghost predicate Allocates(mem: map<nat, Header>, head: nat, curr: nat, n: nat, mem': map<nat, Header>, head': nat)
    requires LinksOut(mem, curr) && n <= mem[curr].size
  {
    var h, left := mem[curr], curr + n;
    var rest := if n == h.size then h.next else left;
    && (forall a :: a in mem && !Touches(h, curr, n, a) ==> a in mem' && mem'[a] == mem[a])
    && (forall a :: a in mem' ==> a in mem || Touches(h, curr, n, a))
    && (n == h.size && h.next == 0 ==> 0 in mem' && mem'[0].prev == h.prev)
    && curr in mem' && mem'[curr].size == n && mem'[curr].sanity == curr + HEADER
    && (n != h.size ==>
          left in mem' && mem'[left].size == h.size - n && mem'[left].prev == h.prev && mem'[left].next == h.next)
    && (h.prev != 0 ==> h.prev in mem' && mem'[h.prev] == mem[h.prev].(next := rest))
    && (h.next != 0 ==> h.next in mem' && mem'[h.next] == mem[h.next].(prev := if n == h.size then h.prev else left))
    && head' == if h.prev == 0 then rest else head
  }

  ghost predicate Splits(mem: map<nat, Header>, curr: nat, n: nat, mem': map<nat, Header>)
    requires LinksOut(mem, curr) && n <= mem[curr].size
  {
    var h, left := mem[curr], curr + n;
    && (forall a :: a in mem && a != curr && a != left && (a != h.next || a == 0) ==> a in mem' && mem'[a] == mem[a])
    && (forall a :: a in mem' ==> a in mem || a == left)
    && curr in mem' && mem'[curr] == h.(next := left)
    && left in mem' && mem'[left].size == h.size - n && mem'[left].prev == curr && mem'[left].next == h.next
    && (h.next != 0 ==> h.next in mem' && mem'[h.next] == mem[h.next].(prev := left))
  }

  // What taking the chunk at curr off the list, as n bytes, does to memory.
  ghost predicate Unlinks(mem: map<nat, Header>, head: nat, curr: nat, n: nat, mem': map<nat, Header>, head': nat)
    requires LinksOut(mem, curr)
  {
    var h := mem[curr];
    && (forall a :: a in mem && a != curr && (a != h.prev || a == 0) && a != h.next ==> a in mem' && mem'[a] == mem[a])
    && (forall a :: a in mem' ==> a in mem || a == h.next)
    && curr in mem' && mem'[curr] == h.(size := n, sanity := curr + HEADER)
    && (h.prev != 0 ==> h.prev in mem' && mem'[h.prev] == mem[h.prev].(next := h.next))
    && h.next in mem' && mem'[h.next].prev == h.prev
    && (h.next in mem ==> mem'[h.next] == mem[h.next].(prev := h.prev))
    && head' == if h.prev == 0 then h.next else head
  }

  lemma SplitAllocates(mem: map<nat, Header>, head: nat, curr: nat, n: nat, mem1: map<nat, Header>,
                       mem': map<nat, Header>, head': nat)
    requires LinksOut(mem, curr) && 0 < n < mem[curr].size && curr + n != mem[curr].prev && curr + n != mem[curr].next
    requires Splits(mem, curr, n, mem1) && LinksOut(mem1, curr) && Unlinks(mem1, head, curr, n, mem', head')
    ensures Allocates(mem, head, curr, n, mem', head')
  {
  }

  // No chunk but the i-th has a header in the i-th, and none is at NULL.
  lemma NoneInside(list: seq<Chunk>, i: nat, n: nat)
    requires Ordered(list) && i < |list| && n < list[i].size
    ensures forall j: nat :: j < |list| && j != i ==> list[j].start != list[i].start + n
    ensures forall j: nat :: j < |list| ==> list[j].start > 0
  {
    forall j: nat | j < |list| && j != i ensures list[j].start != list[i].start + n {
      assert j < i ==> list[j].End() <= list[i].start;
      assert i < j ==> list[i].End() <= list[j].start;
    }
  }

  lemma AllocatedLinks(mem: map<nat, Header>, head: nat, list: seq<Chunk>, i: nat, n: nat, mem': map<nat, Header>,
                       head': nat)
    requires Linked(mem, head, list) && Ordered(list) && i < |list| && 0 < n <= list[i].size
    requires LinksOut(mem, list[i].start) && mem[list[i].start].size == list[i].size
    requires Allocates(mem, head, list[i].start, n, mem', head')
    ensures Linked(mem', head', Taken(list, i, n))
  {
    ListLinksOut(mem, head, list, i);
    NoneInside(list, i, 0);
    forall j: nat | j < |list| && (j + 1 < i || j > i + 1)
      ensures var a := list[j].start; a in mem && a in mem' && mem'[a] == mem[a]
    {
      assert LinkedAt(mem, list, j);
      if i > 0 { Distinct(list, j, i - 1); }
      if i + 1 < |list| { Distinct(list, j, i + 1); }
      Apartness(list, i, j, n);
    }
    if n == list[i].size {
      UnlinkedList(mem, head, list, i, mem', head');
    } else {
      ReplacedList(mem, head, list, i, Chunk(list[i].start + n, list[i].size - n), mem', head');
    }
  }

  // A chunk past the next one does not start where chunk i ends.
  lemma Apartness(list: seq<Chunk>, i: nat, j: nat, n: nat)
    requires Ordered(list) && i < |list| && j < |list| && (j + 1 < i || j > i + 1) && n <= list[i].size
    ensures list[j].start != list[i].start + n
  {
    if j > i + 1 {
      assert list[i].End() <= list[i + 1].start < list[i + 1].End() <= list[j].start;
    } else {
      assert list[j].End() <= list[i].start;
    }
  }

  // The addresses of their headers.
  ghost function Starts(list: seq<Chunk>): set<nat> {
    set i: nat | i < |list| :: list[i].start
  }

  // Other headers than those of these chunks are as they were.
  ghost predicate Keeps(mem: map<nat, Header>, list: seq<Chunk>, mem': map<nat, Header>) {
    && (forall a :: a in mem && a !in Starts(list) ==> a in mem' && mem'[a] == mem[a])
    && (forall a :: a in mem' ==> a in mem)
  }

  // What linking in node between prev and next does to memory.
  ghost predicate LinksIn(mem: map<nat, Header>, head: nat, prev: nat, node: nat, next: nat, mem': map<nat, Header>,
                          head': nat)
    requires node in mem && (prev != 0 ==> prev in mem) && (next != 0 ==> next in mem)
  {
    && (forall a :: a in mem && (a != prev || a == 0) && a != node && (a != next || a == 0) ==>
          a in mem' && mem'[a] == mem[a])
    && (forall a :: a in mem' ==> a in mem)
    && node in mem' && mem'[node] == mem[node].(prev := prev, next := next)
    && (prev != 0 ==> prev in mem' && mem'[prev] == mem[prev].(next := node))
    && (next != 0 ==> next in mem' && mem'[next] == mem[next].(prev := node))
    && head' == if prev == 0 then node else head
  }

  lemma LinkedInList(mem: map<nat, Header>, head: nat, list: seq<Chunk>, k: nat, c: Chunk, mem': map<nat, Header>,
                     head': nat)
    requires Linked(mem, head, list) && Ordered(list) && k <= |list| && Ordered(Inserted(list, k, c))
    requires c.start in mem && mem[c.start].size == c.size
    requires var p, x := StartBefore(list, k), StartAt(list, k); (p != 0 ==> p in mem) && (x != 0 ==> x in mem)
    requires LinksIn(mem, head, StartBefore(list, k), c.start, StartAt(list, k), mem', head')
    ensures Linked(mem', head', Inserted(list, k, c))
    ensures Keeps(mem, Inserted(list, k, c), mem')
  {
    var list' := Inserted(list, k, c);
    assert list'[k] == c;
    if k > 0 { assert list'[k - 1] == list[k - 1]; }
    if k < |list| { assert list'[k + 1] == list[k]; }
    forall j: nat | j < |list| && j + 1 != k && j != k
      ensures var a := list[j].start; a in mem && a in mem' && mem'[a] == mem[a]
    {
      assert LinkedAt(mem, list, j);
      InsertedDistinct(list, k, c, j);
    }
    InsertedList(mem, head, list, k, c, mem', head');
    forall a | a in mem && a !in Starts(list')
      ensures a != c.start && (a != StartBefore(list, k) || a == 0) && (a != StartAt(list, k) || a == 0)
    {
      NotStart(list', a, k);
      if k > 0 { NotStart(list', a, k - 1); }
      if k < |list| { NotStart(list', a, k + 1); }
    }
  }

  lemma NullNoStart(list: seq<Chunk>)
    requires Ordered(list)
    ensures 0 !in Starts(list)
  {
  }

  lemma NotStart(list: seq<Chunk>, a: nat, i: nat)
    requires a !in Starts(list) && i < |list|
    ensures a != list[i].start
  {
  }

  lemma InsertedDistinct(list: seq<Chunk>, k: nat, c: Chunk, j: nat)
    requires Ordered(list) && k <= |list| && Ordered(Inserted(list, k, c)) && j < |list| && j + 1 != k && j != k
    ensures list[j].start != c.start && list[j].start != StartBefore(list, k) && list[j].start != StartAt(list, k)
  {
    var list' := Inserted(list, k, c);
    var j' := if j < k then j else j + 1;
    assert list'[j'] == list[j] && list'[k] == c;
    Distinct(list', j', k);
    if k > 0 { Distinct(list, j, k - 1); }
    if k < |list| { Distinct(list, j, k); }
  }

  // What joining first with second, which it touches, does to memory.
  ghost predicate Joins(mem: map<nat, Header>, first: nat, second: nat, mem': map<nat, Header>)
    requires first in mem && second in mem && (mem[second].next != 0 ==> mem[second].next in mem)
  {
    var x := mem[second].next;
    && (forall a :: a in mem && a != first && (a != x || a == 0) ==> a in mem' && mem'[a] == mem[a])
    && (forall a :: a in mem' ==> a in mem)
    && first in mem' && second + mem[second].size >= first
    && mem'[first] == mem[first].(size := second + mem[second].size - first, next := x)
    && (x != 0 ==> x in mem' && mem'[x] == mem[x].(prev := first))
  }

  lemma JoinsList(mem: map<nat, Header>, head: nat, list: seq<Chunk>, i: nat, mem': map<nat, Header>)
    requires Linked(mem, head, list) && Ordered(list) && Touching(list, i)
    requires list[i].start in mem && list[i + 1].start in mem
    requires var x := mem[list[i + 1].start].next; x != 0 ==> x in mem
    requires Joins(mem, list[i].start, list[i + 1].start, mem')
    ensures Linked(mem', head, Coalesced(list, i)) && Keeps(mem, list, mem')
  {
    ListLinksOut(mem, head, list, i);
    ListLinksOut(mem, head, list, i + 1);
    if i + 2 < |list| {
      ListLinksOut(mem, head, list, i + 2);
      Distinct(list, i, i + 2);
    }
    forall j: nat | j < |list| && j != i && j != i + 1 && j != i + 2
      ensures var a := list[j].start; a in mem && a in mem' && mem'[a] == mem[a]
    {
      JoinsFar(mem, head, list, i, mem', j);
    }
    JoinedList(mem, head, list, i, mem');
    JoinsKeeps(mem, head, list, i, mem');
  }

  lemma JoinsFar(mem: map<nat, Header>, head: nat, list: seq<Chunk>, i: nat, mem': map<nat, Header>, j: nat)
    requires Linked(mem, head, list) && Ordered(list) && i + 1 < |list| && j < |list| && j != i && j != i + 1
             && j != i + 2
    requires list[i].start in mem && list[i + 1].start in mem && mem[list[i + 1].start].next == StartAt(list, i + 2)
    requires StartAt(list, i + 2) != 0 ==> StartAt(list, i + 2) in mem
    requires Joins(mem, list[i].start, list[i + 1].start, mem')
    ensures var a := list[j].start; a in mem && a in mem' && mem'[a] == mem[a]
  {
    ListLinksOut(mem, head, list, j);
    Distinct(list, j, i);
    if i + 2 < |list| { Distinct(list, j, i + 2); }
  }

  lemma JoinsKeeps(mem: map<nat, Header>, head: nat, list: seq<Chunk>, i: nat, mem': map<nat, Header>)
    requires i + 1 < |list| && list[i].start in mem && list[i + 1].start in mem
    requires mem[list[i + 1].start].next == StartAt(list, i + 2)
    requires StartAt(list, i + 2) != 0 ==> StartAt(list, i + 2) in mem
    requires Joins(mem, list[i].start, list[i + 1].start, mem')
    ensures Keeps(mem, list, mem')
  {
    forall a | a in mem && a !in Starts(list)
      ensures a != list[i].start && (a != StartAt(list, i + 2) || a == 0)
    {
      NotStart(list, a, i);
      if i + 2 < |list| { NotStart(list, a, i + 2); }
    }
  }

  // The headers left are among those there were.
  lemma CoalescedStarts(list: seq<Chunk>, i: nat)
    ensures Starts(Coalesced(list, i)) <= Starts(list)
  {
    if Touching(list, i) {
      CoalescedJoins(list, i);
      var list' := Coalesced(list, i);
      forall a | a in Starts(list') ensures a in Starts(list) {
        var j: nat :| j < |list'| && list'[j].start == a;
        assert list[if j <= i then j else j + 1].start == a;
      }
    }
  }

  lemma PlaceInMemory(mem: map<nat, Header>, head: nat, list: seq<Chunk>, k: nat, c: Chunk)
    requires Linked(mem, head, list) && Ordered(list) && k <= |list| && Ordered(Inserted(list, k, c))
    ensures var p, x := StartBefore(list, k), StartAt(list, k);
            (p != 0 ==> p in mem && p != c.start && p != x) && (x != 0 ==> x in mem && x != c.start)
  {
    var list' := Inserted(list, k, c);
    assert list'[k] == c;
    if k > 0 {
      ListLinksOut(mem, head, list, k - 1);
      assert list'[k - 1] == list[k - 1];
      Distinct(list', k - 1, k);
    }
    if k < |list| {
      ListLinksOut(mem, head, list, k);
      assert list'[k + 1] == list[k];
      Distinct(list', k, k + 1);
    }
  }

  lemma KeepsBoth(mem: map<nat, Header>, list: seq<Chunk>, mem1: map<nat, Header>, list1: seq<Chunk>,
                  mem2: map<nat, Header>)
    requires Keeps(mem, list, mem1) && Keeps(mem1, list1, mem2) && Starts(list1) <= Starts(list)
    ensures Keeps(mem, list, mem2)
  {
  }

  // The neighbours of the chunk put in at k, before and after joining it with the
  // one above.
  lemma NextTo(list: seq<Chunk>, k: nat, c: Chunk)
    requires k <= |list|
    ensures var list1 := Inserted(list, k, c); var list2 := Coalesced(list1, k);
            && |list1| == |list| + 1 && list1[k] == c && StartAt(list1, k + 1) == StartAt(list, k)
            && k < |list2| && list2[k].start == c.start
            && (k > 0 ==> list2[k - 1] == list1[k - 1] == list[k - 1])
  {
  }

  // The header of another block in use is not among those written.
  lemma OtherBlock(regions: seq<Chunk>, free: seq<Chunk>, live: set<Chunk>, k: nat, c: Chunk, d: Chunk)
    requires Tiled(regions, free, live) && c in live && d in live && d != c && k <= |free|
    ensures d.start !in Starts(Inserted(free, k, c))
  {
    var list := Inserted(free, k, c);
    NotFree(regions, free, live, d);
    assert c.End() <= d.start || d.End() <= c.start;
    forall j: nat | j < |list| ensures list[j].start != d.start {
      assert list[j] == if j < k then free[j] else if j == k then c else free[j - 1];
    }
  }

  // No header of a block in use is touched.
  lemma AllocateKeeps(regions: seq<Chunk>, free: seq<Chunk>, live: set<Chunk>, mem: map<nat, Header>, head: nat,
                      i: nat, n: nat, mem': map<nat, Header>, head': nat, c: Chunk)
    requires Tiled(regions, free, live) && Linked(mem, head, free) && i < |free| && 0 < n <= free[i].size
    requires LinksOut(mem, free[i].start) && mem[free[i].start].size == free[i].size
    requires Allocates(mem, head, free[i].start, n, mem', head')
    requires c in live && c.start in mem
    ensures c.start in mem' && mem'[c.start] == mem[c.start]
  {
    ListLinksOut(mem, head, free, i);
    NotFree(regions, free, live, c);
    if n < free[i].size {
      LiveApart(regions, free, live, i);
    }
  }

  lemma NotFree(regions: seq<Chunk>, free: seq<Chunk>, live: set<Chunk>, c: Chunk)
    requires Tiled(regions, free, live) && c in live
    ensures forall j: nat :: j < |free| ==> free[j].start != c.start
  {
    forall j: nat | j < |free| ensures free[j].start != c.start {
      LiveApart(regions, free, live, j);
    }
  }

  lemma AllocatedMarked(regions: seq<Chunk>, free: seq<Chunk>, live: set<Chunk>, mem: map<nat, Header>, head: nat,
                        i: nat, n: nat, mem': map<nat, Header>, head': nat)
    requires Tiled(regions, free, live) && Linked(mem, head, free) && AllMarked(mem, live)
    requires i < |free| && 0 < n <= free[i].size
    requires LinksOut(mem, free[i].start) && mem[free[i].start].size == free[i].size
    requires Allocates(mem, head, free[i].start, n, mem', head')
    ensures AllMarked(mem', live + {Chunk(free[i].start, n)})
  {
    forall c | c in live ensures Marked(mem', c) {
      assert Marked(mem, c);
      AllocateKeeps(regions, free, live, mem, head, i, n, mem', head', c);
    }
  }

  lemma FreedMarked(regions: seq<Chunk>, free: seq<Chunk>, live: set<Chunk>, k: nat, c: Chunk,
                    mem: map<nat, Header>, mem': map<nat, Header>)
    requires Tiled(regions, free, live) && c in live && k <= |free|
    requires AllMarked(mem, live) && Keeps(mem, Inserted(free, k, c), mem')
    ensures AllMarked(mem', live - {c})
  {
    forall d | d in live - {c} ensures Marked(mem', d) {
      assert Marked(mem, d);
      OtherBlock(regions, free, live, k, c, d);
    }
  }

  lemma TwoLinked(memstart: nat, first: Header, second: Header)
    requires 0 < memstart < HOLEEND && first.prev == 0 && first.next == HOLEEND
    requires second.prev == memstart && second.next == 0
    ensures Linked(map[memstart := first, HOLEEND := second], memstart,
                   [Chunk(memstart, first.size), Chunk(HOLEEND, second.size)])
  {
  }

  // ------------------------------------------------------------------ the heap

  class Heap {
    // Memory seen as headers; where none was written it holds anything.
    const ram: nat -> Header
    var mem: map<nat, Header>
    var freeList: nat
    // The chunks of the free list, and the blocks in use.
    ghost var free: seq<Chunk>
    ghost var live: set<Chunk>
    ghost const regions: seq<Chunk>

    function Peek(a: nat): Header
      reads this
    {
      if a in mem then mem[a] else ram(a)
    }

    ghost predicate Valid()
      reads this
    {
      && Ordered(regions) && Apart(regions)
      && Tiled(regions, free, live)
      && Linked(mem, freeList, free)
      && AllMarked(mem, live)
    }

    // kmeminit: freemem is the first free address, maxaddr the last of memory.
    constructor (ram: nat -> Header, freemem: nat, maxaddr: nat)
      requires 0 < freemem <= HOLESTART - PARAGRAPH && HOLEEND + PARAGRAPH <= maxaddr < WORD
      ensures Valid() && live == {} && free == regions
      ensures regions == [Chunk(AlignToParagraph(freemem), HOLESTART - AlignToParagraph(freemem)),
                          Chunk(HOLEEND, (maxaddr - HOLEEND) / PARAGRAPH * PARAGRAPH)]
    {
      AlignsUp(freemem);
      this.ram := ram;
      var memstart := AlignToParagraph(freemem);
      var first := Header(HOLESTART - memstart, 0, HOLEEND, 0);
      var second := Header((maxaddr - HOLEEND) / PARAGRAPH * PARAGRAPH, memstart, 0, 0);
      freeList := memstart;
      mem := map[memstart := first, HOLEEND := second];
      regions := [Chunk(memstart, first.size), Chunk(HOLEEND, second.size)];
      free := [Chunk(memstart, first.size), Chunk(HOLEEND, second.size)];
      live := {};
      new;
      NoneLive(regions);
      TwoLinked(memstart, first, second);
    }

    // kmalloc. The block comes from the first chunk that is large enough, number
    // `at`; only if there is none, or nothing is asked for, the result is NULL. A
    // header is written at NULL if and only if all of the last chunk is taken. A size
    // whose chunk comes to no bytes leaves the first chunk linked to itself.
    method Kmalloc(size: nat) returns (ptr: nat, ghost at: nat)
      requires Valid() && size < WORD
      modifies this
      ensures Askable(size) ==> Valid()
      ensures at <= |old(free)| && forall k :: 0 <= k < at ==> old(free)[k].size < Required(size)
      ensures ptr == 0 <==> size == 0 || at == |old(free)|
      ensures ptr == 0 ==> mem == old(mem) && freeList == old(freeList) && live == old(live) && free == old(free)
      ensures ptr != 0 ==>
        at < |old(free)| && Required(size) <= old(free)[at].size && ptr == old(free)[at].start + HEADER
      ensures ptr != 0 && Askable(size) ==>
        && Peek(0) == AtNull(old(Peek(0)), old(free), at, Required(size))
        && free == Taken(old(free), at, Required(size))
        && live == old(live) + {Chunk(old(free)[at].start, Required(size))}
        && Chunk(old(free)[at].start, Required(size)) !in old(live)
      ensures ptr != 0 && !Askable(size) ==>
        && at == 0 && ptr == old(freeList) + HEADER && LinksOut(old(mem), old(freeList))
        && freeList == old(freeList) && mem == SelfLinked(old(mem), freeList)
    {
      at := 0;
      if size == 0 { return 0, 0; }
      var n := ChunkSize(size);
      var curr := freeList;
      while curr != 0
        invariant at <= |free| && curr == StartAt(free, at)
        invariant forall k :: 0 <= k < at ==> free[k].size < n
        decreases |free| - at
      {
        assert LinkedAt(mem, free, at);
        if n <= mem[curr].size {
          if n > 0 {
            Allocate(curr, n, at);
          } else {
            ListLinksOut(mem, freeList, free, 0);
            TakeChunk(curr, n);
          }
          return curr + HEADER, at;
        }
        curr := mem[curr].next;
        at := at + 1;
      }
      StartPositive(free, at);
      ptr := 0;
    }

    // Line 62
    method ChunkSize(size: nat) returns (n: nat)
      requires size < WORD
      ensures n == Required(size) && Aligned(n)
    {
      RequiredHolds(size);
      n := (AlignToParagraph(size) + HEADER) % WORD;
    }

    // Lines 67-88: n bytes from the start of chunk i of the list.
    method Allocate(curr: nat, n: nat, ghost i: nat)
      requires Valid() && i < |free| && curr == free[i].start && 0 < n <= free[i].size && Aligned(n)
      modifies this
      ensures Valid() && free == Taken(old(free), i, n) && live == old(live) + {Chunk(curr, n)}
      ensures Chunk(curr, n) !in old(live)
      ensures Peek(0) == AtNull(old(Peek(0)), old(free), i, n)
    {
      ghost var m, head, list := mem, freeList, free;
      TakenTiled(regions, free, live, i, n);
      ListLinksOut(mem, freeList, free, i);
      StartPositive(free, i + 1);
      assert mem[curr].size == free[i].size;
      TakeChunk(curr, n);
      AllocatedLinks(m, head, list, i, n, mem, freeList);
      AllocatedMarked(regions, list, live, m, head, i, n, mem, freeList);
      free := Taken(free, i, n);
      live := live + {Chunk(curr, n)};
    }

    // Lines 68-76: what is left of the chunk becomes one of its own, behind it, or the
    // chunk itself if nothing is taken.
    method SplitChunk(curr: nat, n: nat)
      requires LinksOut(mem, curr) && n < mem[curr].size && curr + n != mem[curr].prev && curr + n != mem[curr].next
      modifies this`mem
      ensures Peek(0) == old(Peek(0))
      ensures n > 0 ==> Splits(old(mem), curr, n, mem)
      ensures n == 0 ==> mem == Turned(old(mem), curr)
    {
      var leftover := curr + n;
      mem := mem[leftover := Header(mem[curr].size - n, curr, mem[curr].next, Peek(leftover).sanity)];
      if mem[curr].next != 0 {
        mem := mem[mem[curr].next := mem[mem[curr].next].(prev := leftover)];
      }
      mem := mem[curr := mem[curr].(next := leftover)];
    }

    // Lines 67-88
    method TakeChunk(curr: nat, n: nat)
      requires LinksOut(mem, curr) && n <= mem[curr].size && mem[curr].size > 0
      requires n < mem[curr].size ==> curr + n != mem[curr].prev && curr + n != mem[curr].next
      modifies this`mem, this`freeList
      ensures n > 0 ==> Allocates(old(mem), old(freeList), curr, n, mem, freeList)
      ensures n == 0 ==> freeList == old(freeList) && mem == SelfLinked(old(mem), curr)
      ensures var h := old(mem[curr]);
              Peek(0) == if n == h.size && h.next == 0 then old(Peek(0)).(prev := h.prev) else old(Peek(0))
    {
      ghost var m, head := mem, freeList;
      if n != mem[curr].size {
        SplitChunk(curr, n);
        ghost var m1 := mem;
        UnlinkChunk(curr, n);
        if n > 0 { SplitAllocates(m, head, curr, n, m1, mem, freeList); }
      } else {
        UnlinkChunk(curr, n);
      }
    }

    // Lines 78-87
    method UnlinkChunk(curr: nat, n: nat)
      requires LinksOut(mem, curr) || LinksSelf(mem, curr)
      modifies this`mem, this`freeList
      ensures old(LinksOut(mem, curr)) ==> Unlinks(old(mem), old(freeList), curr, n, mem, freeList)
      ensures old(LinksSelf(mem, curr)) ==>
        freeList == old(freeList) && mem == old(mem)[curr := old(mem)[curr].(size := n, sanity := curr + HEADER)]
      ensures var h := old(mem[curr]); Peek(0) == if h.next == 0 then old(Peek(0)).(prev := h.prev) else old(Peek(0))
    {
      if mem[curr].prev != 0 {
        mem := mem[mem[curr].prev := mem[mem[curr].prev].(next := mem[curr].next)];
      } else {
        freeList := mem[curr].next;
      }
      mem := mem[curr := mem[curr].(size := n)];
      // With no next chunk this writes through NULL.
      mem := mem[mem[curr].next := Peek(mem[curr].next).(prev := mem[curr].prev)];
      mem := mem[curr := mem[curr].(sanity := curr + HEADER)];
    }

    // kfree, of a block in use (c, whose place in the list is k), or of an address
    // whose header does not check.
    method Kfree(ptr: nat) returns (ok: bool, ghost c: Chunk, ghost k: nat)
      requires Valid() && ptr >= HEADER
      requires Peek(ptr - HEADER).sanity == ptr ==> exists c :: c in live && c.start == ptr - HEADER
      modifies this
      ensures Valid()
      ensures ok <==> old(Peek(ptr - HEADER).sanity) == ptr
      ensures Peek(0) == old(Peek(0))
      ensures !ok ==> mem == old(mem) && freeList == old(freeList) && live == old(live) && free == old(free)
      ensures ok ==> c in old(live) && c.start == ptr - HEADER && live == old(live) - {c}
      ensures ok ==> Place(old(free), k, c.start) && free == Freed(old(free), k, c)
    {
      c, k := Chunk(0, 0), 0;
      var node := ptr - HEADER;
      if Peek(node).sanity != ptr { return false, c, k; }
      c :| c in live && c.start == node;
      var prev, next := 0, freeList;
      while next != 0 && next < node
        invariant k <= |free| && prev == StartBefore(free, k) && next == StartAt(free, k)
        invariant forall j :: 0 <= j < k ==> free[j].start < node
        decreases |free| - k
      {
        assert LinkedAt(mem, free, k);
        prev := next;
        next := mem[next].next;
        k := k + 1;
      }
      Release(prev, node, next, k, c);
      ok := true;
    }

    // Lines 115-128: put the block in its place and join it with its neighbours.
    method Release(prev: nat, node: nat, next: nat, ghost k: nat, ghost c: Chunk)
      requires Valid() && c in live && c.start == node && Place(free, k, node)
      requires prev == StartBefore(free, k) && next == StartAt(free, k)
      modifies this
      ensures Valid() && live == old(live) - {c} && free == Freed(old(free), k, c) && Peek(0) == old(Peek(0))
    {
      FreedTiled(regions, free, live, k, c);
      FreedOrdered(regions, free, live, k, c);
      ghost var m := mem;
      Rejoin(prev, node, next, k, c);
      NullNoStart(Inserted(free, k, c));
      FreedMarked(regions, free, live, k, c, m, mem);
      free, live := Freed(free, k, c), live - {c};
    }

    method Rejoin(prev: nat, node: nat, next: nat, ghost k: nat, ghost c: Chunk)
      requires Linked(mem, freeList, free) && k <= |free| && Marked(mem, c) && c.start == node
      requires Ordered(free) && Ordered(Inserted(free, k, c)) && Ordered(Coalesced(Inserted(free, k, c), k))
      requires prev == StartBefore(free, k) && next == StartAt(free, k)
      modifies this`mem, this`freeList
      ensures Linked(mem, freeList, Freed(free, k, c)) && Keeps(old(mem), Inserted(free, k, c), mem)
    {
      ghost var list := Inserted(free, k, c);
      NextTo(free, k, c);
      LinkIn(prev, node, next, k, c);
      ghost var m1 := mem;
      CoalesceBlocks(node, next, list, k);
      ghost var list2, m2 := Coalesced(list, k), mem;
      KeepsBoth(old(mem), list, m1, list, m2);
      CoalescedStarts(list, k);
      CoalesceBlocks(prev, node, list2, k - 1);
      KeepsBoth(old(mem), list, m2, list2, mem);
    }

    // Lines 115-126
    method LinkIn(prev: nat, node: nat, next: nat, ghost k: nat, ghost c: Chunk)
      requires Linked(mem, freeList, free) && k <= |free| && Marked(mem, c) && c.start == node
      requires Ordered(free) && Ordered(Inserted(free, k, c))
      requires prev == StartBefore(free, k) && next == StartAt(free, k)
      modifies this`mem, this`freeList
      ensures Linked(mem, freeList, Inserted(free, k, c)) && Keeps(old(mem), Inserted(free, k, c), mem)
    {
      ghost var m, head := mem, freeList;
      PlaceInMemory(mem, freeList, free, k, c);
      if prev != 0 {
        mem := mem[prev := mem[prev].(next := node)];
      } else {
        freeList := node;
      }
      if next != 0 {
        mem := mem[next := mem[next].(prev := node)];
      }
      mem := mem[node := mem[node].(prev := prev)];
      mem := mem[node := mem[node].(next := next)];
      LinkedInList(m, head, free, k, c, mem, freeList);
    }

    // coalesce_blocks, for chunks i and i + 1 of the list or NULL.
    method CoalesceBlocks(first: nat, second: nat, ghost list: seq<Chunk>, ghost i: int)
      requires Linked(mem, freeList, list) && Ordered(list) && -1 <= i < |list|
      requires first == (if i == -1 then 0 else list[i].start) && second == StartAt(list, i + 1)
      modifies this`mem
      ensures Linked(mem, freeList, if i == -1 then list else Coalesced(list, i)) && Keeps(old(mem), list, mem)
    {
      if first == 0 || second == 0 { return; }
      ghost var m := mem;
      ListLinksOut(mem, freeList, list, i);
      ListLinksOut(mem, freeList, list, i + 1);
      if first + HEADER + mem[first].size < second + HEADER { return; }
      mem := mem[first := mem[first].(size := second + HEADER + mem[second].size - (first + HEADER))];
      mem := mem[first := mem[first].(next := mem[second].next)];
      if mem[second].next != 0 {
        mem := mem[mem[second].next := mem[mem[second].next].(prev := first)];
      }
      assert list[i].End() <= list[i + 1].start;
      JoinsList(m, freeList, list, i, mem);
    }
  }

  // Freeing the block just allocated restores the list.
  lemma AllocateFree(regions: seq<Chunk>, free: seq<Chunk>, live: set<Chunk>, i: nat, n: nat, k: nat)
    requires Tiled(regions, free, live) && i < |free| && 0 < n <= free[i].size && Aligned(n)
    requires Place(Taken(free, i, n), k, free[i].start)
    ensures Freed(Taken(free, i, n), k, Chunk(free[i].start, n)) == free
  {
    var c := Chunk(free[i].start, n);
    TakenTiled(regions, free, live, i, n);
    FreedTiled(regions, Taken(free, i, n), live + {c}, k, c);
    assert live + {c} - {c} == live;
    FreeDetermined(regions, Freed(Taken(free, i, n), k, c), free, live);
  }

  // Two blocks leave the same list whichever is freed first.
  lemma FreeOrder(regions: seq<Chunk>, free: seq<Chunk>, live: set<Chunk>, c: Chunk, d: Chunk, j: nat, k: nat,
                  j': nat, k': nat)
    requires Tiled(regions, free, live) && c in live && d in live && c != d
    requires Place(free, j, c.start) && Place(Freed(free, j, c), k, d.start)
    requires Place(free, j', d.start) && Place(Freed(free, j', d), k', c.start)
    ensures Freed(Freed(free, j, c), k, d) == Freed(Freed(free, j', d), k', c)
  {
    FreedTiled(regions, free, live, j, c);
    FreedTiled(regions, Freed(free, j, c), live - {c}, k, d);
    FreedTiled(regions, free, live, j', d);
    FreedTiled(regions, Freed(free, j', d), live - {d}, k', c);
    assert live - {c} - {d} == live - {d} - {c};
    FreeDetermined(regions, Freed(Freed(free, j, c), k, d), Freed(Freed(free, j', d), k', c), live - {c} - {d});
  }

  // ------------------------------------------------------------------ clients

  // Ask for a block, or give back the n-th of those held.
  datatype Request = Ask(size: nat) | GiveUp(n: nat)

  ghost predicate Data(p: nat, live: set<Chunk>) {
    exists c :: c in live && p == c.start + HEADER
  }

  // held are the addresses of all blocks in use, each once.
  ghost predicate Holds(held: seq<nat>, live: set<Chunk>) {
    && (forall i, j :: 0 <= i < j < |held| ==> held[i] != held[j])
    && (forall c :: c in live ==> c.start + HEADER in held)
    && (forall i :: 0 <= i < |held| ==> Data(held[i], live))
  }

  ghost predicate Blocks(live: set<Chunk>) {
    Disjoint(live) && forall c :: c in live ==> WholeChunk(c)
  }

  lemma StartsDiffer(live: set<Chunk>, c: Chunk, d: Chunk)
    requires Blocks(live) && c in live && d in live && c != d
    ensures c.start != d.start
  {
  }

  lemma HoldsMore(held: seq<nat>, live: set<Chunk>, c: Chunk)
    requires Holds(held, live) && c !in live && Blocks(live + {c})
    ensures Holds(held + [c.start + HEADER], live + {c})
  {
    var held', live' := held + [c.start + HEADER], live + {c};
    forall i | 0 <= i < |held|
      ensures held[i] != c.start + HEADER && Data(held[i], live')
    {
      assert Data(held[i], live);
      var d :| d in live && held[i] == d.start + HEADER;
      StartsDiffer(live', c, d);
      assert d in live';
    }
    assert c in live' && Data(c.start + HEADER, live');
    assert held'[|held|] == c.start + HEADER;
  }

  lemma HoldsLess(held: seq<nat>, live: set<Chunk>, n: nat, c: Chunk)
    requires Holds(held, live) && n < |held| && c in live && held[n] == c.start + HEADER && Blocks(live)
    ensures Holds(held[..n] + held[n + 1..], live - {c})
  {
    var held' := held[..n] + held[n + 1..];
    forall d | d in live - {c} ensures d.start + HEADER in held' {
      StartsDiffer(live, c, d);
      OtherHeld(held, n, d.start + HEADER);
    }
    forall i: nat | i < |held'|
      ensures Data(held'[i], live - {c})
      ensures forall j :: 0 <= j < i ==> held'[j] != held'[i]
    {
      StillData(held, live, n, c, i);
    }
  }

  lemma StillData(held: seq<nat>, live: set<Chunk>, n: nat, c: Chunk, i: nat)
    requires Holds(held, live) && n < |held| && c in live && held[n] == c.start + HEADER && i < |held| - 1
    ensures var held' := held[..n] + held[n + 1..];
            Data(held'[i], live - {c}) && forall j :: 0 <= j < i ==> held'[j] != held'[i]
  {
    var held' := held[..n] + held[n + 1..];
    HeldAt(held, n, i);
    OtherData(held[if i < n then i else i + 1], live, c);
    forall j: nat | j < i ensures held'[j] != held'[i] {
      HeldAt(held, n, j);
    }
  }

  lemma HeldAt(held: seq<nat>, n: nat, i: nat)
    requires n < |held| && i < |held| - 1
    ensures (held[..n] + held[n + 1..])[i] == held[if i < n then i else i + 1]
  {
  }

  lemma OtherData(p: nat, live: set<Chunk>, c: Chunk)
    requires Data(p, live) && p != c.start + HEADER
    ensures Data(p, live - {c})
  {
    var d :| d in live && p == d.start + HEADER;
    assert d in live - {c};
  }

  lemma OtherHeld(held: seq<nat>, n: nat, p: nat)
    requires n < |held| && p in held && p != held[n]
    ensures p in held[..n] + held[n + 1..]
  {
    var i :| 0 <= i < |held| && held[i] == p;
    assert (held[..n] + held[n + 1..])[if i < n then i else i - 1] == p;
  }

  // Any run of requests keeps the heap in order, and giving back everything, in
  // any order, restores the two regions.
  method Run(heap: Heap, requests: seq<Request>) returns (held: seq<nat>)
    requires heap.Valid() && heap.live == {}
    requires forall i :: 0 <= i < |requests| && requests[i].Ask? ==> Askable(requests[i].size)
    modifies heap
    ensures heap.Valid() && Holds(held, heap.live)
    ensures held == [] ==> heap.free == heap.regions
  {
    held := [];
    for i := 0 to |requests|
      invariant heap.Valid() && Holds(held, heap.live)
    {
      held := Serve(heap, requests[i], held);
    }
    if held == [] {
      assert heap.live == {};
      AllFree(heap.regions, heap.free);
    }
  }

  method Serve(heap: Heap, request: Request, held0: seq<nat>) returns (held: seq<nat>)
    requires heap.Valid() && Holds(held0, heap.live) && (request.Ask? ==> Askable(request.size))
    modifies heap
    ensures heap.Valid() && Holds(held, heap.live)
  {
    match request
    case Ask(size) => held := ServeAsk(heap, size, held0);
    case GiveUp(n) => held := ServeGiveUp(heap, n, held0);
  }

  method ServeAsk(heap: Heap, size: nat, held0: seq<nat>) returns (held: seq<nat>)
    requires heap.Valid() && Holds(held0, heap.live) && Askable(size)
    modifies heap
    ensures heap.Valid() && Holds(held, heap.live)
  {
    held := held0;
    ghost var list, live := heap.free, heap.live;
    ghost var at;
    var ptr: nat;
    ptr, at := heap.Kmalloc(size);
    if ptr != 0 {
      HeapBlocks(heap);
      HoldsMore(held, live, Chunk(list[at].start, Required(size)));
      held := held + [ptr];
    }
  }

  method ServeGiveUp(heap: Heap, n: nat, held0: seq<nat>) returns (held: seq<nat>)
    requires heap.Valid() && Holds(held0, heap.live)
    modifies heap
    ensures heap.Valid() && Holds(held, heap.live)
  {
    held := held0;
    if n < |held| {
      ghost var live := heap.live;
      ghost var c, k;
      var ok;
      HeldMarked(heap, held, n);
      HeapBlocks(heap);
      ok, c, k := heap.Kfree(held[n]);
      HoldsLess(held, live, n, c);
      held := held[..n] + held[n + 1..];
    }
  }

  lemma HeapBlocks(heap: Heap)
    requires heap.Valid()
    ensures Blocks(heap.live)
  {
  }

  lemma HeldMarked(heap: Heap, held: seq<nat>, n: nat)
    requires heap.Valid() && Holds(held, heap.live) && n < |held|
    ensures held[n] >= HEADER && heap.Peek(held[n] - HEADER).sanity == held[n]
    ensures exists c :: c in heap.live && c.start == held[n] - HEADER
  {
    assert Data(held[n], heap.live);
    var c :| c in heap.live && held[n] == c.start + HEADER;
    assert Marked(heap.mem, c);
  }

  lemma StartPositive(list: seq<Chunk>, i: nat)
    requires Ordered(list) && i <= |list|
    ensures StartAt(list, i) == 0 <==> i == |list|
  {
  }
}
