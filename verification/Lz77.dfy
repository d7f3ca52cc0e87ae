// The sliding window of inflate.c and its flushing in misc.c: the output so far
// is what was flushed and then the start of the window.
module Lz77 {
  import opened Bits
  import opened Crc
  import opened Deflate

  const WSIZE: nat := 0x8000
  const WORD: nat := 0x1_0000_0000

  // A match no longer than its distance appends a block of what is there.
  lemma {:induction false} CopyBlock(out: seq<Byte>, dist: nat, len: nat)
    requires len <= dist && 1 <= dist <= |out|
    ensures CopyMatch(out, dist, len) == out + out[|out| - dist..|out| - dist + len]
    decreases len
  {
    if len > 0 {
      var next := out + [out[|out| - dist]];
      var at := |out| - dist;
      CopyPart(next, dist, len - 1, out[at + 1..at + len]);
      assert out[at..at + len] == [out[at]] + out[at + 1..at + len];
    }
  }

  lemma {:induction false} CopyPart(out: seq<Byte>, dist: nat, len: nat, part: seq<Byte>)
    requires len <= dist - 1 && 1 <= dist <= |out| && |part| == len
    requires part == out[|out| - dist..|out| - dist + len]
    ensures CopyMatch(out, dist, len) == out + part
    decreases len
  {
    if len > 0 {
      var next := out + [out[|out| - dist]];
      CopyPart(next, dist, len - 1, part[1..]);
      assert part == [part[0]] + part[1..];
    }
  }

  // A match can be copied in pieces.
  lemma {:induction false} CopySplit(out: seq<Byte>, dist: nat, a: nat, b: nat)
    requires 1 <= dist <= |out|
    ensures CopyMatch(out, dist, a + b) == CopyMatch(CopyMatch(out, dist, a), dist, b)
    decreases a
  {
    if a > 0 {
      CopySplit(out + [out[|out| - dist]], dist, a - 1, b);
    }
  }

  // A part of a window s, before its writing place w or past it, is a part of the
  // bytes so far: those flushed (base) and the window up to w.
  lemma WindowPart(base: seq<Byte>, s: seq<Byte>, w: nat, d: nat, e: nat, dist: nat)
    requires |s| == WSIZE <= |base| && w <= WSIZE && d + e <= WSIZE
    requires forall i :: w <= i < WSIZE ==> s[i] == base[|base| - WSIZE + i]
    requires 1 <= dist <= WSIZE && d == BackFrom(w, dist)
    requires d < w ==> d + e <= w
    ensures var h := base + s[..w]; |h| - dist + e <= |h| && s[d..d + e] == h[|h| - dist..|h| - dist + e]
  {
  }

  // `target` is what is left to copy, n bytes, after the bytes h.
  ghost predicate Copying(h: seq<Byte>, dist: nat, n: nat, target: seq<Byte>) {
    1 <= dist <= |h| && CopyMatch(h, dist, n) == target
  }

  lemma CopyingByte(h: seq<Byte>, dist: nat, n: nat, target: seq<Byte>)
    requires Copying(h, dist, n, target) && n > 0
    ensures Copying(h + [h[|h| - dist]], dist, n - 1, target)
  {
  }

  lemma CopyingPart(h: seq<Byte>, dist: nat, e: nat, n: nat, target: seq<Byte>)
    requires Copying(h, dist, n, target) && e <= n
    ensures Copying(CopyMatch(h, dist, e), dist, n - e, target)
  {
    CopySplit(h, dist, e, n - e);
  }

  // The place dist bytes before w, round the window.
  function BackFrom(w: nat, dist: nat): int {
    if dist <= w then w - dist else w + WSIZE - dist
  }

  // d is dist bytes back from w, before it is reduced to a place in the window.
  ghost predicate InStep(d: nat, w: nat, dist: nat) {
    d % WSIZE == (w - dist) % WSIZE
  }

  lemma ChunkFits(d: nat, w: nat, dist: nat)
    requires w < WSIZE && 1 <= dist <= WSIZE && InStep(d, w, dist)
    ensures d % WSIZE == BackFrom(w, dist) < WSIZE
  {
  }

  lemma ChunkMoves(w: nat, e: nat, dist: nat)
    requires w + e <= WSIZE && 1 <= dist <= WSIZE
    ensures BackFrom(w, dist) >= 0
    ensures InStep(BackFrom(w, dist) + e, if w + e == WSIZE then 0 else w + e, dist)
  {
  }

  // A match that does not overlap what it writes appends a part of the window.
  lemma BlockIsMatch(base: seq<Byte>, s: seq<Byte>, w: nat, d: nat, e: nat, dist: nat)
    requires |s| == WSIZE <= |base| && w <= WSIZE && d + e <= WSIZE
    requires forall i :: w <= i < WSIZE ==> s[i] == base[|base| - WSIZE + i]
    requires 1 <= dist <= WSIZE && d == BackFrom(w, dist) && e <= dist
    requires d < w ==> d + e <= w
    ensures dist <= |base + s[..w]|
    ensures CopyMatch(base + s[..w], dist, e) == base + s[..w] + s[d..d + e]
  {
    WindowPart(base, s, w, d, e, dist);
    CopyBlock(base + s[..w], dist, e);
  }

  lemma Extended(was: seq<Byte>, s: seq<Byte>, w: nat, d: nat, e: nat)
    requires |s| == |was| && w + e <= |s| && d + e <= |s| && s[w..w + e] == was[d..d + e] && s[..w] == was[..w]
    ensures s[..w + e] == was[..w] + was[d..d + e]
  {
    assert s[..w + e] == s[..w] + s[w..w + e];
  }

  lemma Behind(base: seq<Byte>, a: seq<Byte>, b: seq<Byte>)
    ensures base + (a + b) == base + a + b
  {
  }

  class Window {
    const slide: array<Byte>
    const sum: Checksum
    ghost const dict: seq<Byte>
    var wp: nat
    var output: seq<Byte>

    // All bytes so far: what the window held at first, the output flushed, and
    // the part of the window written since the last flush.
    ghost function History(): seq<Byte>
      requires wp <= slide.Length
      reads this, slide
    {
      dict + output + slide[..wp]
    }

    // The rest of the window still holds the bytes of the round before.
    ghost predicate Filled()
      reads this, slide, sum, sum.tab
    {
      && slide.Length == WSIZE == |dict| && wp <= WSIZE
      && slide as object != sum.tab
      && (forall i :: wp <= i < WSIZE ==> slide[i] == (dict + output)[|output| + i])
      && sum.TableOk() && sum.crc == CrcBytes(ONES, output)
    }

    ghost predicate Valid()
      reads this, slide, sum, sum.tab
    {
      Filled() && wp < WSIZE
    }

    // The window can hold anything at first.
    constructor (slide: array<Byte>)
      requires slide.Length == WSIZE
      ensures Valid() && this.slide == slide && fresh(sum) && fresh(sum.tab)
      ensures dict == slide[..] && output == [] && wp == 0 && History() == dict
    {
      this.slide, dict := slide, slide[..];
      sum := new Checksum();
      wp, output := 0, [];
    }

    // A byte of the window at a distance back.
    lemma SlideAt(d: nat, dist: nat)
      requires Filled() && d < WSIZE && wp < WSIZE && 1 <= dist <= WSIZE
      requires d == BackFrom(wp, dist)
      ensures dist <= |History()| && slide[d] == History()[|History()| - dist]
    {
    }

    // flush_output(w), on a full window and, at the end of the stream, on the rest.
    method FlushOutput(w: nat)
      requires Filled() && w == wp
      modifies this`wp, this`output, sum`crc
      ensures output == old(output + slide[..wp]) && wp == 0 && sum.crc == CrcBytes(ONES, output)
      ensures History() == old(History())
      ensures w == WSIZE ==> Valid()
    {
      if wp == 0 { return; }
      var checksum := sum.UpdCrc(slide, wp);
      CrcAppend(ONES, output, slide[..wp]);
      ghost var before := History();
      output := output + slide[..wp];
      wp := 0;
      assert History() == before;
    }

    // slide[w++] = b
    method Append(b: Byte)
      requires Valid()
      modifies this`wp, slide
      ensures Filled() && wp == old(wp) + 1 && History() == old(History()) + [b]
    {
      slide[wp] := b;
      wp := wp + 1;
      assert slide[..wp] == old(slide[..wp]) + [b];
      assert History() == old(History()) + [b];
    }

    // Lines 365-370 and 469-474: append a byte, flushing a full window.
    method PutByte(b: Byte)
      requires Valid()
      modifies this`wp, this`output, slide, sum`crc
      ensures Valid() && History() == old(History()) + [b]
    {
      Append(b);
      if wp == WSIZE {
        FlushOutput(wp);
      }
    }

    // memcpy of misc.c, within the window: bytes are copied upwards.
    method Memcpy(dst: nat, src: nat, n: nat)
      requires dst + n <= slide.Length && src + n <= slide.Length
      requires dst <= src || src + n <= dst
      modifies slide
      ensures slide[dst..dst + n] == old(slide[src..src + n])
      ensures forall i :: 0 <= i < slide.Length && !(dst <= i < dst + n) ==> slide[i] == old(slide[i])
    {
      ghost var was := slide[..];
      for i := 0 to n
        invariant forall j :: dst <= j < dst + i ==> slide[j] == was[j - dst + src]
        invariant forall j :: 0 <= j < slide.Length && !(dst <= j < dst + i) ==> slide[j] == was[j]
      {
        slide[dst + i] := slide[src + i];
      }
    }

    // Lines 402-407: e bytes at once.
    method CopyBlockOut(d: nat, e: nat, ghost dist: nat)
      requires Valid() && 1 <= dist <= WSIZE && d == BackFrom(wp, dist)
      requires wp + e <= WSIZE && d + e <= WSIZE
      requires (wp - d) % WORD >= e
      modifies this`wp, slide
      ensures Filled() && wp == old(wp) + e
      ensures dist <= |old(History())| && History() == CopyMatch(old(History()), dist, e)
    {
      ghost var w, was := wp, slide[..];
      assert slide[..w] == was[..w];
      BlockIsMatch(dict + output, was, w, d, e, dist);
      Memcpy(wp, d, e);
      wp := wp + e;
      Extended(was, slide[..], w, d, e);
      assert slide[..][..wp] == slide[..wp];
      Behind(dict + output, was[..w], was[d..d + e]);
    }

    // Lines 409-412: one byte after another.
    method CopyBytesOut(d0: nat, e0: nat, ghost dist: nat)
      requires Valid() && 1 <= dist <= WSIZE && d0 == BackFrom(wp, dist)
      requires wp + e0 <= WSIZE && d0 + e0 <= WSIZE
      modifies this`wp, slide
      ensures Filled() && wp == old(wp) + e0
      ensures dist <= |old(History())| && History() == CopyMatch(old(History()), dist, e0)
    {
      var d, e := d0, e0;
      ghost var target := CopyMatch(History(), dist, e0);
      while e != 0
        invariant 0 <= e <= e0 && wp + e == old(wp) + e0 && d + e == d0 + e0
        invariant Filled() && Copying(History(), dist, e, target)
        invariant e > 0 ==> d == BackFrom(wp, dist)
        decreases e
      {
        CopyByteOut(d, e, dist, target);
        d := d + 1;
        e := e - 1;
      }
    }

    // Line 411
    method CopyByteOut(d: nat, ghost e: nat, ghost dist: nat, ghost target: seq<Byte>)
      requires Valid() && dist <= WSIZE && 0 <= d < WSIZE && d == BackFrom(wp, dist)
      requires e > 0 && Copying(History(), dist, e, target)
      modifies this`wp, slide
      ensures Filled() && wp == old(wp) + 1 && Copying(History(), dist, e - 1, target)
    {
      SlideAt(d, dist);
      CopyingByte(History(), dist, e, target);
      Append(slide[d]);
    }

    // Lines 402-412
    method CopyPiece(d: nat, e: nat, ghost dist: nat)
      requires Valid() && 1 <= dist <= WSIZE && d == BackFrom(wp, dist)
      requires wp + e <= WSIZE && d + e <= WSIZE
      modifies this`wp, slide
      ensures Filled() && wp == old(wp) + e
      ensures dist <= |old(History())| && History() == CopyMatch(old(History()), dist, e)
    {
      if (wp - d) % WORD >= e {
        CopyBlockOut(d, e, dist);
      } else {
        CopyBytesOut(d, e, dist);
      }
    }

    // Lines 400-417: a chunk that ends with the match, at the end of the window or
    // where its source does; a full window is flushed.
    method CopyChunk(d0: nat, n: nat, ghost dist: nat, ghost target: seq<Byte>) returns (d: nat, e: nat)
      requires Valid() && n > 0 && 1 <= dist <= WSIZE && InStep(d0, wp, dist)
      requires Copying(History(), dist, n, target)
      modifies this`wp, this`output, slide, sum`crc
      ensures Valid() && 0 < e <= n && InStep(d, wp, dist)
      ensures Copying(History(), dist, n - e, target)
    {
      ChunkFits(d0, wp, dist);
      d := d0 % WSIZE;
      e := WSIZE - if d > wp then d else wp;
      if e > n { e := n; }
      ChunkMoves(wp, e, dist);
      d := WriteChunk(d, e, n, dist, target);
    }

    // Lines 402-417: the chunk of e bytes, and the flush.
    method WriteChunk(d0: nat, e: nat, ghost n: nat, ghost dist: nat, ghost target: seq<Byte>) returns (d: nat)
      requires Valid() && e <= n && 1 <= dist <= WSIZE && d0 == BackFrom(wp, dist)
      requires wp + e <= WSIZE && d0 + e <= WSIZE && Copying(History(), dist, n, target)
      modifies this`wp, this`output, slide, sum`crc
      ensures Valid() && wp == (if old(wp) + e == WSIZE then 0 else old(wp) + e) && d == d0 + e
      ensures Copying(History(), dist, n - e, target)
    {
      CopyingPart(History(), dist, e, n, target);
      CopyPiece(d0, e, dist);
      d := d0 + e;
      if wp == WSIZE {
        FlushOutput(wp);
      }
    }

    // Lines 398-418: copy a match of n bytes from position start, a distance back.
    method CopyOut(len: nat, start: nat, ghost dist: nat)
      requires Valid() && len > 0 && 1 <= dist <= WSIZE && InStep(start, wp, dist)
      modifies this`wp, this`output, slide, sum`crc
      ensures Valid() && History() == CopyMatch(old(History()), dist, len)
    {
      hide CopyMatch;
      var n, d := len, start;
      ghost var target := CopyMatch(History(), dist, len);
      while n != 0
        invariant 0 <= n && Valid() && Copying(History(), dist, n, target)
        invariant 0 <= d && InStep(d, wp, dist)
        decreases n
      {
        var e;
        d, e := CopyChunk(d, n, dist, target);
        n := n - e;
      }
    }
  }
}
