/**
  The shared-memory allocator without its memory: the chunks that the extents obtained from
  sc_mmap are cut into, and the order of the free list.
*/
module Heaps {
  import opened Basics

  const HEADER: nat := 16
  const FOOTER: nat := 8
  const NODE: nat := 24

  /** A stretch of memory; `ext` is the start of the extent it lies in. */
  datatype Chunk = Chunk(len: nat, pages: nat, live: bool, ext: nat)

  datatype Heap = Heap(
    chunks: map<nat, Chunk>,    // by address
    free: seq<nat>,             // the free list, in list order
    extents: map<nat, nat>)     // start and length of what sc_mmap granted

  const EMPTY: Heap := Heap(map[], [], map[])

  // ----- sizes

  function AllocSize(size: nat): nat {
    (HEADER + size + 7) / 8 * 8 + FOOTER
  }

  function SplitSize(size: nat): nat {
    AllocSize(size) + NODE
  }

  function MmapSize(size: nat): nat {
    (SplitSize(size) + PAGE - 1) / PAGE * PAGE
  }

  lemma Sizes(size: nat)
    ensures AllocSize(size) % 8 == 0 && NODE <= AllocSize(size)
    ensures HEADER + size + FOOTER <= AllocSize(size) < HEADER + size + FOOTER + 8
    ensures MmapSize(size) % PAGE == 0 && SplitSize(size) <= MmapSize(size) < SplitSize(size) + PAGE
  {
  }

  // ----- the free list

  predicate Fits(c: Chunk, size: nat) {
    c.len >= SplitSize(size) || (c.len >= AllocSize(size) && c.pages == 0)
  }

  predicate ListKnown(h: Heap) {
    forall i :: 0 <= i < |h.free| ==> h.free[i] in h.chunks
  }

  /** The position of the first chunk from `i` on that fits, or the length of the list. */
  function FirstFit(h: Heap, size: nat, i: nat): (k: nat)
    requires ListKnown(h) && i <= |h.free|
    ensures i <= k <= |h.free|
    ensures forall j :: i <= j < k ==> !Fits(h.chunks[h.free[j]], size)
    ensures k < |h.free| ==> Fits(h.chunks[h.free[k]], size)
    decreases |h.free| - i
  {
    if i == |h.free| || Fits(h.chunks[h.free[i]], size) then i else FirstFit(h, size, i + 1)
  }

  // ----- steps

  function Grow(h: Heap, base: nat, len: nat): Heap {
    Heap(h.chunks[base := Chunk(len, len / PAGE, false, base)], [base] + h.free, h.extents[base := len])
  }

  /** Cut the chunk at position `i` after `k` bytes; the rest follows it in the list. */
  function Split(h: Heap, i: nat, k: nat): Heap
    requires i < |h.free| && h.free[i] in h.chunks && k < h.chunks[h.free[i]].len
  {
    var a := h.free[i];
    var c := h.chunks[a];
    h.(chunks := h.chunks[a := c.(len := k)][a + k := Chunk(c.len - k, 0, false, c.ext)],
       free := h.free[..i + 1] + [a + k] + h.free[i + 1..])
  }

  function Take(h: Heap, i: nat): Heap
    requires i < |h.free| && h.free[i] in h.chunks
  {
    h.(chunks := h.chunks[h.free[i] := h.chunks[h.free[i]].(live := true)],
       free := h.free[..i] + h.free[i + 1..])
  }

  function Release(h: Heap, a: nat): Heap
    requires a in h.chunks
  {
    h.(chunks := h.chunks[a := h.chunks[a].(live := false)], free := [a] + h.free)
  }

  /** The two-stage split of the chosen chunk, then its removal from the list. */
  function SplitPageHead(h: Heap, i: nat): (Heap, nat)
    requires i < |h.free| && h.free[i] in h.chunks
    requires h.chunks[h.free[i]].pages != 0 ==> h.chunks[h.free[i]].len > NODE
  {
    if h.chunks[h.free[i]].pages != 0 then (Split(h, i, NODE), i + 1) else (h, i)
  }

  function SplitTail(h: Heap, i: nat, size: nat): Heap
    requires i < |h.free| && h.free[i] in h.chunks
  {
    if h.chunks[h.free[i]].len >= SplitSize(size) then Split(h, i, AllocSize(size)) else h
  }

  /** Carve a block for `size` bytes out of the chunk at position `i`. */
  function Serve(h: Heap, i: nat, size: nat): (Heap, nat)
    requires ListKnown(h) && i < |h.free| && Fits(h.chunks[h.free[i]], size)
  {
    var (h', j) := SplitPageHead(h, i);
    var h'' := SplitTail(h', j, size);
    (Take(h'', j), h''.free[j])
  }

  /** sc_malloc: `grant` is what sc_mmap would return.  The result is the address of the block's
      first usable byte. */
  function Malloc(h: Heap, size: nat, grant: Option<nat>): (Heap, Option<nat>)
    requires ListKnown(h)
  {
    var i := FirstFit(h, size, 0);
    if i < |h.free| then
      var (h', a) := Serve(h, i, size);
      (h', Some(a + HEADER))
    else if grant.None? then
      (h, None)
    else
      Sizes(size);
      var (h', a) := Serve(Grow(h, grant.value, MmapSize(size)), 0, size);
      (h', Some(a + HEADER))
  }

  /** The simple view of the heap: which blocks clients own, and how long they are. */
  function Blocks(h: Heap): map<nat, nat> {
    map a | a in h.chunks && h.chunks[a].live :: h.chunks[a].len
  }

  // ----- well-formed heaps

  ghost predicate ChunkOk(h: Heap, a: nat)
    requires a in h.chunks
  {
    var c := h.chunks[a];
    && a % 8 == 0 && c.len % 8 == 0 && c.len >= NODE && a > 0
    && c.ext in h.extents && c.ext <= a && a + c.len <= c.ext + h.extents[c.ext]
    && (a + c.len == c.ext + h.extents[c.ext] || (a + c.len in h.chunks && h.chunks[a + c.len].ext == c.ext))
    && (if a == c.ext then !c.live && c.pages == h.extents[a] / PAGE && c.pages > 0 else c.pages == 0)
  }

  ghost predicate ExtentOk(h: Heap, e: nat)
    requires e in h.extents
  {
    && e > 0 && e % PAGE == 0 && h.extents[e] % PAGE == 0 && h.extents[e] > 0
    && e in h.chunks && h.chunks[e].ext == e
  }

  /** Chunk `a` ends before chunk `b`, if it starts before it. */
  ghost predicate Before(h: Heap, a: nat, b: nat)
    requires a in h.chunks && b in h.chunks
  {
    a < b ==> a + h.chunks[a].len <= b
  }

  ghost predicate Apart(h: Heap) {
    && (forall a, b {:trigger Before(h, a, b)} :: a in h.chunks && b in h.chunks ==> Before(h, a, b))
    && (forall d, e :: d in h.extents && e in h.extents && d < e ==> d + h.extents[d] <= e)
  }

  ghost predicate ListOk(h: Heap) {
    && Distinct(h.free)
    && (forall i :: 0 <= i < |h.free| ==> h.free[i] in h.chunks && !h.chunks[h.free[i]].live)
    && (forall a :: a in h.chunks && !h.chunks[a].live ==> a in h.free)
  }

  ghost predicate Wf(h: Heap) {
    && (forall a {:trigger ChunkOk(h, a)} :: a in h.chunks ==> ChunkOk(h, a))
    && (forall e {:trigger ExtentOk(h, e)} :: e in h.extents ==> ExtentOk(h, e))
    && Apart(h) && ListOk(h)
  }

  /** Between calls every extent starts with a bare page-head node. */
  ghost predicate Settled(h: Heap) {
    forall e :: e in h.extents && e in h.chunks ==> h.chunks[e].len == NODE
  }

  /** What sc_mmap grants: aligned, and disjoint from all earlier grants. */
  ghost predicate FreshExtent(h: Heap, base: nat, len: nat) {
    && base > 0 && base % PAGE == 0 && len % PAGE == 0 && len > 0
    && forall e :: e in h.extents ==> base + len <= e || e + h.extents[e] <= base
  }
}
