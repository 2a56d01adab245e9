/** Every step of the allocator keeps the extents exactly tiled by chunks. */
module HeapInvariant {
  import opened Basics
  import opened Heaps

  lemma GrowIsNew(h: Heap, base: nat, len: nat)
    requires Wf(h) && FreshExtent(h, base, len)
    ensures base !in h.chunks && base !in h.extents && base !in h.free
    ensures forall a {:trigger h.chunks[a]} :: a in h.chunks ==>
      h.chunks[a].ext != base && (a + h.chunks[a].len <= base || base + len <= a)
  {
    assert base in h.extents ==> ExtentOk(h, base);
    forall a | a in h.chunks
      ensures h.chunks[a].ext != base && (a + h.chunks[a].len <= base || base + len <= a)
    {
      assert ChunkOk(h, a);
    }
    assert base in h.chunks ==> ChunkOk(h, base);
  }

  lemma WholePages(n: nat)
    requires n > 0 && n % PAGE == 0
    ensures n % 8 == 0 && n >= PAGE && n / PAGE > 0
  {
  }

  lemma GrowKeepsChunks(h: Heap, base: nat, len: nat)
    requires Wf(h) && FreshExtent(h, base, len)
    ensures var g := Grow(h, base, len);
      && (forall a {:trigger ChunkOk(g, a)} :: a in g.chunks ==> ChunkOk(g, a))
      && (forall e {:trigger ExtentOk(g, e)} :: e in g.extents ==> ExtentOk(g, e))
  {
    var g := Grow(h, base, len);
    GrowIsNew(h, base, len);
    WholePages(base);
    WholePages(len);
    forall a | a in g.chunks ensures ChunkOk(g, a) {
      if a != base {
        assert ChunkOk(h, a);
      }
    }
    forall e | e in g.extents ensures ExtentOk(g, e) {
      assert e != base ==> ExtentOk(h, e);
    }
  }

  lemma GrowKeepsWf(h: Heap, base: nat, len: nat)
    requires Wf(h) && FreshExtent(h, base, len)
    ensures Wf(Grow(h, base, len))
  {
    var g := Grow(h, base, len);
    GrowIsNew(h, base, len);
    GrowKeepsChunks(h, base, len);
    forall a, b | a in g.chunks && b in g.chunks ensures Before(g, a, b) {
      assert a != base && b != base ==> Before(h, a, b);
    }
    assert ListOk(g);
  }

  // ----- splitting

  ghost predicate CanSplit(h: Heap, i: nat, k: nat) {
    && Wf(h) && i < |h.free| && h.free[i] in h.chunks
    && k % 8 == 0 && NODE <= k && k + NODE <= h.chunks[h.free[i]].len
  }

  lemma SplitIsNew(h: Heap, i: nat, k: nat)
    requires CanSplit(h, i, k)
    ensures h.free[i] + k !in h.chunks && h.free[i] + k !in h.extents
  {
    var a := h.free[i];
    assert a + k in h.chunks ==> Before(h, a, a + k);
    assert a + k in h.extents ==> ExtentOk(h, a + k);
  }

  /** Chunk `a` is cut in two; what follows it is still there. */
  lemma CutChunk(h: Heap, i: nat, k: nat)
    requires CanSplit(h, i, k)
    ensures var g, a := Split(h, i, k), h.free[i];
      a in g.chunks && a + k in g.chunks && ChunkOk(g, a) && ChunkOk(g, a + k)
  {
    SplitIsNew(h, i, k);
    assert ChunkOk(h, h.free[i]);
  }

  lemma SplitKeepsChunk(h: Heap, i: nat, k: nat, b: nat)
    requires CanSplit(h, i, k) && b in Split(h, i, k).chunks
    ensures ChunkOk(Split(h, i, k), b)
  {
    var a := h.free[i];
    CutChunk(h, i, k);
    if b != a && b != a + k {
      assert ChunkOk(h, b);
    }
  }

  lemma SplitKeepsChunks(h: Heap, i: nat, k: nat)
    requires CanSplit(h, i, k)
    ensures var g := Split(h, i, k);
      && (forall b {:trigger ChunkOk(g, b)} :: b in g.chunks ==> ChunkOk(g, b))
      && (forall e {:trigger ExtentOk(g, e)} :: e in g.extents ==> ExtentOk(g, e))
  {
    var g := Split(h, i, k);
    SplitIsNew(h, i, k);
    forall b | b in g.chunks ensures ChunkOk(g, b) {
      SplitKeepsChunk(h, i, k, b);
    }
    forall e | e in g.extents ensures ExtentOk(g, e) {
      assert ExtentOk(h, e);
    }
  }

  lemma SplitKeepsApart(h: Heap, i: nat, k: nat)
    requires CanSplit(h, i, k)
    ensures Apart(Split(h, i, k))
  {
    var g, a := Split(h, i, k), h.free[i];
    forall x, y | x in g.chunks && y in g.chunks ensures Before(g, x, y) {
      var x', y' := if x == a + k then a else x, if y == a + k then a else y;
      assert Before(h, x', y') && Before(h, y', x');
    }
  }

  lemma InsertKeepsDistinct(s: seq<nat>, i: nat, x: nat)
    requires Distinct(s) && x !in s && i < |s|
    ensures var t := s[..i + 1] + [x] + s[i + 1..];
      Distinct(t) && forall y :: y in t <==> y in s || y == x
  {
    var t := s[..i + 1] + [x] + s[i + 1..];
    assert forall j :: 0 <= j < |t| ==> t[j] == if j <= i then s[j] else if j == i + 1 then x else s[j - 1];
    assert s == s[..i + 1] + s[i + 1..];
  }

  lemma SplitKeepsList(h: Heap, i: nat, k: nat)
    requires ListOk(h) && i < |h.free| && 0 < k < h.chunks[h.free[i]].len && h.free[i] + k !in h.chunks
    ensures ListOk(Split(h, i, k))
  {
    InsertKeepsDistinct(h.free, i, h.free[i] + k);
    var g := Split(h, i, k);
    forall j | 0 <= j < |g.free| ensures g.free[j] in g.chunks && !g.chunks[g.free[j]].live {
      assert g.free[j] in g.free;
    }
  }

  lemma SplitKeepsWf(h: Heap, i: nat, k: nat)
    requires CanSplit(h, i, k)
    ensures Wf(Split(h, i, k))
  {
    SplitKeepsChunks(h, i, k);
    SplitKeepsApart(h, i, k);
    SplitIsNew(h, i, k);
    SplitKeepsList(h, i, k);
  }

  // ----- taking and giving back

  lemma TakeKeepsWf(h: Heap, i: nat)
    requires Wf(h) && i < |h.free| && h.chunks[h.free[i]].pages == 0
    ensures Wf(Take(h, i))
  {
    var g, a := Take(h, i), h.free[i];
    assert ChunkOk(h, a);
    forall b | b in g.chunks ensures ChunkOk(g, b) {
      assert ChunkOk(h, b);
    }
    forall e | e in g.extents ensures ExtentOk(g, e) {
      assert ExtentOk(h, e);
    }
    forall x, y | x in g.chunks && y in g.chunks ensures Before(g, x, y) {
      assert Before(h, x, y);
    }
    TakeKeepsList(h, i);
  }

  lemma TakeKeepsList(h: Heap, i: nat)
    requires ListOk(h) && i < |h.free|
    ensures ListOk(Take(h, i))
  {
    var g := Take(h, i);
    forall j | 0 <= j < |g.free| ensures g.free[j] == h.free[if j < i then j else j + 1] {
    }
    forall b | b in g.chunks && !g.chunks[b].live ensures b in g.free {
      var j :| 0 <= j < |h.free| && h.free[j] == b;
      assert g.free[if j < i then j else j - 1] == b;
    }
  }

  lemma ReleaseKeepsWf(h: Heap, a: nat)
    requires Wf(h) && a in h.chunks && h.chunks[a].live
    ensures Wf(Release(h, a))
  {
    var g := Release(h, a);
    forall b | b in g.chunks ensures ChunkOk(g, b) {
      assert ChunkOk(h, b);
    }
    forall e | e in g.extents ensures ExtentOk(g, e) {
      assert ExtentOk(h, e);
    }
    forall x, y | x in g.chunks && y in g.chunks ensures Before(g, x, y) {
      assert Before(h, x, y);
    }
    assert ListOk(g) by {
      assert a !in h.free;
    }
  }

  // ----- whole calls

  /** A chunk that fits is split as the two stages demand, and what is taken is never a page
      head. */
  lemma ServeKeepsWf(h: Heap, i: nat, size: nat)
    requires Wf(h) && i < |h.free| && Fits(h.chunks[h.free[i]], size)
    ensures Wf(Serve(h, i, size).0)
  {
    Sizes(size);
    if h.chunks[h.free[i]].pages != 0 {
      SplitKeepsWf(h, i, NODE);
      assert Split(h, i, NODE).free[i + 1] == h.free[i] + NODE;
    }
    var (h', j) := SplitPageHead(h, i);
    assert j < |h'.free| && h'.chunks[h'.free[j]].pages == 0 && h'.chunks[h'.free[j]].len >= AllocSize(size);
    if h'.chunks[h'.free[j]].len >= SplitSize(size) {
      SplitKeepsWf(h', j, AllocSize(size));
      assert Split(h', j, AllocSize(size)).free[j] == h'.free[j];
    }
    TakeKeepsWf(SplitTail(h', j, size), j);
  }

  lemma MallocKeepsWf(h: Heap, size: nat, grant: Option<nat>)
    requires Wf(h) && (grant.Some? ==> FreshExtent(h, grant.value, MmapSize(size)))
    ensures Wf(Malloc(h, size, grant).0)
  {
    Sizes(size);
    var i := FirstFit(h, size, 0);
    if i < |h.free| {
      ServeKeepsWf(h, i, size);
    } else if grant.Some? {
      GrowKeepsWf(h, grant.value, MmapSize(size));
      ServeKeepsWf(Grow(h, grant.value, MmapSize(size)), 0, size);
    }
  }
}
