/** What the allocator's bookkeeping guarantees over any sequence of calls. */
module HeapTheorems {
  import opened Basics
  import opened Heaps
  import opened HeapInvariant

  // ----- tiling

  ghost predicate InChunk(h: Heap, a: nat, x: nat) {
    a in h.chunks && a <= x < a + h.chunks[a].len
  }

  /** Walk from chunk to chunk until the one that holds `x`. */
  lemma {:induction false} FindTile(h: Heap, e: nat, a: nat, x: nat) returns (t: nat)
    requires Wf(h) && e in h.extents && a in h.chunks && h.chunks[a].ext == e
    requires a <= x < e + h.extents[e]
    ensures InChunk(h, t, x) && h.chunks[t].ext == e
    decreases x - a
  {
    assert ChunkOk(h, a);
    if x < a + h.chunks[a].len {
      t := a;
    } else {
      t := FindTile(h, e, a + h.chunks[a].len, x);
    }
  }

  lemma OneTile(h: Heap, a: nat, b: nat, x: nat)
    requires Wf(h) && InChunk(h, a, x) && InChunk(h, b, x)
    ensures a == b
  {
    assert Before(h, a, b) && Before(h, b, a);
  }

  /** Every address of every extent lies in exactly one chunk, chunks do not reach outside, and
      each extent starts with a page head that no client ever gets. */
  lemma Tiling(h: Heap, e: nat, x: nat)
    requires Wf(h) && Settled(h) && e in h.extents
    ensures e <= x < e + h.extents[e] <==>
            exists t :: InChunk(h, t, x) && h.chunks[t].ext == e
    ensures forall a, b :: InChunk(h, a, x) && InChunk(h, b, x) ==> a == b
    ensures e in h.chunks && h.chunks[e] == Chunk(NODE, h.extents[e] / PAGE, false, e)
    ensures forall a :: a in h.chunks && h.chunks[a].ext == e && h.chunks[a].pages != 0 ==> a == e
  {
    assert ExtentOk(h, e) && ChunkOk(h, e);
    if e <= x < e + h.extents[e] {
      var t := FindTile(h, e, e, x);
    }
    forall t | InChunk(h, t, x) && h.chunks[t].ext == e ensures e <= x < e + h.extents[e] {
      assert ChunkOk(h, t);
    }
    forall a, b | InChunk(h, a, x) && InChunk(h, b, x) ensures a == b {
      OneTile(h, a, b, x);
    }
    forall a | a in h.chunks && h.chunks[a].ext == e && h.chunks[a].pages != 0 ensures a == e {
      assert ChunkOk(h, a);
    }
  }

  // ----- malloc

  /** `g` owns one block more than `h`: `a`, long enough for `size` bytes between header and
      footer, and at most 23 bytes longer than the rounded request. */
  ghost predicate AddsBlock(h: Heap, g: Heap, a: nat, size: nat) {
    && a % 8 == 0 && a !in Blocks(h) && a in Blocks(g) && Blocks(g) == Blocks(h)[a := Blocks(g)[a]]
    && HEADER + size + FOOTER <= AllocSize(size) <= Blocks(g)[a] < AllocSize(size) + NODE
  }

  lemma SplitKeepsBlocks(h: Heap, i: nat, k: nat)
    requires CanSplit(h, i, k)
    ensures Blocks(Split(h, i, k)) == Blocks(h) && Split(h, i, k).extents == h.extents
  {
    SplitIsNew(h, i, k);
  }

  lemma TakeAddsBlock(h: Heap, i: nat)
    requires ListOk(h) && i < |h.free|
    ensures h.free[i] !in Blocks(h)
    ensures Blocks(Take(h, i)) == Blocks(h)[h.free[i] := h.chunks[h.free[i]].len]
  {
  }

  /** The chunk after the first stage: no page head, and long enough. */
  lemma FirstStage(h: Heap, i: nat, size: nat)
    requires Wf(h) && i < |h.free| && Fits(h.chunks[h.free[i]], size)
    ensures var (h', j) := SplitPageHead(h, i);
      && Wf(h') && Blocks(h') == Blocks(h) && h'.extents == h.extents && j < |h'.free|
      && h'.free[j] in h'.chunks
      && h'.chunks[h'.free[j]].pages == 0 && h'.chunks[h'.free[j]].len >= AllocSize(size)
      && h'.free[j] == (if h.chunks[h.free[i]].pages != 0 then h.free[i] + NODE else h.free[i])
  {
    Sizes(size);
    if h.chunks[h.free[i]].pages != 0 {
      SplitKeepsWf(h, i, NODE);
      SplitKeepsBlocks(h, i, NODE);
      assert Split(h, i, NODE).free[i + 1] == h.free[i] + NODE;
    }
  }

  lemma SecondStage(h: Heap, j: nat, size: nat)
    requires Wf(h) && j < |h.free| && h.chunks[h.free[j]].pages == 0 && h.chunks[h.free[j]].len >= AllocSize(size)
    ensures var h' := SplitTail(h, j, size);
      && Wf(h') && Blocks(h') == Blocks(h) && h'.extents == h.extents && j < |h'.free|
      && h'.free[j] == h.free[j] && h'.free[j] in h'.chunks && h'.chunks[h'.free[j]].pages == 0
      && AllocSize(size) <= h'.chunks[h'.free[j]].len < SplitSize(size)
  {
    Sizes(size);
    if h.chunks[h.free[j]].len >= SplitSize(size) {
      SplitKeepsWf(h, j, AllocSize(size));
      SplitKeepsBlocks(h, j, AllocSize(size));
      assert Split(h, j, AllocSize(size)).free[j] == h.free[j];
    }
  }

  lemma ServeAddsBlock(h: Heap, i: nat, size: nat)
    requires Wf(h) && i < |h.free| && Fits(h.chunks[h.free[i]], size)
    ensures var (h', a) := Serve(h, i, size);
      && AddsBlock(h, h', a, size) && h'.extents == h.extents
      && a == (if h.chunks[h.free[i]].pages != 0 then h.free[i] + NODE else h.free[i])
  {
    Sizes(size);
    FirstStage(h, i, size);
    var (h', j) := SplitPageHead(h, i);
    SecondStage(h', j, size);
    var h'' := SplitTail(h', j, size);
    TakeAddsBlock(h'', j);
    assert ChunkOk(h'', h''.free[j]);
  }

  lemma GrowKeepsBlocks(h: Heap, base: nat, len: nat)
    requires Wf(h) && FreshExtent(h, base, len)
    ensures Blocks(Grow(h, base, len)) == Blocks(h)
  {
    GrowIsNew(h, base, len);
  }

  ghost predicate SomethingFits(h: Heap, size: nat)
    requires ListKnown(h)
  {
    exists i :: 0 <= i < |h.free| && Fits(h.chunks[h.free[i]], size)
  }

  lemma FitFound(h: Heap, size: nat)
    requires ListKnown(h)
    ensures SomethingFits(h, size) <==> FirstFit(h, size, 0) < |h.free|
  {
  }

  /** sc_malloc seen from outside.  It fails exactly if nothing fits and no pages are granted;
      it asks for pages exactly if nothing fits; and otherwise it hands out one new block. */
  lemma MallocContract(h: Heap, size: nat, grant: Option<nat>)
    requires Wf(h) && (grant.Some? ==> FreshExtent(h, grant.value, MmapSize(size)))
    ensures var (h', r) := Malloc(h, size, grant);
      && (r.None? <==> !SomethingFits(h, size) && grant.None?)
      && (r.None? ==> h' == h)
      && (r.Some? ==> r.value >= HEADER && AddsBlock(h, h', r.value - HEADER, size))
      && h'.extents == if SomethingFits(h, size) || grant.None? then h.extents
                       else h.extents[grant.value := MmapSize(size)]
  {
    FitFound(h, size);
    var i := FirstFit(h, size, 0);
    if i < |h.free| {
      ServeAddsBlock(h, i, size);
    } else if grant.Some? {
      FreshExtentServes(h, size, grant.value);
    }
  }

  /** A fresh extent always covers both splits. */
  lemma FreshExtentServes(h: Heap, size: nat, base: nat)
    requires Wf(h) && FreshExtent(h, base, MmapSize(size))
    ensures var g := Grow(h, base, MmapSize(size));
      && ListKnown(g) && Fits(g.chunks[g.free[0]], size)
      && AddsBlock(h, Serve(g, 0, size).0, Serve(g, 0, size).1, size)
      && Serve(g, 0, size).0.extents == h.extents[base := MmapSize(size)]
  {
    Sizes(size);
    GrowKeepsWf(h, base, MmapSize(size));
    GrowKeepsBlocks(h, base, MmapSize(size));
    ServeAddsBlock(Grow(h, base, MmapSize(size)), 0, size);
  }

  /** First fit: between calls the block is carved from the front of the first chunk in list
      order that fits. */
  lemma FirstFitIsTaken(h: Heap, size: nat, grant: Option<nat>, i: nat)
    requires Wf(h) && Settled(h) && i < |h.free| && Fits(h.chunks[h.free[i]], size)
    requires forall j :: 0 <= j < i ==> !Fits(h.chunks[h.free[j]], size)
    ensures Malloc(h, size, grant).1 == Some(h.free[i] + HEADER)
  {
    var a := h.free[i];
    assert FirstFit(h, size, 0) == i;
    PageHeadNeverFits(h, a, size);
    ServeAddsBlock(h, i, size);
  }

  lemma PageHeadNeverFits(h: Heap, a: nat, size: nat)
    requires Wf(h) && Settled(h) && a in h.chunks && Fits(h.chunks[a], size)
    ensures h.chunks[a].pages == 0
  {
    assert ChunkOk(h, a);
    Sizes(size);
  }

  // ----- which chunk serves, in plain numbers

  /** The chunk at position `i` is no page head and has room for header, request and footer, with the
      request rounded up to a multiple of 8. */
  ghost predicate LongEnough(h: Heap, i: int, size: nat) {
    && 0 <= i < |h.free| && h.free[i] in h.chunks && h.chunks[h.free[i]].pages == 0
    && h.chunks[h.free[i]].len >= (HEADER + size + 7) / 8 * 8 + FOOTER
  }

  ghost predicate SomeLongEnough(h: Heap, size: nat) {
    exists i :: LongEnough(h, i, size)
  }

  lemma FitsIsLongEnough(h: Heap, i: nat, size: nat)
    requires Wf(h) && Settled(h) && i < |h.free|
    ensures Fits(h.chunks[h.free[i]], size) <==> LongEnough(h, i, size)
  {
    Sizes(size);
    if Fits(h.chunks[h.free[i]], size) {
      PageHeadNeverFits(h, h.free[i], size);
    }
  }

  /** Without new pages malloc succeeds exactly if some free chunk, page heads aside, is long enough;
      and it asks for pages in no other case. */
  lemma MallocServesExactly(h: Heap, size: nat, grant: Option<nat>)
    requires Wf(h) && Settled(h) && (grant.Some? ==> FreshExtent(h, grant.value, MmapSize(size)))
    ensures Malloc(h, size, None).1.Some? <==> SomeLongEnough(h, size)
    ensures SomeLongEnough(h, size) ==> Malloc(h, size, grant) == Malloc(h, size, None)
  {
    var k := FirstFit(h, size, 0);
    if k < |h.free| {
      FitsIsLongEnough(h, k, size);
    }
    forall i | LongEnough(h, i, size) ensures k < |h.free| {
      FitsIsLongEnough(h, i, size);
    }
  }

  /** Position `i` is that of the first chunk that is long enough, or past the end if there is none. */
  ghost predicate FirstLongEnough(h: Heap, size: nat, i: nat) {
    && i <= |h.free| && (i < |h.free| ==> LongEnough(h, i, size))
    && forall j :: 0 <= j < i ==> !LongEnough(h, j, size)
  }

  lemma FirstFitIsFirst(h: Heap, size: nat)
    requires Wf(h) && Settled(h)
    ensures FirstLongEnough(h, size, FirstFit(h, size, 0))
  {
    var k := FirstFit(h, size, 0);
    if k < |h.free| {
      FitsIsLongEnough(h, k, size);
    }
    forall j | 0 <= j < k ensures !LongEnough(h, j, size) {
      FitsIsLongEnough(h, j, size);
    }
  }

  /** sc_malloc between calls, seen from outside.  It fails exactly if no free chunk is long enough and
      no pages are granted; it asks for pages exactly if none is; and otherwise it hands out one new
      block. */
  lemma MallocLaw(h: Heap, size: nat, grant: Option<nat>)
    requires Wf(h) && Settled(h) && (grant.Some? ==> FreshExtent(h, grant.value, MmapSize(size)))
    ensures var (h', r) := Malloc(h, size, grant); var found := SomeLongEnough(h, size);
      && (r.None? <==> !found && grant.None?)
      && (r.None? ==> h' == h)
      && (r.Some? ==> r.value >= HEADER && AddsBlock(h, h', r.value - HEADER, size))
      && h'.extents == if found || grant.None? then h.extents else h.extents[grant.value := MmapSize(size)]
  {
    MallocServesExactly(h, size, None);
    MallocContract(h, size, None);
    MallocContract(h, size, grant);
  }

  /** The block is carved from the front of the first chunk in list order that is long enough. */
  lemma FirstLongEnoughIsTaken(h: Heap, size: nat, grant: Option<nat>, i: nat)
    requires Wf(h) && Settled(h) && LongEnough(h, i, size)
    requires forall j :: 0 <= j < i ==> !LongEnough(h, j, size)
    ensures Malloc(h, size, grant).1 == Some(h.free[i] + HEADER)
  {
    FitsIsLongEnough(h, i, size);
    forall j | 0 <= j < i ensures !Fits(h.chunks[h.free[j]], size) {
      FitsIsLongEnough(h, j, size);
    }
    FirstFitIsTaken(h, size, grant, i);
  }

  /** A block that was just freed is handed out again by the next request that it has room for. */
  lemma FreedBlockIsReused(h: Heap, a: nat, size: nat, grant: Option<nat>)
    requires Wf(h) && Settled(h) && a in Blocks(h)
    requires Blocks(h)[a] >= (HEADER + size + 7) / 8 * 8 + FOOTER
    ensures ListKnown(Release(h, a)) && Malloc(Release(h, a), size, grant).1 == Some(a + HEADER)
  {
    ReleaseKeepsWf(h, a);
    assert ChunkOk(h, a);
    FirstLongEnoughIsTaken(Release(h, a), size, grant, 0);
  }

  /** What is left of a chunk that serves stays where the chunk was in the list; the list is
      otherwise untouched. */
  lemma MallocKeepsOrder(h: Heap, size: nat, i: nat)
    requires Wf(h) && Settled(h) && LongEnough(h, i, size)
    requires forall j :: 0 <= j < i ==> !LongEnough(h, j, size)
    ensures var need := (HEADER + size + 7) / 8 * 8 + FOOTER; var a := h.free[i];
      Malloc(h, size, None).0.free ==
      h.free[..i] + (if h.chunks[a].len >= need + NODE then [a + need] else []) + h.free[i + 1..]
  {
    FitsIsLongEnough(h, i, size);
    forall j | 0 <= j < i ensures !Fits(h.chunks[h.free[j]], size) {
      FitsIsLongEnough(h, j, size);
    }
    assert FirstFit(h, size, 0) == i;
    TailOrder(h, i, size);
  }

  lemma TailOrder(h: Heap, j: nat, size: nat)
    requires Wf(h) && j < |h.free| && h.chunks[h.free[j]].pages == 0 && h.chunks[h.free[j]].len >= AllocSize(size)
    ensures var g := SplitTail(h, j, size);
      && j < |g.free| && g.free[j] in g.chunks
      && Take(g, j).free == h.free[..j] +
           (if h.chunks[h.free[j]].len >= AllocSize(size) + NODE then [h.free[j] + AllocSize(size)] else []) +
           h.free[j + 1..]
  {
    SecondStage(h, j, size);
  }

  lemma HeadOrder(g: Heap)
    requires Wf(g) && |g.free| > 0 && g.chunks[g.free[0]].len > NODE
    ensures var base, g' := g.free[0], Split(g, 0, NODE);
      && g'.free == [base, base + NODE] + g.free[1..] && base + NODE in g'.chunks
      && g'.chunks[base + NODE].len == g.chunks[base].len - NODE && g'.chunks[base + NODE].pages == 0
  {
    assert g.free == [g.free[0]] + g.free[1..];
  }

  lemma GrownOrder(g: Heap, size: nat)
    requires Wf(g) && |g.free| > 0 && g.chunks[g.free[0]].pages != 0
    requires g.chunks[g.free[0]].len >= NODE + AllocSize(size)
    requires Fits(g.chunks[g.free[0]], size)
    ensures var base, left := g.free[0], g.chunks[g.free[0]].len - NODE - AllocSize(size);
      && Serve(g, 0, size).1 == base + NODE
      && Serve(g, 0, size).0.free ==
         [base] + (if left >= NODE then [base + NODE + AllocSize(size)] else []) + g.free[1..]
  {
    FirstStage(g, 0, size);
    HeadOrder(g);
    TailServes(Split(g, 0, NODE), 1, size);
  }

  lemma TailServes(g: Heap, j: nat, size: nat)
    requires Wf(g) && j < |g.free| && g.chunks[g.free[j]].pages == 0 && g.chunks[g.free[j]].len >= AllocSize(size)
    ensures var t := SplitTail(g, j, size);
      && j < |t.free| && t.free[j] == g.free[j] && t.free[j] in t.chunks
      && Take(t, j).free == g.free[..j] +
           (if g.chunks[g.free[j]].len >= AllocSize(size) + NODE then [g.free[j] + AllocSize(size)] else []) +
           g.free[j + 1..]
  {
    TailOrder(g, j, size);
    SecondStage(g, j, size);
  }

  /** If pages were needed they come first: their page head, then what the block left over. */
  lemma GrowthOrder(h: Heap, size: nat, base: nat)
    requires Wf(h) && Settled(h) && FreshExtent(h, base, MmapSize(size)) && !SomeLongEnough(h, size)
    ensures var need := (HEADER + size + 7) / 8 * 8 + FOOTER; var left := MmapSize(size) - NODE - need;
      && Malloc(h, size, Some(base)).1 == Some(base + NODE + HEADER)
      && Malloc(h, size, Some(base)).0.free ==
         [base] + (if left >= NODE then [base + NODE + need] else []) + h.free
  {
    NothingServes(h, size);
    Sizes(size);
    GrowKeepsWf(h, base, MmapSize(size));
    WholePages(MmapSize(size));
    GrownOrder(Grow(h, base, MmapSize(size)), size);
  }

  lemma NothingServes(h: Heap, size: nat)
    requires Wf(h) && Settled(h) && !SomeLongEnough(h, size)
    ensures FirstFit(h, size, 0) == |h.free|
  {
    var k := FirstFit(h, size, 0);
    if k < |h.free| {
      FitsIsLongEnough(h, k, size);
    }
  }

  lemma MallocFailsExactly(h: Heap, size: nat, grant: Option<nat>)
    requires Wf(h) && Settled(h) && (grant.Some? ==> FreshExtent(h, grant.value, MmapSize(size)))
    ensures Malloc(h, size, grant).1.None? <==> grant.None? && !SomeLongEnough(h, size)
  {
    MallocServesExactly(h, size, grant);
    MallocContract(h, size, grant);
  }

  // ----- page heads stay bare

  lemma SplitKeepsSettled(h: Heap, i: nat, k: nat)
    requires CanSplit(h, i, k) && h.chunks[h.free[i]].pages == 0 && Settled(h)
    ensures Settled(Split(h, i, k))
  {
    SplitIsNew(h, i, k);
    NotPageHead(h, h.free[i]);
  }

  lemma NotPageHead(h: Heap, a: nat)
    requires Wf(h) && a in h.chunks && h.chunks[a].pages == 0
    ensures a !in h.extents
  {
    forall e | e in h.extents ensures e != a {
      assert ExtentOk(h, e) && ChunkOk(h, e) && ChunkOk(h, a);
    }
  }

  /** All page heads but the one at position `i` are bare. */
  ghost predicate SettledBut(h: Heap, i: nat)
    requires i < |h.free|
  {
    && (forall e :: e in h.extents && e in h.chunks && e != h.free[i] ==> h.chunks[e].len == NODE)
    && h.free[i] in h.chunks && (h.free[i] in h.extents <==> h.chunks[h.free[i]].pages != 0)
  }

  lemma FirstStageSettles(h: Heap, i: nat, size: nat)
    requires Wf(h) && i < |h.free| && Fits(h.chunks[h.free[i]], size) && SettledBut(h, i)
    ensures Settled(SplitPageHead(h, i).0)
  {
    Sizes(size);
    if h.chunks[h.free[i]].pages != 0 {
      SplitIsNew(h, i, NODE);
    }
  }

  lemma SecondStageSettles(h: Heap, j: nat, size: nat)
    requires Wf(h) && j < |h.free| && h.chunks[h.free[j]].pages == 0 && Settled(h)
    ensures Settled(SplitTail(h, j, size))
  {
    Sizes(size);
    if h.chunks[h.free[j]].len >= SplitSize(size) {
      SplitKeepsSettled(h, j, AllocSize(size));
    }
  }

  lemma TakeKeepsSettled(h: Heap, i: nat)
    requires Settled(h) && i < |h.free| && h.free[i] in h.chunks
    ensures Settled(Take(h, i))
  {
  }

  lemma ServeKeepsSettled(h: Heap, i: nat, size: nat)
    requires Wf(h) && i < |h.free| && Fits(h.chunks[h.free[i]], size) && SettledBut(h, i)
    ensures Settled(Serve(h, i, size).0)
  {
    FirstStage(h, i, size);
    FirstStageSettles(h, i, size);
    var (h', j) := SplitPageHead(h, i);
    SecondStage(h', j, size);
    SecondStageSettles(h', j, size);
    TakeKeepsSettled(SplitTail(h', j, size), j);
  }

  lemma MallocKeepsSettled(h: Heap, size: nat, grant: Option<nat>)
    requires Wf(h) && Settled(h) && (grant.Some? ==> FreshExtent(h, grant.value, MmapSize(size)))
    ensures Settled(Malloc(h, size, grant).0)
  {
    Sizes(size);
    var i := FirstFit(h, size, 0);
    if i < |h.free| {
      var a := h.free[i];
      PageHeadNeverFits(h, a, size);
      NotPageHead(h, a);
      ServeKeepsSettled(h, i, size);
    } else if grant.Some? {
      GrowKeepsWf(h, grant.value, MmapSize(size));
      GrowIsNew(h, grant.value, MmapSize(size));
      WholePages(MmapSize(size));
      ServeKeepsSettled(Grow(h, grant.value, MmapSize(size)), 0, size);
    }
  }

  // ----- any sequence of calls

  datatype Call = MallocCall(size: nat, grant: Option<nat>) | FreeCall(block: nat)

  ghost predicate Allowed(h: Heap, c: Call) {
    match c
    case MallocCall(size, grant) => grant.Some? ==> FreshExtent(h, grant.value, MmapSize(size))
    case FreeCall(a) => a in Blocks(h)
  }

  function Do(h: Heap, c: Call): Heap
    requires ListKnown(h) && (c.FreeCall? ==> c.block in h.chunks)
  {
    match c
    case MallocCall(size, grant) => Malloc(h, size, grant).0
    case FreeCall(a) => Release(h, a)
  }

  ghost predicate IsHeapRun(hs: seq<Heap>, calls: seq<Call>) {
    && |hs| == |calls| + 1 && hs[0] == EMPTY
    && forall i {:trigger calls[i]} :: 0 <= i < |calls| ==>
         ListKnown(hs[i]) && Allowed(hs[i], calls[i]) && hs[i + 1] == Do(hs[i], calls[i])
  }

  lemma CallKeepsWf(h: Heap, c: Call)
    requires Wf(h) && Settled(h) && Allowed(h, c)
    ensures Wf(Do(h, c)) && Settled(Do(h, c))
  {
    match c
    case MallocCall(size, grant) =>
      MallocKeepsWf(h, size, grant);
      MallocKeepsSettled(h, size, grant);
    case FreeCall(a) =>
      ReleaseKeepsWf(h, a);
  }

  /** After any sequence of mallocs and frees the extents are exactly tiled. */
  lemma {:induction false} HeapStaysTiled(hs: seq<Heap>, calls: seq<Call>, k: nat)
    requires IsHeapRun(hs, calls) && k < |hs|
    ensures Wf(hs[k]) && Settled(hs[k])
  {
    if k > 0 {
      HeapStaysTiled(hs, calls, k - 1);
      CallKeepsWf(hs[k - 1], calls[k - 1]);
    }
  }

  /** Freeing takes exactly the given block away. */
  lemma FreeRemovesBlock(h: Heap, a: nat)
    requires a in h.chunks
    ensures Blocks(Release(h, a)) == Blocks(h) - {a} && Release(h, a).extents == h.extents
  {
  }

  /** A free right after a malloc gives back the blocks there were. */
  lemma FreeUndoesMalloc(h: Heap, size: nat, grant: Option<nat>)
    requires Wf(h) && (grant.Some? ==> FreshExtent(h, grant.value, MmapSize(size)))
    requires Malloc(h, size, grant).1.Some?
    ensures var (h', r) := Malloc(h, size, grant);
      && r.value >= HEADER && r.value - HEADER in h'.chunks
      && Blocks(Release(h', r.value - HEADER)) == Blocks(h)
  {
    MallocContract(h, size, grant);
    var (h', r) := Malloc(h, size, grant);
    BlockCancels(h, h', r.value - HEADER, size);
  }

  lemma BlockCancels(h: Heap, g: Heap, a: nat, size: nat)
    requires AddsBlock(h, g, a, size)
    ensures a in g.chunks && Blocks(Release(g, a)) == Blocks(h)
  {
    FreeRemovesBlock(g, a);
  }
}
