/** sc_malloc and sc_free, word by word on shared memory. */
module Allocators {
  import opened Basics
  import opened Heaps
  import opened HeapInvariant
  import opened HeapMemory
  import HT = HeapTheorems

  /** What `pPrev` points to: the head of the list or the `next` field of a node. */
  datatype Slot = Head | NextOf(node: nat)

  /** How sc_free ends: by an assert, by touching unmapped memory, by the corruption exit, or by
      giving the buffer back. */
  datatype Outcome = Misaligned | Fault | Corrupted | Freed

  ghost function SlotAt(free: seq<nat>, i: nat): Slot
    requires i <= |free|
  {
    if i == 0 then Head else NextOf(free[i - 1])
  }

  /** Trimming the tail leaves the list up to `j` as it is. */
  lemma SplitTailSlots(h: Heap, j: nat, size: nat)
    requires ListKnown(h) && j < |h.free|
    ensures var g := SplitTail(h, j, size); j < |g.free| && SlotAt(g.free, j) == SlotAt(h.free, j)
  {
  }

  // ----- each step of the code, on values

  lemma AddPagesStep(w: Words, head: nat, h: Heap, base: nat, len: nat)
    requires Wf(h) && Rep(w, head, h) && FreshExtent(h, base, len)
    ensures var (g, w') := (Grow(h, base, len), GrowWords(w, head, base, len));
      Wf(g) && Rep(w', base, g) && Blocks(g) == Blocks(h) && SameBlocks(Blocks(h), w, w')
  {
    WholePages(len);
    GrowIsLocal(w, head, base, len);
    FreshSparesBlocks(h, w, GrowWords(w, head, base, len), base, len);
    GrowKeepsRep(w, head, h, base, len);
    GrowKeepsWf(h, base, len);
    HT.GrowKeepsBlocks(h, base, len);
  }

  lemma SplitStep(w: Words, head: nat, h: Heap, i: nat, k: nat)
    requires CanSplit(h, i, k) && Rep(w, head, h)
    ensures Node(w, h, i)
    ensures var (g, w') := (Split(h, i, k), SplitWords(w, h.free[i], k));
      Wf(g) && Rep(w', head, g) && Blocks(g) == Blocks(h) && SameBlocks(Blocks(h), w, w')
  {
    SplitKeepsRep(w, head, h, i, k);
    SplitKeepsWf(h, i, k);
    HT.SplitKeepsBlocks(h, i, k);
    SplitIsLocal(w, h.free[i], k, h.chunks[h.free[i]].len);
    LocalSparesBlocks(h, w, SplitWords(w, h.free[i], k), h.free[i]);
  }

  lemma TakeStep(w: Words, head: nat, h: Heap, i: nat)
    requires Wf(h) && Rep(w, head, h) && i < |h.free| && h.chunks[h.free[i]].pages == 0
    ensures Node(w, h, i) && h.chunks[h.free[i]].len >= NODE && (i > 0 ==> Node(w, h, i - 1))
    ensures var (g, w') := (Take(h, i), TakeWords(w, h, i));
      Wf(g) && Rep(w', if i == 0 then Link(h.free, 1) else head, g) && SameBlocks(Blocks(h), w, w')
  {
    assert ChunkOk(h, h.free[i]);
    assert Node(w, h, i) && (i > 0 ==> Node(w, h, i - 1));
    TakeKeepsRep(w, head, h, i);
    TakeKeepsWf(h, i);
    TakeSparesBlocks(w, head, h, i);
  }

  lemma ReleaseStep(w: Words, head: nat, h: Heap, a: nat)
    requires Wf(h) && Settled(h) && Rep(w, head, h) && a in Blocks(h)
    ensures var (g, w') := (Release(h, a), NodeWords(w, a, h.chunks[a].len, head, 0));
      Wf(g) && Settled(g) && Rep(w', a, g) && SameBlocks(Blocks(g), w, w')
  {
    var g, len := Release(h, a), h.chunks[a].len;
    ReleaseKeepsRep(w, head, h, a);
    ReleaseKeepsWf(h, a);
    assert ChunkOk(h, a);
    NodeIsLocal(w, a, len, head, 0);
    LocalSparesBlocks(g, w, NodeWords(w, a, len, head, 0), a);
  }

  /** What sc_free finds at a chunk: the magics of a block, or no header magic. */
  lemma FreeChecks(w: Words, head: nat, h: Heap, a: nat)
    requires Wf(h) && Rep(w, head, h) && a in h.chunks
    ensures a % 8 == 0 && a in w && a + 8 in w
    ensures a in Blocks(h) ==> BlockAt(w, a, h.chunks[a].len)
    ensures a in h.free ==> w[a + 8] != HEAD_MAGIC
    ensures a in Blocks(h) || a in h.free
  {
    OwnWords(w, head, h, a);
    if h.chunks[a].live {
      assert BlockAt(w, a, h.chunks[a].len);
    } else {
      FreeChunkHasNoMagic(w, head, h, a);
    }
  }

  /** Both magics are in place around the buffer, as its header's length says. */
  predicate HasMagics(w: Words, buf: nat) {
    && buf >= HEADER && buf - HEADER in w && buf - 8 in w && w[buf - 8] == HEAD_MAGIC
    && var foot := buf - HEADER + w[buf - HEADER];
       foot >= FOOTER && foot - FOOTER in w && w[foot - FOOTER] == FOOT_MAGIC
  }

  class Allocator {
    var words: Words
    var freeList: nat
    ghost var heap: Heap

    ghost predicate Consistent()
      reads this
    {
      Wf(heap) && Rep(words, freeList, heap)
    }

    ghost predicate Valid()
      reads this
    {
      Consistent() && Settled(heap)
    }

    constructor ()
      ensures Valid() && heap == EMPTY
    {
      words, freeList, heap := map[], 0, EMPTY;
    }

    /** The first-fit scan. */
    method Scan(size: nat, allocSize: nat, splitSize: nat) returns (cur: nat, prev: Slot, ghost i: nat)
      requires Consistent() && allocSize == AllocSize(size) && splitSize == SplitSize(size)
      ensures cur == Link(heap.free, FirstFit(heap, size, 0))
      ensures prev == SlotAt(heap.free, FirstFit(heap, size, 0)) && i == FirstFit(heap, size, 0)
      ensures Settled(heap) ==> HT.FirstLongEnough(heap, size, i)
    {
      if Settled(heap) {
        HT.FirstFitIsFirst(heap, size);
      }
      cur, prev, i := freeList, Head, 0;
      while cur != 0
        invariant i <= |heap.free| && cur == Link(heap.free, i) && prev == SlotAt(heap.free, i)
        invariant FirstFit(heap, size, 0) == FirstFit(heap, size, i)
        decreases |heap.free| - i
      {
        assert Node(words, heap, i);
        if words[cur] >= splitSize || (words[cur] >= allocSize && words[cur + 16] == 0) {
          return;
        }
        prev := NextOf(cur);
        cur := words[cur + 8];
        i := i + 1;
      }
      assert i < |heap.free| ==> ChunkOk(heap, heap.free[i]);
    }

    /** Put freshly mapped pages at the front of the list. */
    method AddPages(base: nat, len: nat)
      requires Consistent() && FreshExtent(heap, base, len)
      modifies this
      ensures Consistent() && heap == Grow(old(heap), base, len)
      ensures Blocks(heap) == Blocks(old(heap)) && SameBlocks(Blocks(old(heap)), old(words), words)
    {
      AddPagesStep(words, freeList, heap, base, len);
      heap := Grow(heap, base, len);
      words := words + ZeroPages(base, len);
      WriteNode(base, len, freeList, len / PAGE);
      freeList := base;
    }

    /** The three words of a list node. */
    method WriteNode(a: nat, len: nat, nextNode: nat, pages: nat)
      modifies this`words
      ensures words == NodeWords(old(words), a, len, nextNode, pages)
    {
      words := words[a := len];
      words := words[a + 16 := pages];
      words := words[a + 8 := nextNode];
    }

    /** Cut the node at `cur` after `k` bytes and link the rest behind it. */
    method SplitAt(cur: nat, k: nat, ghost i: nat) returns (next: nat)
      requires Consistent() && CanSplit(heap, i, k) && cur == heap.free[i]
      modifies this
      ensures Consistent() && next == cur + k && freeList == old(freeList)
      ensures heap == Split(old(heap), i, k)
      ensures Blocks(heap) == Blocks(old(heap)) && SameBlocks(Blocks(old(heap)), old(words), words)
    {
      SplitStep(words, freeList, heap, i, k);
      heap := Split(heap, i, k);
      next := cur + k;
      words := words[next := words[cur] - k];
      words := words[cur := k];
      words := words[next + 8 := words[cur + 8]];
      words := words[cur + 8 := next];
      words := words[next + 16 := 0];
      assert words == SplitWords(old(words), cur, k);
    }

    /** Unlink `cur` and stamp header and footer on it. */
    method TakeOut(cur: nat, prev: Slot, ghost i: nat) returns (buf: nat)
      requires Consistent() && i < |heap.free| && cur == heap.free[i] && prev == SlotAt(heap.free, i)
      requires heap.chunks[cur].pages == 0
      modifies this
      ensures Consistent() && heap == Take(old(heap), i) && buf == cur + HEADER
      ensures SameBlocks(Blocks(old(heap)), old(words), words)
    {
      TakeStep(words, freeList, heap, i);
      var len := words[cur];
      match prev {
        case Head => freeList := words[cur + 8];
        case NextOf(p) => words := words[p + 8 := words[cur + 8]];
      }
      words := words[cur := len];
      words := words[cur + 8 := HEAD_MAGIC];
      words := words[cur + len - FOOTER := FOOT_MAGIC];
      assert words == TakeWords(old(words), heap, i);
      heap := Take(heap, i);
      buf := cur + HEADER;
    }

    /** The first split: leave a page head behind. */
    method PassPageHead(size: nat, cur: nat, prev: Slot, ghost i: nat) returns (node: nat, slot: Slot, ghost j: nat)
      requires Consistent() && i < |heap.free| && Fits(heap.chunks[heap.free[i]], size)
      requires cur == heap.free[i] && prev == SlotAt(heap.free, i)
      modifies this
      ensures Consistent() && (heap, j) == SplitPageHead(old(heap), i) && freeList == old(freeList)
      ensures j < |heap.free| && node == heap.free[j] && slot == SlotAt(heap.free, j)
      ensures Blocks(heap) == Blocks(old(heap)) && SameBlocks(Blocks(heap), old(words), words)
    {
      assert Node(words, heap, i);
      node, slot, j := cur, prev, i;
      if words[cur + 16] != 0 {
        Sizes(size);
        slot := NextOf(cur);
        node := SplitAt(cur, NODE, i);
        j := i + 1;
      }
    }

    /** The second split: give back what the request does not need. */
    method TrimTail(size: nat, node: nat, ghost j: nat)
      requires Consistent() && j < |heap.free| && node == heap.free[j]
      requires heap.chunks[node].pages == 0 && heap.chunks[node].len >= AllocSize(size)
      modifies this
      ensures Consistent() && heap == SplitTail(old(heap), j, size) && freeList == old(freeList)
      ensures Blocks(heap) == Blocks(old(heap)) && SameBlocks(Blocks(heap), old(words), words)
    {
      assert Node(words, heap, j);
      if words[node] >= SplitSize(size) {
        Sizes(size);
        var rest := SplitAt(node, AllocSize(size), j);
      }
    }

    /** Split and take the chunk at `cur`, which fits. */
    method Carve(size: nat, cur: nat, prev: Slot, ghost i: nat) returns (buf: nat)
      requires Consistent() && i < |heap.free| && Fits(heap.chunks[heap.free[i]], size)
      requires cur == heap.free[i] && prev == SlotAt(heap.free, i)
      modifies this
      ensures Consistent() && heap == Serve(old(heap), i, size).0 && buf == Serve(old(heap), i, size).1 + HEADER
      ensures SameBlocks(Blocks(old(heap)), old(words), words)
    {
      HT.FirstStage(heap, i, size);
      var node, slot;
      ghost var j;
      node, slot, j := PassPageHead(size, cur, prev, i);
      HT.SecondStage(heap, j, size);
      SplitTailSlots(heap, j, size);
      TrimTail(size, node, j);
      buf := TakeOut(node, slot, j);
    }

    /** Find a chunk that fits, or map pages and put them first. */
    method Obtain(size: nat, grant: Option<nat>) returns (cur: nat, prev: Slot, ghost i: nat)
      requires Consistent() && (grant.Some? ==> FreshExtent(heap, grant.value, MmapSize(size)))
      modifies this
      ensures Consistent() && i <= |heap.free| && cur == Link(heap.free, i) && prev == SlotAt(heap.free, i)
      ensures Blocks(heap) == Blocks(old(heap)) && SameBlocks(Blocks(heap), old(words), words)
      ensures var k := FirstFit(old(heap), size, 0);
        if k < |old(heap).free| || grant.None? then i == k && heap == old(heap)
        else i == 0 && heap == Grow(old(heap), grant.value, MmapSize(size))
      ensures cur == 0 <==> i == |heap.free|
    {
      var allocSize := HEADER + size;
      allocSize := (allocSize + 7) / 8 * 8;
      allocSize := allocSize + FOOTER;
      var splitSize := allocSize + NODE;
      cur, prev, i := Scan(size, allocSize, splitSize);
      assert i < |heap.free| ==> ChunkOk(heap, heap.free[i]);
      if cur == 0 && grant.Some? {
        var mmapSize := (splitSize + PAGE - 1) / PAGE * PAGE;
        cur, prev, i := grant.value, Head, 0;
        AddPages(cur, mmapSize);
      }
    }

    method Malloc(size: nat, grant: Option<nat>) returns (buf: Option<nat>)
      requires Valid() && (grant.Some? ==> FreshExtent(heap, grant.value, MmapSize(size)))
      modifies this
      ensures Valid() && (heap, buf) == Heaps.Malloc(old(heap), size, grant)
      ensures buf.None? <==> grant.None? && !HT.SomeLongEnough(old(heap), size)
      ensures SameBlocks(Blocks(old(heap)), old(words), words)
    {
      HT.MallocKeepsSettled(heap, size, grant);
      HT.MallocFailsExactly(heap, size, grant);
      Sizes(size);
      var cur, prev;
      ghost var i;
      cur, prev, i := Obtain(size, grant);
      if cur == 0 {
        return None;
      }
      var b := Carve(size, cur, prev, i);
      buf := Some(b);
    }

    /** The pointer may be anything.  What happens to a pointer that is no chunk depends on what
        clients have written there. */
    method Free(buf: nat) returns (r: Outcome)
      requires Valid()
      modifies this
      ensures r == Misaligned <==> buf % 8 != 0
      ensures r == Freed <==> buf % 8 == 0 && HasMagics(old(words), buf)
      ensures r == Corrupted ==> buf >= HEADER && buf - HEADER in old(words) && buf - 8 in old(words)
      ensures r == Freed ==> freeList == buf - HEADER
      ensures r == Freed ==> words == NodeWords(old(words), freeList, old(words)[freeList], old(freeList), 0)
      ensures r != Freed ==> words == old(words) && freeList == old(freeList) && heap == old(heap)
      ensures buf >= HEADER && buf - HEADER in Blocks(old(heap)) ==>
        && r == Freed && Valid() && heap == Release(old(heap), buf - HEADER)
        && SameBlocks(Blocks(heap), old(words), words)
      ensures buf >= HEADER && buf - HEADER in old(heap).free ==> r == Corrupted && Valid()
    {
      if buf >= HEADER && buf - HEADER in heap.chunks {
        FreeChecks(words, freeList, heap, buf - HEADER);
      }
      if buf % 8 != 0 {
        return Misaligned;
      }
      if buf < HEADER || buf - HEADER !in words || buf - 8 !in words {
        return Fault;
      }
      var head := buf - HEADER;
      if words[head + 8] != HEAD_MAGIC {
        return Corrupted;
      }
      var len := words[head];
      if head + len < FOOTER || head + len - FOOTER !in words {
        return Fault;
      }
      if words[head + len - FOOTER] != FOOT_MAGIC {
        return Corrupted;
      }
      if head in heap.chunks {
        ReleaseStep(words, freeList, heap, head);
        heap := Release(heap, head);
      }
      WriteNode(head, len, freeList, 0);
      freeList := head;
      return Freed;
    }

    /** A client writes one word of a block that it owns. */
    method Write(x: nat, v: nat, ghost a: nat)
      requires Valid() && InPayload(heap, a, x) && x in words
      modifies this`words
      ensures Valid() && words == old(words)[x := v]
    {
      ClientKeepsRep(words, freeList, heap, a, x, v);
      words := words[x := v];
    }
  }
}
