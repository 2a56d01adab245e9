/**
  The allocator's bookkeeping as it lies in shared memory: 8-byte words at 8-aligned addresses.
  A free chunk carries a list node in its first three words; a block carries a header in its
  first two words and a footer in its last.  The same words serve all three.
*/
module HeapMemory {
  import opened Basics
  import opened Heaps
  import opened HeapInvariant

  /** 'S', 'C', the kind of struct, and its version, a byte each. */
  function Magic(kind: nat, version: nat): nat {
    0x53 * 0x100_0000 + 0x43 * 0x1_0000 + kind * 0x100 + version
  }

  const HEAD_MAGIC: nat := Magic('m' as nat, 1)
  const FOOT_MAGIC: nat := Magic('m' as nat, 2)

  /** A magic gives back kind and version, and two of different kind or version differ. */
  lemma MagicParts(kind: nat, version: nat)
    requires kind < 0x100 && version < 0x100
    ensures Magic(kind, version) / 0x100 % 0x100 == kind && Magic(kind, version) % 0x100 == version
    ensures Magic(kind, version) / 0x1_0000 == 0x5343
    ensures HEAD_MAGIC == 0x5343_6D01 && FOOT_MAGIC == 0x5343_6D02
  {
  }

  type Words = map<nat, nat>

  /** The address of the list's element at position `i`, or null. */
  function Link(free: seq<nat>, i: nat): nat {
    if i < |free| then free[i] else 0
  }

  ghost predicate NodeAt(w: Words, a: nat, len: nat, next: nat, pages: nat) {
    a in w && a + 8 in w && a + 16 in w && w[a] == len && w[a + 8] == next && w[a + 16] == pages
  }

  ghost predicate BlockAt(w: Words, a: nat, len: nat) {
    && len >= NODE && a in w && a + 8 in w && a + len - 8 in w
    && w[a] == len && w[a + 8] == HEAD_MAGIC && w[a + len - 8] == FOOT_MAGIC
  }

  ghost predicate Node(w: Words, h: Heap, i: nat)
    requires i < |h.free| && h.free[i] in h.chunks
  {
    NodeAt(w, h.free[i], h.chunks[h.free[i]].len, Link(h.free, i + 1), h.chunks[h.free[i]].pages)
  }

  ghost predicate Mapped(w: Words, lo: nat, len: nat) {
    forall x {:trigger x in w} :: lo <= x < lo + len && x % 8 == 0 ==> x in w
  }

  /** The words in memory say what the heap says. */
  ghost predicate Rep(w: Words, head: nat, h: Heap) {
    && ListKnown(h) && head == Link(h.free, 0)
    && (forall a {:trigger Mapped(w, a, h.chunks[a].len)} :: a in h.chunks ==> Mapped(w, a, h.chunks[a].len))
    && (forall i {:trigger Node(w, h, i)} :: 0 <= i < |h.free| ==> Node(w, h, i))
    && (forall a {:trigger BlockAt(w, a, h.chunks[a].len)} :: a in h.chunks && h.chunks[a].live ==>
          BlockAt(w, a, h.chunks[a].len))
  }

  /** Nothing but the words of [lo, lo + len) has changed. */
  ghost predicate SameOutside(w: Words, w': Words, lo: nat, len: nat) {
    && (forall x :: x in w ==> x in w')
    && (forall x :: x in w && !(lo <= x < lo + len) ==> w'[x] == w[x])
  }

  ghost predicate InBlock(blocks: map<nat, nat>, a: nat, x: nat) {
    a in blocks && a <= x < a + blocks[a]
  }

  /** Header, contents and footer of every one of these blocks are untouched. */
  ghost predicate SameBlocks(blocks: map<nat, nat>, w: Words, w': Words) {
    forall a, x {:trigger InBlock(blocks, a, x)} ::
      InBlock(blocks, a, x) && x in w ==> x in w' && w'[x] == w[x]
  }

  lemma BlockSurvives(blocks: map<nat, nat>, w: Words, w': Words, a: nat)
    requires a in blocks && BlockAt(w, a, blocks[a]) && SameBlocks(blocks, w, w')
    ensures BlockAt(w', a, blocks[a])
  {
    var len := blocks[a];
    assert InBlock(blocks, a, a) && InBlock(blocks, a, a + 8) && InBlock(blocks, a, a + len - 8);
  }

  /** Writing inside a chunk that is no block touches no block. */
  lemma LocalSparesBlocks(h: Heap, w: Words, w': Words, a: nat)
    requires Wf(h) && a in h.chunks && !h.chunks[a].live && SameOutside(w, w', a, h.chunks[a].len)
    ensures SameBlocks(Blocks(h), w, w')
  {
    forall b, x | InBlock(Blocks(h), b, x) && x in w ensures x in w' && w'[x] == w[x] {
      assert Before(h, a, b) && Before(h, b, a);
    }
  }

  lemma FreshSparesBlocks(h: Heap, w: Words, w': Words, base: nat, len: nat)
    requires Wf(h) && FreshExtent(h, base, len) && SameOutside(w, w', base, len)
    ensures SameBlocks(Blocks(h), w, w')
  {
    forall b, x | InBlock(Blocks(h), b, x) && x in w ensures x in w' && w'[x] == w[x] {
      assert ChunkOk(h, b);
    }
  }

  // ----- the writes

  /** Cut the node at `a` after `k` bytes. */
  function SplitWords(w: Words, a: nat, k: nat): Words
    requires a in w && a + 8 in w && w[a] >= k
  {
    w[a + k := w[a] - k][a := k][a + k + 8 := w[a + 8]][a + 8 := a + k][a + k + 16 := 0]
  }

  /** Turn the node at `a` into a block. */
  function StampWords(w: Words, a: nat, len: nat): Words
    requires len >= 8
  {
    w[a := len][a + 8 := HEAD_MAGIC][a + len - 8 := FOOT_MAGIC]
  }

  function NodeWords(w: Words, a: nat, len: nat, next: nat, pages: nat): Words {
    w[a := len][a + 16 := pages][a + 8 := next]
  }

  // ----- what a write leaves alone

  lemma OtherChunkSame(h: Heap, w: Words, w': Words, a: nat, b: nat)
    requires Wf(h) && a in h.chunks && b in h.chunks && a != b
    requires SameOutside(w, w', a, h.chunks[a].len)
    ensures forall x :: b <= x < b + h.chunks[b].len && x in w ==> x in w' && w'[x] == w[x]
  {
    assert Before(h, a, b) && Before(h, b, a);
  }

  lemma OtherNode(h: Heap, w: Words, w': Words, a: nat, i: nat)
    requires Wf(h) && a in h.chunks && i < |h.free| && h.free[i] != a
    requires SameOutside(w, w', a, h.chunks[a].len) && Node(w, h, i)
    ensures Node(w', h, i)
  {
    OtherChunkSame(h, w, w', a, h.free[i]);
    assert ChunkOk(h, h.free[i]);
  }

  lemma OtherBlock(h: Heap, w: Words, w': Words, a: nat, b: nat)
    requires Wf(h) && a in h.chunks && b in h.chunks && a != b && BlockAt(w, b, h.chunks[b].len)
    requires SameOutside(w, w', a, h.chunks[a].len)
    ensures BlockAt(w', b, h.chunks[b].len)
  {
    OtherChunkSame(h, w, w', a, b);
  }

  /** The words that a chunk needs are its own. */
  lemma OwnWords(w: Words, head: nat, h: Heap, a: nat)
    requires Wf(h) && Rep(w, head, h) && a in h.chunks
    ensures a in w && a + 8 in w && a + 16 in w && a + h.chunks[a].len - 8 in w
    ensures a % 8 == 0 && h.chunks[a].len % 8 == 0 && h.chunks[a].len >= NODE && a > 0
  {
    assert ChunkOk(h, a);
    assert Mapped(w, a, h.chunks[a].len);
  }

  // ----- split

  lemma SplitIsLocal(w: Words, a: nat, k: nat, len: nat)
    requires a in w && a + 8 in w && w[a] == len && NODE <= k && k + NODE <= len
    ensures SameOutside(w, SplitWords(w, a, k), a, len)
    ensures NodeAt(SplitWords(w, a, k), a + k, len - k, w[a + 8], 0)
    ensures a + 16 in w ==> NodeAt(SplitWords(w, a, k), a, k, a + k, w[a + 16])
  {
  }

  /** The list after a split, position by position. */
  lemma SplitLinks(h: Heap, i: nat, k: nat, j: nat)
    requires CanSplit(h, i, k) && j <= |h.free|
    ensures var g, a := Split(h, i, k), h.free[i];
      && |g.free| == |h.free| + 1
      && g.free[j] == (if j <= i then h.free[j] else if j == i + 1 then a + k else h.free[j - 1])
      && Link(g.free, j + 1) == (if j < i then h.free[j + 1] else if j == i then a + k else Link(h.free, j))
  {
  }

  /** The two halves of the node that was cut. */
  lemma SplitHalves(w: Words, h: Heap, i: nat, k: nat)
    requires CanSplit(h, i, k) && Node(w, h, i) && w[h.free[i]] >= k
    ensures var g, w' := Split(h, i, k), SplitWords(w, h.free[i], k);
      && i + 1 < |g.free| && g.free[i] in g.chunks && g.free[i + 1] in g.chunks && Node(w', g, i) && Node(w', g, i + 1)
  {
    SplitLinks(h, i, k, i);
    SplitLinks(h, i, k, i + 1);
    SplitIsNew(h, i, k);
    SplitIsLocal(w, h.free[i], k, h.chunks[h.free[i]].len);
  }

  /** Every other node keeps its words and gets position `j`. */
  lemma SplitMoves(h: Heap, i: nat, k: nat, m: nat, j: nat)
    requires CanSplit(h, i, k) && m < |h.free| && m != i && j == if m < i then m else m + 1
    ensures var g := Split(h, i, k);
      && j < |g.free| && g.free[j] == h.free[m] && h.free[m] in h.chunks && h.free[m] in g.chunks
      && h.free[m] != h.free[i] && g.chunks[h.free[m]] == h.chunks[h.free[m]]
      && Link(g.free, j + 1) == Link(h.free, m + 1)
  {
    SplitLinks(h, i, k, j);
    SplitIsNew(h, i, k);
  }

  lemma SplitOther(w: Words, h: Heap, i: nat, k: nat, m: nat, j: nat)
    requires CanSplit(h, i, k) && Node(w, h, i) && w[h.free[i]] >= k
    requires m < |h.free| && m != i && Node(w, h, m) && j == if m < i then m else m + 1
    ensures j < |Split(h, i, k).free| && Split(h, i, k).free[j] in Split(h, i, k).chunks
    ensures Node(SplitWords(w, h.free[i], k), Split(h, i, k), j)
  {
    var a, w' := h.free[i], SplitWords(w, h.free[i], k);
    SplitMoves(h, i, k, m, j);
    SplitIsLocal(w, a, k, h.chunks[a].len);
    OtherNode(h, w, w', a, m);
  }

  lemma SplitNode(w: Words, h: Heap, i: nat, k: nat, j: nat)
    requires CanSplit(h, i, k) && j <= |h.free| && Node(w, h, i) && w[h.free[i]] >= k
    requires j < i ==> Node(w, h, j)
    requires j > i + 1 ==> Node(w, h, j - 1)
    ensures j < |Split(h, i, k).free| && Split(h, i, k).free[j] in Split(h, i, k).chunks
    ensures Node(SplitWords(w, h.free[i], k), Split(h, i, k), j)
  {
    if j < i {
      SplitOther(w, h, i, k, j, j);
    } else if j > i + 1 {
      SplitOther(w, h, i, k, j - 1, j);
    } else {
      SplitHalves(w, h, i, k);
    }
  }

  lemma SplitKeepsMapped(w: Words, h: Heap, i: nat, k: nat, b: nat)
    requires CanSplit(h, i, k) && Node(w, h, i) && w[h.free[i]] >= k && b in Split(h, i, k).chunks
    requires forall a {:trigger Mapped(w, a, h.chunks[a].len)} :: a in h.chunks ==> Mapped(w, a, h.chunks[a].len)
    ensures Mapped(SplitWords(w, h.free[i], k), b, Split(h, i, k).chunks[b].len)
  {
    var a := h.free[i];
    var from := if b == a + k then a else b;
    assert Mapped(w, from, h.chunks[from].len);
  }

  lemma SplitKeepsRep(w: Words, head: nat, h: Heap, i: nat, k: nat)
    requires CanSplit(h, i, k) && Rep(w, head, h)
    ensures Node(w, h, i) && Rep(SplitWords(w, h.free[i], k), head, Split(h, i, k))
  {
    var a, g := h.free[i], Split(h, i, k);
    assert Node(w, h, i);
    var w' := SplitWords(w, a, k);
    SplitIsNew(h, i, k);
    SplitIsLocal(w, a, k, h.chunks[a].len);
    SplitKeepsList(h, i, k);
    SplitLinks(h, i, k, 0);
    forall j | 0 <= j < |g.free| ensures Node(w', g, j) {
      assert j < i ==> Node(w, h, j);
      assert j > i + 1 ==> Node(w, h, j - 1);
      SplitNode(w, h, i, k, j);
    }
    forall b | b in g.chunks ensures Mapped(w', b, g.chunks[b].len) {
      SplitKeepsMapped(w, h, i, k, b);
    }
    forall b | b in g.chunks && g.chunks[b].live ensures BlockAt(w', b, g.chunks[b].len) {
      assert BlockAt(w, b, h.chunks[b].len);
      OtherBlock(h, w, w', a, b);
    }
  }

  // ----- take

  /** Make the predecessor of position `i` point past it; at the front that is the list head,
      which is not in these words. */
  function UnlinkWords(w: Words, free: seq<nat>, i: nat): Words
    requires i < |free|
  {
    if i == 0 then w else w[free[i - 1] + 8 := Link(free, i + 1)]
  }

  function TakeWords(w: Words, h: Heap, i: nat): Words
    requires i < |h.free| && h.free[i] in h.chunks && h.chunks[h.free[i]].len >= 8
  {
    StampWords(UnlinkWords(w, h.free, i), h.free[i], h.chunks[h.free[i]].len)
  }

  lemma TakeLinks(h: Heap, i: nat, j: nat)
    requires i < |h.free| && h.free[i] in h.chunks && j < |h.free| - 1
    ensures var g := Take(h, i);
      && |g.free| == |h.free| - 1
      && g.free[j] == h.free[if j < i then j else j + 1]
      && Link(g.free, j + 1) == (if j + 1 < i then h.free[j + 1] else Link(h.free, j + 2))
  {
  }

  lemma UnlinkNode(w: Words, h: Heap, i: nat, j: nat)
    requires Wf(h) && i < |h.free| && j < |h.free| && j != i && Node(w, h, j)
    requires i > 0 ==> Node(w, h, i - 1)
    ensures NodeAt(UnlinkWords(w, h.free, i), h.free[j], h.chunks[h.free[j]].len,
                   if j + 1 == i then Link(h.free, i + 1) else Link(h.free, j + 1), h.chunks[h.free[j]].pages)
  {
    if i > 0 && j + 1 != i {
      var p := h.free[i - 1];
      assert ChunkOk(h, p);
      assert SameOutside(w, UnlinkWords(w, h.free, i), p, h.chunks[p].len);
      OtherNode(h, w, UnlinkWords(w, h.free, i), p, j);
    }
  }

  lemma StampIsLocal(w: Words, a: nat, len: nat)
    requires len >= NODE
    ensures SameOutside(w, StampWords(w, a, len), a, len) && BlockAt(StampWords(w, a, len), a, len)
  {
  }

  lemma TakeNode(w: Words, h: Heap, i: nat, j: nat)
    requires Wf(h) && i < |h.free| && j < |h.free| - 1
    requires forall m {:trigger Node(w, h, m)} :: 0 <= m < |h.free| ==> Node(w, h, m)
    requires h.chunks[h.free[i]].len >= NODE
    ensures Take(h, i).free[j] in Take(h, i).chunks && Node(TakeWords(w, h, i), Take(h, i), j)
  {
    var a, m := h.free[i], if j < i then j else j + 1;
    var b, len := h.free[m], h.chunks[h.free[i]].len;
    var u := UnlinkWords(w, h.free, i);
    TakeLinks(h, i, j);
    assert Node(w, h, m);
    assert i > 0 ==> Node(w, h, i - 1);
    UnlinkNode(w, h, i, m);
    StampIsLocal(u, a, len);
    OtherChunkSame(h, u, TakeWords(w, h, i), a, b);
    assert ChunkOk(h, b);
  }

  lemma TakeSparesBlocks(w: Words, head: nat, h: Heap, i: nat)
    requires Wf(h) && Rep(w, head, h) && i < |h.free| && h.chunks[h.free[i]].len >= NODE
    ensures (forall x :: x in w ==> x in TakeWords(w, h, i)) && SameBlocks(Blocks(h), w, TakeWords(w, h, i))
  {
    var a, u := h.free[i], UnlinkWords(w, h.free, i);
    StampIsLocal(u, a, h.chunks[a].len);
    forall b, x | InBlock(Blocks(h), b, x) && x in w ensures TakeWords(w, h, i)[x] == w[x] {
      if i > 0 {
        assert Node(w, h, i - 1);
        assert ChunkOk(h, h.free[i - 1]);
        assert Before(h, b, h.free[i - 1]) && Before(h, h.free[i - 1], b);
      }
      OtherChunkSame(h, u, TakeWords(w, h, i), a, b);
    }
  }

  lemma TakeKeepsRep(w: Words, head: nat, h: Heap, i: nat)
    requires Wf(h) && Rep(w, head, h) && i < |h.free| && h.chunks[h.free[i]].len >= NODE
    ensures Rep(TakeWords(w, h, i), if i == 0 then Link(h.free, 1) else head, Take(h, i))
  {
    var a, g, w' := h.free[i], Take(h, i), TakeWords(w, h, i);
    TakeSparesBlocks(w, head, h, i);
    StampIsLocal(UnlinkWords(w, h.free, i), a, h.chunks[a].len);
    forall j | 0 <= j < |g.free| ensures g.free[j] in g.chunks && Node(w', g, j) {
      TakeNode(w, h, i, j);
    }
    forall b | b in g.chunks ensures Mapped(w', b, g.chunks[b].len) {
      assert Mapped(w, b, h.chunks[b].len);
    }
    forall b | b in g.chunks && g.chunks[b].live ensures BlockAt(w', b, g.chunks[b].len) {
      if b != a {
        assert BlockAt(w, b, h.chunks[b].len);
        BlockSurvives(Blocks(h), w, w', b);
      }
    }
    assert |g.free| > 0 && i > 0 ==> g.free[0] == h.free[0];
    assert |g.free| > 0 && i == 0 ==> g.free[0] == h.free[1];
  }

  // ----- free

  lemma NodeIsLocal(w: Words, a: nat, len: nat, next: nat, pages: nat)
    requires len >= NODE
    ensures SameOutside(w, NodeWords(w, a, len, next, pages), a, len)
    ensures NodeAt(NodeWords(w, a, len, next, pages), a, len, next, pages)
  {
  }

  lemma ReleaseKeepsRep(w: Words, head: nat, h: Heap, a: nat)
    requires Wf(h) && Rep(w, head, h) && a in h.chunks && h.chunks[a].live
    ensures Rep(NodeWords(w, a, h.chunks[a].len, head, 0), a, Release(h, a))
  {
    var len := h.chunks[a].len;
    var g, w' := Release(h, a), NodeWords(w, a, len, head, 0);
    assert ChunkOk(h, a);
    NodeIsLocal(w, a, len, head, 0);
    forall j | 0 <= j < |g.free| ensures Node(w', g, j) {
      if j > 0 {
        assert Node(w, h, j - 1);
        OtherNode(h, w, w', a, j - 1);
      }
    }
    forall b | b in g.chunks ensures Mapped(w', b, g.chunks[b].len) {
      assert Mapped(w, b, h.chunks[b].len);
    }
    forall b | b in g.chunks && g.chunks[b].live ensures BlockAt(w', b, g.chunks[b].len) {
      assert BlockAt(w, b, h.chunks[b].len);
      OtherBlock(h, w, w', a, b);
    }
  }

  // ----- new pages

  /** Fresh pages of the backing file read as zero. */
  function ZeroPages(base: nat, len: nat): Words {
    map x: nat | base <= x < base + len && IsWord(x) :: 0
  }

  predicate IsWord(x: nat) {
    x % 8 == 0
  }

  function GrowWords(w: Words, head: nat, base: nat, len: nat): Words {
    NodeWords(w + ZeroPages(base, len), base, len, head, len / PAGE)
  }

  lemma GrowIsLocal(w: Words, head: nat, base: nat, len: nat)
    requires len >= NODE
    ensures var w' := GrowWords(w, head, base, len);
      && SameOutside(w, w', base, len) && NodeAt(w', base, len, head, len / PAGE) && Mapped(w', base, len)
  {
    var z := w + ZeroPages(base, len);
    NodeIsLocal(z, base, len, head, len / PAGE);
    assert forall x {:trigger x in z} :: base <= x < base + len && x % 8 == 0 ==> IsWord(x) && x in z;
  }

  /** A chunk of an older extent is outside the new one. */
  lemma OldChunkSame(h: Heap, w: Words, w': Words, base: nat, len: nat, b: nat)
    requires Wf(h) && FreshExtent(h, base, len) && b in h.chunks && SameOutside(w, w', base, len)
    ensures b != base && base !in h.free
    ensures forall x :: b <= x < b + h.chunks[b].len && x in w ==> x in w' && w'[x] == w[x]
  {
    GrowIsNew(h, base, len);
    assert h.chunks[b].ext != base;
  }

  lemma GrowNode(w: Words, w': Words, h: Heap, base: nat, len: nat, j: nat)
    requires Wf(h) && FreshExtent(h, base, len) && SameOutside(w, w', base, len) && j < |h.free| && Node(w, h, j)
    ensures Node(w', Grow(h, base, len), j + 1)
  {
    OldChunkSame(h, w, w', base, len, h.free[j]);
    assert ChunkOk(h, h.free[j]);
  }

  lemma GrowKeepsRep(w: Words, head: nat, h: Heap, base: nat, len: nat)
    requires Wf(h) && Rep(w, head, h) && FreshExtent(h, base, len)
    ensures Rep(GrowWords(w, head, base, len), base, Grow(h, base, len))
  {
    var g, w' := Grow(h, base, len), GrowWords(w, head, base, len);
    GrowIsNew(h, base, len);
    WholePages(len);
    GrowIsLocal(w, head, base, len);
    forall j | 0 <= j < |g.free| ensures Node(w', g, j) {
      if j > 0 {
        assert Node(w, h, j - 1);
        GrowNode(w, w', h, base, len, j - 1);
      }
    }
    forall b | b in g.chunks ensures Mapped(w', b, g.chunks[b].len) {
      assert b != base ==> Mapped(w, b, h.chunks[b].len);
    }
    forall b | b in g.chunks && g.chunks[b].live ensures BlockAt(w', b, g.chunks[b].len) {
      assert BlockAt(w, b, h.chunks[b].len);
      OldChunkSame(h, w, w', base, len, b);
    }
  }

  // ----- clients

  /** The words a client may write: between header and footer of a block. */
  ghost predicate InPayload(h: Heap, a: nat, x: nat) {
    a in h.chunks && h.chunks[a].live && a + HEADER <= x && x + 8 <= a + h.chunks[a].len - FOOTER
  }

  lemma ClientKeepsRep(w: Words, head: nat, h: Heap, a: nat, x: nat, v: nat)
    requires Wf(h) && Rep(w, head, h) && InPayload(h, a, x) && x in w
    ensures Rep(w[x := v], head, h)
  {
    var w' := w[x := v];
    assert ChunkOk(h, a);
    assert SameOutside(w, w', a, h.chunks[a].len);
    forall j | 0 <= j < |h.free| ensures Node(w', h, j) {
      assert Node(w, h, j);
      assert h.free[j] != a;
      OtherNode(h, w, w', a, j);
    }
    forall b | b in h.chunks ensures Mapped(w', b, h.chunks[b].len) {
      assert Mapped(w, b, h.chunks[b].len);
    }
    forall b | b in h.chunks && h.chunks[b].live ensures BlockAt(w', b, h.chunks[b].len) {
      assert BlockAt(w, b, h.chunks[b].len);
      if b != a {
        OtherBlock(h, w, w', a, b);
      }
    }
  }

  /** The magic of a free chunk's would-be header is its `next` pointer, which is 8-aligned or
      null; the header magic is odd.  So a double free is always caught. */
  lemma FreeChunkHasNoMagic(w: Words, head: nat, h: Heap, a: nat)
    requires Wf(h) && Rep(w, head, h) && a in h.free
    ensures a in w && a + 8 in w && w[a + 8] % 8 == 0 && w[a + 8] != HEAD_MAGIC
  {
    var i :| 0 <= i < |h.free| && h.free[i] == a;
    assert Node(w, h, i);
    if i + 1 < |h.free| {
      assert ChunkOk(h, h.free[i + 1]);
    }
  }
}
