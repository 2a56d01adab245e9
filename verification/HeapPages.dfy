/**
  The allocator on top of the region manager: its extents are ranges that sc_mmap cut from the
  reserved regions, so what keeps regions apart keeps extents apart, and what serves a touch of
  a region serves a touch of a block.
*/
module HeapPages {
  import opened Basics
  import opened CleanupLog
  import opened Regions
  import opened RegionsInvariant
  import opened RegionsBoot
  import RT = RegionsTheorems
  import RA = RegionsAccounts
  import RS = RegionsSharing
  import H = Heaps
  import HI = HeapInvariant
  import HT = HeapTheorems

  /** One subcontext with its heap. */
  datatype Joint = Joint(sys: Sys, heap: H.Heap)

  /** Anything that leaves the heap alone, a call that needs no pages, or a malloc that maps some. */
  datatype Move =
    | Other(e: Event)
    | Call(c: HT.Call)
    | Growing(p: Pid, size: nat)

  function PagesFor(m: Move): Event
    requires m.Growing?
  {
    Mmap(m.p, H.MmapSize(m.size), ProtRW)
  }

  /** Where the next sc_mmap will put its region. */
  function NextBase(mem: Mem): nat
    requires |mem.reserved| > 0 && mem.reserved[0] < |mem.regs|
  {
    mem.regs[mem.reserved[0]].vaddr
  }

  /** The kernel never maps anything at the null address. */
  predicate CanMove(j: Joint, m: Move) {
    H.ListKnown(j.heap) &&
    match m
    case Other(e) => Can(j.sys, e)
    case Call(MallocCall(_, grant)) => grant.None?
    case Call(FreeCall(a)) => a in H.Blocks(j.heap)
    case Growing(_, size) =>
      && H.FirstFit(j.heap, size, 0) == |j.heap.free|
      && Can(j.sys, PagesFor(m)) && NextBase(j.sys.mem) > 0
  }

  function Moved(j: Joint, m: Move): Joint
    requires CanMove(j, m)
  {
    match m
    case Other(e) => j.(sys := Next(j.sys, e))
    case Call(c) => j.(heap := HT.Do(j.heap, c))
    case Growing(_, size) =>
      Joint(Next(j.sys, PagesFor(m)), H.Malloc(j.heap, size, Some(NextBase(j.sys.mem))).0)
  }

  /** sc_init: the first malloc, of `first` bytes, has mapped the first page of the reservation. */
  function Start(g: Grant, first: nat): Joint
    requires GoodGrant(g)
  {
    Joint(Booted(g), H.Malloc(H.EMPTY, first, Some(g.reserve)).0)
  }

  ghost predicate IsJointRun(g: Grant, first: nat, js: seq<Joint>, moves: seq<Move>) {
    && GoodGrant(g) && g.reserve > 0 && H.MmapSize(first) == PAGE
    && AreMoves(js, moves) && js[0] == Start(g, first)
  }

  ghost predicate AreMoves(js: seq<Joint>, moves: seq<Move>) {
    && |js| == |moves| + 1
    && forall i {:trigger MoveAt(js, moves, i)} :: 0 <= i < |moves| ==> MoveAt(js, moves, i)
  }

  ghost predicate MoveAt(js: seq<Joint>, moves: seq<Move>, i: nat)
    requires i < |moves| && |js| == |moves| + 1
  {
    CanMove(js[i], moves[i]) && js[i + 1] == Moved(js[i], moves[i])
  }

  // ----- every extent is an active region

  predicate Backs(mem: Mem, id: Id, e: nat, len: nat) {
    && id < |mem.regs| && id in mem.active && id !in mem.half
    && mem.regs[id].vaddr == e && mem.regs[id].len == len && mem.regs[id].prot == ProtRW
  }

  ghost predicate Backed(mem: Mem, extents: map<nat, nat>) {
    forall e :: e in extents ==> exists id :: Backs(mem, id, e, extents[e])
  }

  /** Only an import takes a new struct into `half`. */
  lemma HalfOnlyByImport(s: Sys, e: Event, id: Id)
    requires ListsOk(s.mem) && Can(s, e) && id in s.mem.active && id !in s.mem.half
    ensures id !in Next(s, e).mem.half
  {
    FreeIsUnused(s.mem);
    match e
    case Log(l) =>
    case _ =>
  }

  lemma BackedStays(s: Sys, e: Event, extents: map<nat, nat>)
    requires MemOk(s.mem) && Can(s, e) && Backed(s.mem, extents)
    ensures Backed(Next(s, e).mem, extents)
  {
    forall b | b in extents ensures exists id :: Backs(Next(s, e).mem, id, b, extents[b]) {
      var id :| Backs(s.mem, id, b, extents[b]);
      RA.ActiveStays(s, e, id);
      HalfOnlyByImport(s, e, id);
      assert Backs(Next(s, e).mem, id, b, extents[b]);
    }
  }

  lemma MmapBacks(s: Sys, e: Event)
    requires MemOk(s.mem) && Can(s, e) && e.Mmap? && e.prot == ProtRW
    ensures Backs(Next(s, e).mem, s.mem.free[0], NextBase(s.mem), e.len)
  {
    FreeIsUnused(s.mem);
    Appended(s.mem, s.mem.free[0]);
    assert s.mem.reserved[0] in s.mem.reserved;
  }

  /** The next range lies clear of every active region. */
  lemma NextIsClear(s: Sys, e: Event, id: Id)
    requires MemOk(s.mem) && Can(s, e) && e.Mmap? && id in s.mem.active && id !in s.mem.half
    ensures id < |s.mem.regs|
    ensures var r, base := s.mem.regs[id], NextBase(s.mem);
      r.len > 0 ==> base + e.len <= r.vaddr || r.vaddr + r.len <= base
  {
    var r, from := s.mem.regs[id], s.mem.reserved[0];
    var base, len := NextBase(s.mem), e.len;
    NotHalf(s.mem, from);
    assert InUse(s.mem, from) && InUse(s.mem, id);
    if r.len > 0 && r.vaddr < base + len && base < r.vaddr + r.len {
      var common := if r.vaddr < base then base else r.vaddr;
      RT.InvOwns(s.mem, id, common);
      RT.InvOwns(s.mem, from, common);
    }
  }

  lemma ExtentIsClear(s: Sys, e: Event, b: nat, len: nat)
    requires MemOk(s.mem) && Can(s, e) && e.Mmap? && len > 0 && exists id :: Backs(s.mem, id, b, len)
    ensures NextBase(s.mem) + e.len <= b || b + len <= NextBase(s.mem)
  {
    var id :| Backs(s.mem, id, b, len);
    NextIsClear(s, e, id);
  }

  lemma GrantIsFresh(s: Sys, e: Event, h: H.Heap)
    requires MemOk(s.mem) && Can(s, e) && e.Mmap? && NextBase(s.mem) > 0
    requires H.Wf(h) && Backed(s.mem, h.extents)
    ensures H.FreshExtent(h, NextBase(s.mem), e.len)
  {
    var base := NextBase(s.mem);
    assert s.mem.reserved[0] in s.mem.reserved && RegionOk(s.mem.regs[s.mem.reserved[0]]);
    forall b | b in h.extents ensures base + e.len <= b || b + h.extents[b] <= base {
      assert H.ExtentOk(h, b);
      ExtentIsClear(s, e, b, h.extents[b]);
    }
  }

  /** What sc_mmap returns is what the allocator counts on. */
  lemma MmapGrants(s: Sys, e: Event, h: H.Heap)
    requires MemOk(s.mem) && Can(s, e) && e.Mmap? && e.prot == ProtRW && NextBase(s.mem) > 0
    requires H.Wf(h) && Backed(s.mem, h.extents)
    ensures H.FreshExtent(h, NextBase(s.mem), e.len)
    ensures Backed(Next(s, e).mem, h.extents[NextBase(s.mem) := e.len])
  {
    GrantIsFresh(s, e, h);
    BackedStays(s, e, h.extents);
    MmapBacks(s, e);
    BackedMore(Next(s, e).mem, h.extents, s.mem.free[0], NextBase(s.mem), e.len);
  }

  lemma BackedMore(mem: Mem, extents: map<nat, nat>, id: Id, base: nat, len: nat)
    requires Backed(mem, extents) && Backs(mem, id, base, len)
    ensures Backed(mem, extents[base := len])
  {
  }

  // ----- runs

  ghost predicate JointOk(j: Joint) {
    && Inv(j.sys) && RS.SharingOk(j.sys)
    && H.Wf(j.heap) && H.Settled(j.heap) && Backed(j.sys.mem, j.heap.extents)
  }

  lemma EmptyHeap()
    ensures H.Wf(H.EMPTY) && H.Settled(H.EMPTY)
  {
  }

  lemma FirstHeap(base: nat, first: nat)
    requires base > 0 && base % PAGE == 0 && H.MmapSize(first) == PAGE
    ensures var h := H.Malloc(H.EMPTY, first, Some(base)).0;
      H.Wf(h) && H.Settled(h) && h.extents == map[base := PAGE]
  {
    EmptyHeap();
    HI.MallocKeepsWf(H.EMPTY, first, Some(base));
    HT.MallocKeepsSettled(H.EMPTY, first, Some(base));
    HT.MallocContract(H.EMPTY, first, Some(base));
  }

  lemma StartOk(g: Grant, first: nat)
    requires GoodGrant(g) && g.reserve > 0 && H.MmapSize(first) == PAGE
    ensures JointOk(Start(g, first))
  {
    BootedInv(g);
    RS.BootedSharing(g);
    FirstHeap(g.reserve, first);
    BootBacks(g);
  }

  lemma BootBacks(g: Grant)
    requires GoodGrant(g)
    ensures Backs(Booted(g).mem, 2, g.reserve, PAGE)
  {
    BootedLists(g);
    Appended(Formatted(g), 2);
    assert Booted(g).mem.active == [0] + [2];
  }

  lemma GrowingKeepsOk(j: Joint, m: Move)
    requires JointOk(j) && CanMove(j, m) && m.Growing?
    ensures JointOk(Moved(j, m))
  {
    var e, grant := PagesFor(m), Some(NextBase(j.sys.mem));
    MmapGrants(j.sys, e, j.heap);
    EventKeepsInv(j.sys, e);
    RS.EventKeepsSharing(j.sys, e);
    HI.MallocKeepsWf(j.heap, m.size, grant);
    HT.MallocKeepsSettled(j.heap, m.size, grant);
    HT.FitFound(j.heap, m.size);
    HT.MallocContract(j.heap, m.size, grant);
  }

  lemma CallKeepsOk(j: Joint, c: HT.Call)
    requires JointOk(j) && CanMove(j, Call(c))
    ensures JointOk(Moved(j, Call(c)))
  {
    HT.CallKeepsWf(j.heap, c);
    match c
    case MallocCall(size, grant) => HT.MallocContract(j.heap, size, grant);
    case FreeCall(_) =>
  }

  lemma OtherKeepsOk(j: Joint, e: Event)
    requires JointOk(j) && Can(j.sys, e)
    ensures Inv(Next(j.sys, e)) && RS.SharingOk(Next(j.sys, e)) && Backed(Next(j.sys, e).mem, j.heap.extents)
  {
    EventKeepsInv(j.sys, e);
    RS.EventKeepsSharing(j.sys, e);
    BackedStays(j.sys, e, j.heap.extents);
  }

  lemma MoveKeepsOk(j: Joint, m: Move)
    requires JointOk(j) && CanMove(j, m)
    ensures JointOk(Moved(j, m))
  {
    match m
    case Other(e) => OtherKeepsOk(j, e);
    case Call(c) => CallKeepsOk(j, c);
    case Growing(_, _) => GrowingKeepsOk(j, m);
  }

  ghost predicate OkAt(js: seq<Joint>, i: int) {
    0 <= i < |js| && JointOk(js[i])
  }

  ghost predicate OkUpTo(js: seq<Joint>, k: nat) {
    forall i {:trigger OkAt(js, i)} :: 0 <= i <= k ==> OkAt(js, i)
  }

  lemma OneMove(js: seq<Joint>, moves: seq<Move>, k: nat)
    requires AreMoves(js, moves) && k < |moves| && OkUpTo(js, k)
    ensures OkUpTo(js, k + 1)
  {
    assert MoveAt(js, moves, k) && OkAt(js, k);
    MoveKeepsOk(js[k], moves[k]);
    assert OkAt(js, k + 1);
  }

  lemma {:induction false} MovesKeepOk(js: seq<Joint>, moves: seq<Move>, k: nat)
    requires AreMoves(js, moves) && k < |js| && OkUpTo(js, 0)
    ensures OkUpTo(js, k)
  {
    if k > 0 {
      MovesKeepOk(js, moves, k - 1);
      OneMove(js, moves, k - 1);
    }
  }

  /** Whatever the processes of the subcontext do, the heap stays tiled and every extent of it is
      an active region of its own. */
  lemma HeapOverRegions(g: Grant, first: nat, js: seq<Joint>, moves: seq<Move>, k: nat)
    requires IsJointRun(g, first, js, moves) && k < |js|
    ensures JointOk(js[k])
  {
    StartOk(g, first);
    assert OkAt(js, 0);
    MovesKeepOk(js, moves, k);
    assert OkAt(js, k);
  }

  lemma BlockIsBacked(j: Joint, a: nat, vaddr: nat) returns (id: Id)
    requires JointOk(j) && a in H.Blocks(j.heap) && a <= vaddr < a + H.Blocks(j.heap)[a]
    ensures id < |j.sys.mem.regs| && id in j.sys.mem.active && id !in j.sys.mem.half
    ensures j.sys.mem.regs[id].prot == ProtRW
    ensures InRange(j.sys.mem.regs[id], vaddr)
  {
    assert H.ChunkOk(j.heap, a);
    var e := j.heap.chunks[a].ext;
    id :| Backs(j.sys.mem, id, e, j.heap.extents[e]);
  }

  ghost predicate MoreThanOne(s: State) {
    exists p, q :: p in s.procs && q in s.procs && p != q
  }

  lemma BlockIsServed(s: Sys, p: Pid, id: Id, vaddr: nat, access: Access)
    requires Inv(s) && RS.SharingOk(s) && (MoreThanOne(s.log) || Unclaimed(s.mem, vaddr / PAGE))
    requires p in s.log.procs && id < |s.mem.regs| && id in s.mem.active && id !in s.mem.half
    requires InRange(s.mem.regs[id], vaddr) && Permits(s.mem.regs[id].prot, access)
    ensures RT.Served(s, p, id, vaddr, access)
  {
    if Unclaimed(s.mem, vaddr / PAGE) {
      RT.TouchInState(s, p, id, vaddr, access);
    } else {
      RT.InvOwns(s.mem, id, vaddr);
      assert Agrees(s.mem.owner, s.space[p]);
      RT.UsedIsInFile(s.mem, id, vaddr / PAGE);
      RS.HeldIsServed(s, p, id, vaddr, access);
    }
  }

  /** Memory from sc_malloc is shared: every byte of every block can be read and written by every
      registered process, at the same address and from the same place of the backing file.  Only a
      process that is alone may find a half-imported region in its place. */
  lemma BlocksAreShared(g: Grant, first: nat, js: seq<Joint>, moves: seq<Move>, k: nat, a: nat, vaddr: nat)
      returns (id: Id)
    requires IsJointRun(g, first, js, moves) && k < |js|
    requires a in H.Blocks(js[k].heap) && a <= vaddr < a + H.Blocks(js[k].heap)[a]
    requires MoreThanOne(js[k].sys.log) || Unclaimed(js[k].sys.mem, vaddr / PAGE)
    ensures id < |js[k].sys.mem.regs| && id in js[k].sys.mem.active && InRange(js[k].sys.mem.regs[id], vaddr)
    ensures js[k].sys.mem.regs[id].offset.Some?
    ensures forall p: Pid :: p in js[k].sys.log.procs ==>
      RT.Served(js[k].sys, p, id, vaddr, Read) && RT.Served(js[k].sys, p, id, vaddr, Write)
  {
    var s := js[k].sys;
    HeapOverRegions(g, first, js, moves, k);
    id := BlockIsBacked(js[k], a, vaddr);
    assert s.mem.regs[id].offset.Some?;
    forall p: Pid | p in s.log.procs ensures RT.Served(s, p, id, vaddr, Read) && RT.Served(s, p, id, vaddr, Write) {
      BlockIsServed(s, p, id, vaddr, Read);
      BlockIsServed(s, p, id, vaddr, Write);
    }
  }

  /** Where the file holds the byte at this address of the region. */
  function ByteInFile(r: Region, vaddr: nat): int
    requires r.offset.Some?
  {
    r.offset.value + (vaddr - r.vaddr)
  }

  lemma BytesApart(mem: Mem, i: Id, j: Id, v: nat, w: nat)
    requires FilesOk(mem) && FileBacked(mem, i) && FileBacked(mem, j) && v != w
    requires InRange(mem.regs[i], v) && InRange(mem.regs[j], w)
    ensures ByteInFile(mem.regs[i], v) != ByteInFile(mem.regs[j], w)
  {
  }

  /** Two bytes of blocks, of the same block or of two, are served to all processes from two
      different bytes of the file, so that writing one never changes the other. */
  lemma BlockBytesAreApart(g: Grant, first: nat, js: seq<Joint>, moves: seq<Move>, k: nat,
                           a: nat, v: nat, b: nat, w: nat) returns (i: Id, j: Id)
    requires IsJointRun(g, first, js, moves) && k < |js| && v != w
    requires a in H.Blocks(js[k].heap) && a <= v < a + H.Blocks(js[k].heap)[a]
    requires b in H.Blocks(js[k].heap) && b <= w < b + H.Blocks(js[k].heap)[b]
    requires MoreThanOne(js[k].sys.log)
             || (Unclaimed(js[k].sys.mem, v / PAGE) && Unclaimed(js[k].sys.mem, w / PAGE))
    ensures forall p: Pid :: p in js[k].sys.log.procs ==>
      RT.Served(js[k].sys, p, i, v, Write) && RT.Served(js[k].sys, p, j, w, Write)
    ensures var regs := js[k].sys.mem.regs;
      && i < |regs| && j < |regs| && regs[i].offset.Some? && regs[j].offset.Some?
      && ByteInFile(regs[i], v) != ByteInFile(regs[j], w)
  {
    i := BlocksAreShared(g, first, js, moves, k, a, v);
    j := BlocksAreShared(g, first, js, moves, k, b, w);
    HeapOverRegions(g, first, js, moves, k);
    BytesApart(js[k].sys.mem, i, j, v, w);
  }
}
