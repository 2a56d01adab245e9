/** A run in which a process that is alone loses a block to a half-imported region. */
module HeapRuns {
  import opened Basics
  import opened CleanupLog
  import opened Regions
  import opened RegionsInvariant
  import opened RegionsBoot
  import opened RegionsLimits
  import opened RegionsStages
  import opened HeapPages
  import RT = RegionsTheorems
  import CT = CleanupLogTheorems
  import H = Heaps
  import HI = HeapInvariant
  import HT = HeapTheorems

  // ----- the log

  /** Process 0 reserves and leaves; process 1 acknowledges, cleans up and remains. */
  function LeavingLabels(r: Range): seq<Label> {
    [Join(1), PostBegin(0), PostCommit(0, Reserve(r)), Depart(0), Enter(1), LockHead(1), Ack(1),
     Advance(1), TakeRoot(1), TakeHead(1), FreeHead(1)]
  }

  function LeavingState(r: Range, i: nat): State
    requires i <= 11
  {
    var o := Observer(map[2 := Ledger({0, 1}, {0}, 0)], 0, None, false, 2);
    var o' := o.(ledger := map[2 := Ledger({0, 1}, {0, 1}, 0)], cleaner := Some(1));
    var log, log' := [Step(2, Reserve(r), 2, 1)], [Step(2, Reserve(r), 2, 2)];
    var p, p' := Proc(1, Idle, false), Proc(2, Idle, false);
    if i <= 3 then CT.StrandingState(r, i)
    else if i == 4 then State(2, log, Some(2), Some(r), 1, map[1 := p], o)
    else if i == 5 then State(2, log, Some(2), Some(r), 1, map[1 := p.(scan := AtRoot)], o)
    else if i == 6 then State(2, log, Some(2), Some(r), 1, map[1 := p.(scan := Work(2, 2, false))], o)
    else if i == 7 then State(2, log', Some(2), Some(r), 1, map[1 := p'.(scan := Acked(2, 2, true))], o')
    else if i == 8 then State(2, log', Some(2), Some(r), 1, map[1 := p'.(scan := WantRoot)], o')
    else if i == 9 then State(2, log', Some(2), Some(r), 1, map[1 := p'.(scan := CleanEnter)], o')
    else if i == 10 then State(2, log', Some(2), Some(r), 1, map[1 := p'.(scan := Clean(2))], o')
    else State(2, [], None, None, 1, map[1 := p'], o'.(cleaner := None))
  }

  ghost predicate LeavingStep(r: Range, i: nat)
    requires i < 11
  {
    && Enabled(LeavingState(r, i), LeavingLabels(r)[i])
    && LeavingState(r, i + 1) == Apply(LeavingState(r, i), LeavingLabels(r)[i])
  }

  lemma LeavingPosts(r: Range)
    requires r.len > 0
    ensures LeavingStep(r, 0) && LeavingStep(r, 1) && LeavingStep(r, 2)
  {
    CT.StrandingPosts(r);
  }

  lemma LeavingDeparts(r: Range)
    ensures LeavingStep(r, 3)
  {
    assert LeavingState(r, 3).procs - {0} == LeavingState(r, 4).procs;
  }

  lemma LeavingWalks(r: Range)
    ensures LeavingStep(r, 4) && LeavingStep(r, 5)
  {
  }

  lemma LeavingAcks(r: Range)
    ensures LeavingStep(r, 6) && LeavingStep(r, 7)
  {
    assert {0} + {1} == {0, 1};
    assert Enabled(LeavingState(r, 6), Ack(1));
    assert [Step(2, Reserve(r), 2, 1)][0 := Step(2, Reserve(r), 2, 2)] == [Step(2, Reserve(r), 2, 2)];
  }

  lemma LeavingTakesCharge(r: Range)
    ensures LeavingStep(r, 8) && LeavingStep(r, 9)
  {
  }

  lemma LeavingCleans(r: Range)
    ensures LeavingStep(r, 10)
  {
  }

  lemma LeavingSteps(r: Range, i: nat)
    requires r.len > 0 && i < 11
    ensures LeavingStep(r, i)
  {
    if i < 3 {
      LeavingPosts(r);
    } else if i == 3 {
      LeavingDeparts(r);
    } else if i < 6 {
      LeavingWalks(r);
    } else if i < 8 {
      LeavingAcks(r);
    } else if i < 10 {
      LeavingTakesCharge(r);
    } else {
      LeavingCleans(r);
    }
  }

  // ----- the subcontext

  function LonelyEvents(): seq<Event> {
    [Prealloc(0), JoinAt(1, {SPOT}), Log(PostBegin(0)), Log(PostCommit(0, Reserve(SpotRange(4)))), Log(Depart(0)),
     Import(1, SPOT * PAGE, PAGE, ProtRW, NotExtended), UnmapPrivate(1, {SPOT}), Log(Enter(1)), Log(LockHead(1)),
     Log(Ack(1)), Log(Advance(1)), Log(TakeRoot(1)), Log(TakeHead(1)), Log(FreeHead(1))]
  }

  /** How many labels of the log have happened after `k` events. */
  function LogTime(k: nat): nat {
    if k <= 1 then 0 else if k <= 5 then k - 1 else if k <= 7 then 4 else if k <= 14 then k - 3 else 11
  }

  /** Both are registered, and only process 1 has a page at the spot. */
  ghost predicate TwoThere(s: Sys) {
    && |s.mem.free| == 5 && s.mem.half == {} && NoneEmpty(s.mem) && Unshared(s.mem)
    && s.space.Keys == {0, 1} && HasOnly(s.space[0], {}) && HasOnly(s.space[1], {SPOT})
  }

  /** The reservation is pending; process 1 still has its page. */
  ghost predicate Pending(s: Sys) {
    && |s.mem.free| == 4 && s.mem.half == {} && NoneEmpty(s.mem) && Unshared(s.mem)
    && 1 in s.space && HasOnly(s.space[1], {SPOT})
  }

  /** Process 1 has half-imported the page, as region `id`, and has these pages left. */
  ghost predicate Halved(s: Sys, id: Id, left: set<nat>) {
    && HalfSpot(s.mem, id, 1) && |s.mem.free| == 3 && s.space.Keys == {1} && HasOnly(s.space[1], left)
  }

  /** It has acknowledged the reservation, which covers that page. */
  ghost predicate HoldsSpot(s: Sys, id: Id) {
    && HalfSpot(s.mem, id, 1) && |s.mem.free| == 3 && s.space.Keys == {1}
    && SPOT in s.space[1] && s.space[1][SPOT].Placeholder?
  }

  /** The reservation is in use, at the front of its list, on top of the half-imported page. */
  ghost predicate Doubled(s: Sys, id: Id) {
    && s.mem.half == {id} && id < |s.mem.regs| && id in s.mem.active && |s.mem.free| == 3
    && s.mem.regs[id].vaddr == SPOT * PAGE && s.mem.regs[id].len == PAGE
    && s.mem.regs[id].prot == ProtRW && s.mem.regs[id].offset.Some?
    && |s.mem.reserved| > 0 && s.mem.reserved[0] < |s.mem.regs| && s.mem.reserved[0] !in s.mem.active
    && s.mem.regs[s.mem.reserved[0]].vaddr == SPOT * PAGE && s.mem.regs[s.mem.reserved[0]].len == 4 * PAGE
    && SPOT in s.mem.owner && s.mem.owner[SPOT] == s.mem.reserved[0]
    && s.space.Keys == {1} && SPOT in s.space[1] && s.space[1][SPOT].Placeholder?
  }

  ghost predicate LonelyMem(k: nat, s: Sys) {
    if k == 0 then Alone(s, {}) && s.mem.newcomers == {0}
    else if k == 1 then Alone(s, {}) && s.mem.prealloc
    else if k <= 3 then TwoThere(s)
    else if k == 4 then Pending(s) && s.space.Keys == {0, 1}
    else if k == 5 then Pending(s) && s.space.Keys == {1}
    else if k == 6 then exists id :: Halved(s, id, {SPOT})
    else if k <= 9 then exists id :: Halved(s, id, {})
    else if k <= 13 then exists id :: HoldsSpot(s, id)
    else exists id :: Doubled(s, id)
  }

  ghost predicate LonelyStage(k: nat, s: Sys) {
    s.log == LeavingState(SpotRange(4), LogTime(k)) && LonelyMem(k, s)
  }

  /** A label that leaves memory alone. */
  lemma QuietLabel(s: Sys, l: Label, i: nat)
    requires Listed(s.mem) && i < 11 && s.log == LeavingState(SpotRange(4), i) && l == LeavingLabels(SpotRange(4))[i]
    requires i == 1 || 4 <= i < 6 || 7 <= i < 10
    ensures Can(s, Log(l)) && Next(s, Log(l)) == s.(log := LeavingState(SpotRange(4), i + 1))
  {
    LeavingSteps(SpotRange(4), i);
  }

  lemma LonelyJoins(s: Sys)
    requires MemOk(s.mem) && Alone(s, {}) && s.mem.prealloc
    ensures Can(s, JoinAt(1, {SPOT})) && TwoThere(Next(s, JoinAt(1, {SPOT})))
    ensures Next(s, JoinAt(1, {SPOT})).log == LeavingState(SpotRange(4), 1)
  {
    JoinHasOnly(s.mem, {SPOT});
    LeavingSteps(SpotRange(4), 0);
  }

  lemma LonelyPosts(s: Sys, e: Event)
    requires ListsOk(s.mem) && TwoThere(s) && s.log == LeavingState(SpotRange(4), 2)
    requires e == Log(PostCommit(0, Reserve(SpotRange(4))))
    ensures Can(s, e) && Pending(Next(s, e)) && Next(s, e).space.Keys == {0, 1}
    ensures Next(s, e).log == LeavingState(SpotRange(4), 3)
  {
    SpotPages(4);
    FreeIsUnused(s.mem);
    LeavingSteps(SpotRange(4), 2);
  }

  lemma LonelyDeparts(s: Sys)
    requires Listed(s.mem) && Pending(s) && s.space.Keys == {0, 1} && s.log == LeavingState(SpotRange(4), 3)
    ensures var t := Next(s, Log(Depart(0)));
      Can(s, Log(Depart(0))) && Pending(t) && t.space.Keys == {1} && t.log == LeavingState(SpotRange(4), 4)
  {
    LeavingSteps(SpotRange(4), 3);
    DepartNext(s, 0);
  }

  lemma DepartNext(s: Sys, p: Pid)
    requires Listed(s.mem) && Enabled(s.log, Depart(p))
    ensures Can(s, Log(Depart(p)))
    ensures Next(s, Log(Depart(p))) ==
      Sys(Apply(s.log, Depart(p)), s.mem.(newcomers := s.mem.newcomers - {p}), s.space - {p})
  {
  }

  lemma LonelyImports(s: Sys, e: Event)
    requires MemOk(s.mem) && Pending(s) && s.space.Keys == {1} && s.log == LeavingState(SpotRange(4), 4)
    requires e == Import(1, SPOT * PAGE, PAGE, ProtRW, NotExtended)
    ensures Can(s, e) && Halved(Next(s, e), s.mem.free[0], {SPOT}) && Next(s, e).log == s.log
  {
    SpotPages(1);
    NoOverlap(s.mem, 1);
    HalfImportLists(s.mem, 1);
  }

  lemma LonelyUnmaps(s: Sys, id: Id)
    requires Listed(s.mem) && Halved(s, id, {SPOT})
    ensures var t := Next(s, UnmapPrivate(1, {SPOT}));
      Can(s, UnmapPrivate(1, {SPOT})) && Halved(t, id, {}) && t.log == s.log
  {
  }

  lemma LonelyAcks(s: Sys, id: Id)
    requires Listed(s.mem) && Halved(s, id, {}) && s.log == LeavingState(SpotRange(4), 6)
    ensures var t := Next(s, Log(Ack(1)));
      Can(s, Log(Ack(1))) && HoldsSpot(t, id) && t.log == LeavingState(SpotRange(4), 7)
  {
    SpotPages(4);
    LeavingSteps(SpotRange(4), 6);
  }

  lemma AdoptDoubles(mem: Mem, m: Mem, id: Id)
    requires ListsOk(mem) && HalfSpot(mem, id, 1) && mem.pending.Some? && m == DoAdopt(mem)
    requires mem.regs[mem.pending.value].vaddr == SPOT * PAGE && mem.regs[mem.pending.value].len == 4 * PAGE
    ensures m.reserved[0] == mem.pending.value && m.reserved[0] !in m.active
    ensures SPOT in m.owner && m.owner[SPOT] == m.reserved[0]
  {
    SpotPages(4);
    OnePlace(mem, mem.pending.value);
    assert SPOT in PagesOf(SPOT * PAGE, 4 * PAGE);
  }

  lemma LonelyAdopts(s: Sys, id: Id)
    requires MemOk(s.mem) && PendOk(s) && HoldsSpot(s, id) && s.log == LeavingState(SpotRange(4), 10)
    ensures var t := Next(s, Log(FreeHead(1)));
      Can(s, Log(FreeHead(1))) && Doubled(t, id) && t.log == LeavingState(SpotRange(4), 11)
  {
    LeavingSteps(SpotRange(4), 10);
    AdoptDoubles(s.mem, DoAdopt(s.mem), id);
  }

  lemma LonelyStarts(k: nat, s: Sys, e: Event)
    requires k < 5 && MemOk(s.mem) && LonelyStage(k, s) && e == LonelyEvents()[k]
    ensures Can(s, e) && LonelyStage(k + 1, Next(s, e))
  {
    if k == 0 {
      PreallocAlone(s, {});
    } else if k == 1 {
      LonelyJoins(s);
    } else if k == 2 {
      QuietLabel(s, PostBegin(0), 1);
    } else if k == 3 {
      LonelyPosts(s, e);
    } else {
      LonelyDeparts(s);
    }
  }

  lemma LonelyHalves(k: nat, s: Sys, e: Event)
    requires 5 <= k < 7 && MemOk(s.mem) && LonelyStage(k, s) && e == LonelyEvents()[k]
    ensures Can(s, e) && LonelyStage(k + 1, Next(s, e))
  {
    if k == 5 {
      LonelyImports(s, e);
    } else {
      var id :| Halved(s, id, {SPOT});
      LonelyUnmaps(s, id);
    }
  }

  lemma LonelyGoesOn(k: nat, s: Sys, e: Event)
    requires 7 <= k < 10 && MemOk(s.mem) && LonelyStage(k, s) && e == LonelyEvents()[k]
    ensures Can(s, e) && LonelyStage(k + 1, Next(s, e))
  {
    var id :| Halved(s, id, {});
    if k < 9 {
      QuietLabel(s, e.l, k - 3);
      assert Halved(Next(s, e), id, {});
    } else {
      LonelyAcks(s, id);
    }
  }

  lemma LonelyEnds(k: nat, s: Sys, e: Event)
    requires 10 <= k < 14 && Fit(s) && LonelyStage(k, s) && e == LonelyEvents()[k]
    ensures Can(s, e) && LonelyStage(k + 1, Next(s, e))
  {
    var id :| HoldsSpot(s, id);
    if k < 13 {
      QuietLabel(s, e.l, k - 3);
      assert HoldsSpot(Next(s, e), id);
    } else {
      LonelyAdopts(s, id);
    }
  }

  lemma LonelyLeads(es: seq<Event>)
    requires es == LonelyEvents()
    ensures AllLead(es, LonelyStage)
  {
    forall k: nat, s: Sys ensures Leads(es, LonelyStage, k, s) {
      if k < 5 && Fit(s) && LonelyStage(k, s) {
        LonelyStarts(k, s, es[k]);
      } else if k < 7 && Fit(s) && LonelyStage(k, s) {
        LonelyHalves(k, s, es[k]);
      } else if k < 10 && Fit(s) && LonelyStage(k, s) {
        LonelyGoesOn(k, s, es[k]);
      } else if k < 14 && Fit(s) && LonelyStage(k, s) {
        LonelyEnds(k, s, es[k]);
      }
    }
  }

  lemma LonelyRun(g: Grant, es: seq<Event>) returns (states: seq<Sys>)
    requires g == SpotGrant({}) && es == LonelyEvents()
    ensures IsBootRun(g, states, es) && LonelyStage(14, states[14])
  {
    BootedAlone({});
    LonelyLeads(es);
    states := PlayFromBoot(g, es, LonelyStage);
  }

  // ----- the heap

  /** A request that needs two pages of its own. */
  const BIG: nat := 5000

  lemma BigSizes()
    ensures H.MmapSize(BIG) == 2 * PAGE && H.AllocSize(BIG) > PAGE && H.MmapSize(0) == PAGE
  {
  }

  lemma NothingFits(h: H.Heap, base: nat)
    requires H.Wf(h) && h.extents == map[base := PAGE]
    ensures H.ListKnown(h) && H.FirstFit(h, BIG, 0) == |h.free|
  {
    BigSizes();
    forall i | 0 <= i < |h.free| ensures !H.Fits(h.chunks[h.free[i]], BIG) {
      assert H.ChunkOk(h, h.free[i]);
    }
    HT.FitFound(h, BIG);
  }

  /** The events of a subcontext, with a heap that nobody calls. */
  lemma JointFromEvents(states: seq<Sys>, events: seq<Event>, h: H.Heap) returns (js: seq<Joint>, moves: seq<Move>)
    requires IsSysRun(states, events) && H.ListKnown(h)
    ensures AreMoves(js, moves) && |moves| == |events|
    ensures forall i :: 0 <= i < |states| ==> js[i] == Joint(states[i], h)
  {
    js := seq(|states|, i requires 0 <= i < |states| => Joint(states[i], h));
    moves := seq(|events|, i requires 0 <= i < |events| => Other(events[i]));
    forall i | 0 <= i < |moves| ensures MoveAt(js, moves, i) {
      assert EventAt(states, events, i);
    }
  }

  lemma OneMoreMove(js: seq<Joint>, moves: seq<Move>, m: Move) returns (js': seq<Joint>, moves': seq<Move>)
    requires AreMoves(js, moves) && CanMove(js[|moves|], m)
    ensures AreMoves(js', moves') && |moves'| == |moves| + 1 && js'[0] == js[0]
    ensures js'[|moves'|] == Moved(js[|moves|], m)
  {
    js', moves' := js + [Moved(js[|moves|], m)], moves + [m];
    forall i | 0 <= i < |moves'| ensures MoveAt(js', moves', i) {
      if i < |moves| {
        assert MoveAt(js, moves, i);
      }
    }
  }

  /** What follows in the list does not matter once the walk has found a region. */
  lemma {:induction false} FindAppended(regs: seq<Region>, regs': seq<Region>, active: seq<Id>, id: Id, vaddr: nat)
    requires Known(regs, active) && Known(regs', active + [id]) && Find(regs, active, vaddr).Some?
    requires forall i :: 0 <= i < |active| && active[i] < |regs'| ==> regs'[active[i]] == regs[active[i]]
    ensures Find(regs', active + [id], vaddr) == Find(regs, active, vaddr)
    decreases |active|
  {
    assert (active + [id])[0] == active[0];
    assert regs'[active[0]] == regs[active[0]];
    assert (active + [id])[1..] == active[1..] + [id];
    if !InRange(regs[active[0]], vaddr) {
      FindAppended(regs, regs', active[1..], id, vaddr);
    }
  }

  /** Where the block will begin: behind the page head. */
  const BLOCK: nat := SPOT * PAGE + H.NODE

  function TwoPages(): Event {
    Mmap(1, 2 * PAGE, ProtRW)
  }

  lemma LonelyMaps(s: Sys, id: Id)
    requires MemOk(s.mem) && Doubled(s, id) && s.log == LeavingState(SpotRange(4), 11)
    ensures Can(s, TwoPages()) && MmapReady(s.mem, 2 * PAGE, ProtRW) && NextBase(s.mem) == SPOT * PAGE
  {
  }

  /** After the mapping the handler still finds the half-imported region at the block. */
  lemma StillFindsHalf(mem: Mem, id: Id)
    requires MmapReady(mem, 2 * PAGE, ProtRW) && mem.half == {id} && id < |mem.regs| && id in mem.active
    requires mem.regs[id].vaddr == SPOT * PAGE && mem.regs[id].len == PAGE
    requires SPOT in mem.owner && mem.owner[SPOT] !in mem.active
    ensures var m := DoMmap(mem, 2 * PAGE, ProtRW);
      && Known(m.regs, m.active) && Find(m.regs, m.active, BLOCK) == Some(id)
      && m.regs[id] == mem.regs[id] && m.half == {id} && id in m.active
  {
    var m := DoMmap(mem, 2 * PAGE, ProtRW);
    HandlerFindsHalf(mem, id, BLOCK);
    MmapMoves(mem, 2 * PAGE, ProtRW);
    MmapKeepsLists(mem, 2 * PAGE, ProtRW);
    forall i | 0 <= i < |mem.active| ensures m.regs[mem.active[i]] == mem.regs[mem.active[i]] {
      assert mem.active[i] in mem.active;
    }
    FindAppended(mem.regs, m.regs, mem.active, mem.free[0], BLOCK);
  }

  /** Two file-backed regions never show the same place. */
  lemma PlacesDiffer(mem: Mem, a: Id, b: Id, pg: nat)
    requires RegionsOk(mem) && FilesOk(mem) && FileBacked(mem, a) && FileBacked(mem, b) && a != b
    requires Covers(mem.regs[a], pg) && Covers(mem.regs[b], pg)
    ensures FileOffset(mem.regs[a], pg) != FileOffset(mem.regs[b], pg)
  {
    RT.PageEnds(mem.regs[a], pg);
    RT.PageEnds(mem.regs[b], pg);
  }

  lemma NotFromTheBlock(t: Sys, id: Id, x: Id)
    requires ContentOk(t.mem) && Listed(t.mem) && t.mem.half == {id} && FileBacked(t.mem, id)
    requires Covers(t.mem.regs[id], SPOT) && Find(t.mem.regs, t.mem.active, BLOCK) == Some(id)
    requires 1 in t.space && SPOT in t.space[1] && t.space[1][SPOT].Placeholder?
    requires InUse(t.mem, x)
    ensures !RT.Served(t, 1, x, BLOCK, Read)
  {
    assert BLOCK / PAGE == SPOT;
    InRegion(t.mem.regs[x], SPOT * PAGE);
    if FileBacked(t.mem, x) && Covers(t.mem.regs[x], SPOT) {
      RT.Linear(t.mem.regs[x], SPOT);
      PlacesDiffer(t.mem, id, x, SPOT);
    }
  }

  /** The handler serves the block from the half-imported region, and so from no region in use. */
  lemma BlockIsTaken(s: Sys, id: Id)
    requires MemOk(s.mem) && Doubled(s, id) && s.log == LeavingState(SpotRange(4), 11)
    ensures Can(s, TwoPages()) && 1 in Next(s, TwoPages()).log.procs
    ensures forall x :: InUse(Next(s, TwoPages()).mem, x) ==> !RT.Served(Next(s, TwoPages()), 1, x, BLOCK, Read)
  {
    LonelyMaps(s, id);
    StillFindsHalf(s.mem, id);
    MmapKeepsLists(s.mem, 2 * PAGE, ProtRW);
    MmapKeepsContent(s.mem, 2 * PAGE, ProtRW);
    SpotPages(1);
    forall x | InUse(Next(s, TwoPages()).mem, x) ensures !RT.Served(Next(s, TwoPages()), 1, x, BLOCK, Read) {
      NotFromTheBlock(Next(s, TwoPages()), id, x);
    }
  }

  lemma BlockIsThere(h: H.Heap, base: nat)
    requires H.Wf(h) && h.extents == map[base := PAGE] && H.FreshExtent(h, SPOT * PAGE, 2 * PAGE)
    ensures H.ListKnown(h) && BLOCK in H.Blocks(H.Malloc(h, BIG, Some(SPOT * PAGE)).0)
  {
    BigSizes();
    NothingFits(h, base);
    HT.FreshExtentServes(h, BIG, SPOT * PAGE);
    var g := H.Grow(h, SPOT * PAGE, 2 * PAGE);
    HI.GrowKeepsWf(h, SPOT * PAGE, 2 * PAGE);
    HT.ServeAddsBlock(g, 0, BIG);
  }

  lemma FreshSpot(h: H.Heap)
    requires h.extents == map[16 * PAGE := PAGE]
    ensures H.FreshExtent(h, SPOT * PAGE, 2 * PAGE)
  {
  }

  function FirstHeapOf(g: Grant): H.Heap {
    H.Malloc(H.EMPTY, 0, Some(g.reserve)).0
  }

  lemma LonelyHeap(g: Grant)
    requires g == SpotGrant({})
    ensures H.Wf(FirstHeapOf(g)) && FirstHeapOf(g).extents == map[16 * PAGE := PAGE]
  {
    BigSizes();
    FirstHeap(g.reserve, 0);
  }

  /** The process grows the heap by two pages. */
  lemma LonelyGrows(s: Sys, h: H.Heap)
    requires MemOk(s.mem) && LonelyStage(14, s) && H.Wf(h) && h.extents == map[16 * PAGE := PAGE]
    ensures var j, m := Joint(s, h), Growing(1, BIG);
      && CanMove(j, m) && 1 in Moved(j, m).sys.log.procs && BLOCK in H.Blocks(Moved(j, m).heap)
      && forall x :: InUse(Moved(j, m).sys.mem, x) ==> !RT.Served(Moved(j, m).sys, 1, x, BLOCK, Read)
  {
    var id :| Doubled(s, id);
    BigSizes();
    NothingFits(h, 16 * PAGE);
    FreshSpot(h);
    BlockIsThere(h, 16 * PAGE);
    LonelyMaps(s, id);
    BlockIsTaken(s, id);
  }

  /** A block of a process that is alone need not be served from its own region: a reservation was
      pending when its poster left; the process that remained half-imported a page of it, gave the
      page up, acknowledged and cleaned up; and the heap grew into the reservation. */
  lemma LoneBlockMayBeTaken() returns (js: seq<Joint>, moves: seq<Move>)
    ensures IsJointRun(SpotGrant({}), 0, js, moves) && |moves| == 15
    ensures 1 in js[15].sys.log.procs && BLOCK in H.Blocks(js[15].heap)
    ensures forall x :: InUse(js[15].sys.mem, x) ==> !RT.Served(js[15].sys, 1, x, BLOCK, Read)
  {
    js, moves := LonelyJoint(SpotGrant({}), LonelyEvents());
  }

  lemma LonelyJoint(g: Grant, es: seq<Event>) returns (js: seq<Joint>, moves: seq<Move>)
    requires g == SpotGrant({}) && es == LonelyEvents()
    ensures IsJointRun(g, 0, js, moves) && |moves| == 15
    ensures 1 in js[15].sys.log.procs && BLOCK in H.Blocks(js[15].heap)
    ensures forall x :: InUse(js[15].sys.mem, x) ==> !RT.Served(js[15].sys, 1, x, BLOCK, Read)
  {
    BigSizes();
    SpotGrantIsGood({});
    LonelyHeap(g);
    var states := LonelyRun(g, es);
    ReachableInv(g, states, es, 14);
    LonelyGrows(states[14], FirstHeapOf(g));
    js, moves := JointFromEvents(states, es, FirstHeapOf(g));
    js, moves := OneMoreMove(js, moves, Growing(1, BIG));
  }
}
