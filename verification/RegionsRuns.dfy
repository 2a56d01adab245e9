/** Runs in which something goes wrong: one for each condition that the code does not check. */
module RegionsRuns {
  import opened Basics
  import opened CleanupLog
  import opened Regions
  import opened RegionsInvariant
  import opened RegionsBoot
  import opened RegionsLimits
  import opened RegionsStages
  import RA = RegionsAccounts
  import RT = RegionsTheorems

  // ----- a pending range is imported over

  function OverlapEvents(): seq<Event> {
    [Prealloc(0), JoinAt(1, {SPOT}), Log(PostBegin(0)), Log(PostCommit(0, Reserve(SpotRange(1)))),
     Log(Depart(0)), Import(1, SPOT * PAGE, PAGE, ProtRW, Done)]
  }

  /** Processes 0 and 1 are registered, and only process 1 has memory at the spot. */
  ghost predicate OverlapReady(s: Sys, posting: bool) {
    && |s.mem.free| == 5 && s.mem.half == {} && NoneEmpty(s.mem) && Unshared(s.mem)
    && s.log.procs == map[0 := Proc(1, Idle, posting), 1 := Proc(1, Idle, false)]
    && s.log.log == [] && s.log.tail == None && s.log.lastSeq == 1 && s.log.pending.None? && s.log.procCount == 2
    && s.space.Keys == {0, 1} && HasOnly(s.space[0], {}) && HasOnly(s.space[1], {SPOT})
  }

  /** Process 1 has yet to acknowledge a reservation of that very page. */
  ghost predicate OverlapPending(s: Sys) {
    && |s.mem.free| == 4 && s.mem.half == {} && NoneEmpty(s.mem) && Unshared(s.mem)
    && s.log.pending == Some(SpotRange(1)) && s.log.lastSeq == 2
    && 1 in s.log.procs && s.log.procs[1] == Proc(1, Idle, false)
    && 1 in s.space && HasOnly(s.space[1], {SPOT})
  }

  lemma OverlapJoins(s: Sys)
    requires MemOk(s.mem) && Alone(s, {}) && s.mem.prealloc
    ensures Can(s, JoinAt(1, {SPOT})) && OverlapReady(Next(s, JoinAt(1, {SPOT})), false)
  {
    JoinHasOnly(s.mem, {SPOT});
    assert Can(s, JoinAt(1, {SPOT}));
    OverlapJoined(s, Next(s, JoinAt(1, {SPOT})), JoinSpace(s.mem, {SPOT}).value);
  }

  lemma OverlapJoined(s: Sys, t: Sys, space: Space)
    requires Alone(s, {}) && HasOnly(space, {SPOT})
    requires t.mem == s.mem.(prealloc := false, newcomers := s.mem.newcomers + {1})
    requires t.log == DoJoin(s.log, 1) && t.space == s.space[1 := space]
    ensures OverlapReady(t, false)
  {
  }

  lemma OverlapBegins(s: Sys)
    requires Listed(s.mem) && OverlapReady(s, false)
    ensures Can(s, Log(PostBegin(0))) && OverlapReady(Next(s, Log(PostBegin(0))), true)
  {
  }

  lemma OverlapPosts(s: Sys, e: Event)
    requires ListsOk(s.mem) && OverlapReady(s, true) && e == Log(PostCommit(0, Reserve(SpotRange(1))))
    ensures Can(s, e) && OverlapPending(Next(s, e))
    ensures Next(s, e).log.procs.Keys == {0, 1} && Next(s, e).log.procs[0] == Proc(2, Idle, false)
    ensures Next(s, e).log.procCount == 2
  {
    SpotPages(1);
    FreeIsUnused(s.mem);
  }

  lemma OverlapDeparts(s: Sys)
    requires Listed(s.mem) && OverlapPending(s) && s.log.procs.Keys == {0, 1} && s.log.procCount == 2
    requires s.log.procs[0] == Proc(2, Idle, false)
    ensures var e := Log(Depart(0));
      && Can(s, e) && OverlapPending(Next(s, e))
      && Next(s, e).log.procs.Keys == {1} && Next(s, e).log.procCount == 1
  {
  }

  lemma OverlapImports(s: Sys, e: Event)
    requires MemOk(s.mem) && OverlapPending(s) && s.log.procs.Keys == {1} && s.log.procCount == 1
    requires e == Import(1, SPOT * PAGE, PAGE, ProtRW, Done)
    ensures Can(s, e) && Next(s, e).log.pending == Some(SpotRange(1)) && !ClearOf(Next(s, e).mem, SpotRange(1))
  {
    SpotPages(1);
    NoOverlap(s.mem, 1);
    assert PagesOf(SPOT * PAGE, PAGE) == {SPOT};
    ImportListsOneMore(s, e);
    assert Listing(Next(s, e).mem, s.mem.free[0], SPOT);
  }

  ghost predicate OverlapStage(k: nat, s: Sys) {
    if k == 0 then Alone(s, {}) && s.mem.newcomers == {0}
    else if k == 1 then Alone(s, {}) && s.mem.prealloc
    else if k <= 3 then OverlapReady(s, k == 3)
    else if k == 4 then
      && OverlapPending(s) && s.log.procs.Keys == {0, 1} && s.log.procCount == 2
      && s.log.procs[0] == Proc(2, Idle, false)
    else if k == 5 then OverlapPending(s) && s.log.procs.Keys == {1} && s.log.procCount == 1
    else s.log.pending == Some(SpotRange(1)) && !ClearOf(s.mem, SpotRange(1))
  }

  lemma OverlapStep(k: nat, s: Sys, e: Event)
    requires k < 6 && MemOk(s.mem) && OverlapStage(k, s) && e == OverlapEvents()[k]
    ensures Can(s, e) && OverlapStage(k + 1, Next(s, e))
  {
    if k == 0 {
      PreallocAlone(s, {});
    } else if k == 1 {
      OverlapJoins(s);
    } else if k == 2 {
      OverlapBegins(s);
    } else if k == 3 {
      OverlapPosts(s, e);
    } else if k == 4 {
      OverlapDeparts(s);
    } else {
      OverlapImports(s, e);
    }
  }

  lemma OverlapLeads(es: seq<Event>)
    requires es == OverlapEvents()
    ensures AllLead(es, OverlapStage)
  {
    forall k: nat, s: Sys ensures Leads(es, OverlapStage, k, s) {
      if k < 6 && Fit(s) && OverlapStage(k, s) {
        OverlapStep(k, s, es[k]);
      }
    }
  }

  lemma OverlapRun(g: Grant, es: seq<Event>) returns (states: seq<Sys>)
    requires g == SpotGrant({}) && es == OverlapEvents()
    ensures IsBootRun(g, states, es) && OverlapStage(6, states[6])
  {
    BootedAlone({});
    OverlapLeads(es);
    states := PlayFromBoot(g, es, OverlapStage);
  }

  /** A reachable state in which the pending range overlaps an active region: the poster has left
      and the process that remains, which has yet to acknowledge, imports the page. */
  lemma PendingMayOverlap() returns (states: seq<Sys>)
    ensures IsBootRun(SpotGrant({}), states, OverlapEvents())
    ensures states[6].log.pending == Some(SpotRange(1)) && !ClearOf(states[6].mem, SpotRange(1))
  {
    states := OverlapRun(SpotGrant({}), OverlapEvents());
  }

  // ----- two active regions overlap

  const BOTH: set<nat> := {SPOT, SPOT + 1}

  function HalfImport(): Event {
    Import(0, SPOT * PAGE, 2 * PAGE, ProtRW, NotExtended)
  }

  function TwiceEvents(): seq<Event> {
    [HalfImport(), ImportNone(0, SPOT * PAGE, 2 * PAGE, true)]
  }

  /** The creator alone has half-imported both pages, as region `id`, and the file does not reach it. */
  ghost predicate HalfAlone(s: Sys, id: Id) {
    && HalfSpot(s.mem, id, 2) && |s.mem.free| == 4 && s.mem.regs[id].offset.value >= s.mem.fileLen
    && s.log == Initial(0) && s.space.Keys == {0} && HasOnly(s.space[0], BOTH)
  }

  lemma BothPrivate(space: Space)
    requires HasOnly(space, BOTH)
    ensures AllPrivate(space, SPOT * PAGE, 2 * PAGE)
  {
    SpotPages(2);
  }

  lemma HalfImportStarts(s: Sys)
    requires MemOk(s.mem) && Alone(s, BOTH)
    ensures Can(s, HalfImport())
  {
    BothPrivate(s.space[0]);
    NoOverlap(s.mem, 2);
  }

  lemma HalfImports(s: Sys)
    requires MemOk(s.mem) && Alone(s, BOTH)
    ensures Can(s, HalfImport()) && HalfAlone(Next(s, HalfImport()), s.mem.free[0])
    ensures Next(s, HalfImport()).mem.prealloc == s.mem.prealloc
  {
    HalfImportStarts(s);
    HalfImportLists(s.mem, 2);
  }

  lemma TwiceImports(s: Sys, e: Event, id: Id)
    requires ListsOk(s.mem) && HalfAlone(s, id) && e == ImportNone(0, SPOT * PAGE, 2 * PAGE, true)
    ensures Can(s, e) && !DisjointIn(Next(s, e).mem)
  {
    SpotPages(2);
    BothPrivate(s.space[0]);
    ImportListsOneMore(s, e);
    assert Listing(Next(s, e).mem, id, SPOT) && Listing(Next(s, e).mem, s.mem.free[0], SPOT);
  }

  ghost predicate TwiceStage(k: nat, s: Sys) {
    if k == 0 then Alone(s, BOTH)
    else if k == 1 then exists id :: HalfAlone(s, id)
    else !DisjointIn(s.mem)
  }

  lemma TwiceLeads(es: seq<Event>)
    requires es == TwiceEvents()
    ensures AllLead(es, TwiceStage)
  {
    forall k: nat, s: Sys ensures Leads(es, TwiceStage, k, s) {
      if k == 0 && Fit(s) && TwiceStage(k, s) {
        HalfImports(s);
      } else if k == 1 && Fit(s) && TwiceStage(k, s) {
        var id :| HalfAlone(s, id);
        TwiceImports(s, es[1], id);
      }
    }
  }

  lemma TwiceRun(g: Grant, es: seq<Event>) returns (states: seq<Sys>)
    requires g == SpotGrant(BOTH) && es == TwiceEvents()
    ensures IsBootRun(g, states, es) && TwiceStage(2, states[2])
  {
    BootedAlone(BOTH);
    TwiceLeads(es);
    states := PlayFromBoot(g, es, TwiceStage);
  }

  /** A reachable state with two overlapping active regions: a half-imported range is imported
      again, without access this time, and nothing compares the two. */
  lemma ActiveMayOverlap() returns (states: seq<Sys>)
    ensures IsBootRun(SpotGrant(BOTH), states, TwiceEvents()) && !DisjointIn(states[2].mem)
  {
    states := TwiceRun(SpotGrant(BOTH), TwiceEvents());
  }

  // ----- a touch past the end of the file

  function PastEndEvents(): seq<Event> {
    [Prealloc(0), HalfImport(), JoinAt(1, {})]
  }

  /** Process 1 has mapped a region that the file does not reach. */
  ghost predicate MappedPastEnd(s: Sys, id: Id) {
    && DisjointIn(s.mem) && id < |s.mem.regs| && id in s.mem.active
    && InRange(s.mem.regs[id], SPOT * PAGE) && Permits(s.mem.regs[id].prot, Read)
    && 1 in s.log.procs && HoldsPage(s, 1, SPOT) && !RT.InFile(s.mem, id, SPOT)
  }

  lemma JoinerMaps(s: Sys, id: Id)
    requires MemOk(s.mem) && HalfAlone(s, id) && s.mem.prealloc
    ensures Can(s, JoinAt(1, {})) && MappedPastEnd(Next(s, JoinAt(1, {})), id)
  {
    SpotPages(2);
    HalfIsDisjoint(s.mem, id, 2);
    JoinFailsOnlyOnConflict(s.mem, {});
    JoinCovers(s.mem, {}, id, SPOT);
    SameDisjoint(s.mem, Next(s, JoinAt(1, {})).mem);
  }

  ghost predicate PastEndStage(k: nat, s: Sys) {
    if k == 0 then Alone(s, BOTH) && s.mem.newcomers == {0}
    else if k == 1 then Alone(s, BOTH) && s.mem.prealloc
    else if k == 2 then s.mem.prealloc && exists id :: HalfAlone(s, id)
    else exists id :: MappedPastEnd(s, id)
  }

  lemma PastEndStep(k: nat, s: Sys, e: Event)
    requires k < 3 && MemOk(s.mem) && PastEndStage(k, s) && e == PastEndEvents()[k]
    ensures Can(s, e) && PastEndStage(k + 1, Next(s, e))
  {
    if k == 0 {
      PreallocAlone(s, BOTH);
    } else if k == 1 {
      HalfImports(s);
    } else {
      var id :| HalfAlone(s, id);
      JoinerMaps(s, id);
    }
  }

  lemma PastEndLeads(es: seq<Event>)
    requires es == PastEndEvents()
    ensures AllLead(es, PastEndStage)
  {
    forall k: nat, s: Sys ensures Leads(es, PastEndStage, k, s) {
      if k < 3 && Fit(s) && PastEndStage(k, s) {
        PastEndStep(k, s, es[k]);
      }
    }
  }

  lemma PastEndRun(g: Grant, es: seq<Event>) returns (states: seq<Sys>)
    requires g == SpotGrant(BOTH) && es == PastEndEvents()
    ensures IsBootRun(g, states, es) && PastEndStage(3, states[3])
  {
    BootedAlone(BOTH);
    PastEndLeads(es);
    states := PlayFromBoot(g, es, PastEndStage);
  }

  /** A permitted touch of an active region that is not served although the process has mapped it:
      the import could not extend the file, the joiner's assert compares with the recorded size, and
      the map reaches past the end of the real file. */
  lemma TouchMayMissTheFile() returns (states: seq<Sys>, id: Id)
    ensures IsBootRun(SpotGrant(BOTH), states, PastEndEvents())
    ensures MappedPastEnd(states[3], id) && !RT.Served(states[3], 1, id, SPOT * PAGE, Read)
  {
    states := PastEndRun(SpotGrant(BOTH), PastEndEvents());
    id :| MappedPastEnd(states[3], id);
  }

  // ----- the handler overwrites private memory

  function OverwriteEvents(): seq<Event> {
    [Prealloc(0), HalfImport(), UnmapPrivate(0, {SPOT}), Mmap(0, PAGE, ProtRW), JoinAt(1, {}),
     Log(PostBegin(0)), Log(PostCommit(0, Reserve(SpotRange(1)))), Fault(0, SPOT * PAGE, Read)]
  }

  /** Process 0 has given up the first of the two pages it half-imported. */
  ghost predicate GaveUp(s: Sys, id: Id) {
    && HalfSpot(s.mem, id, 2) && |s.mem.free| == 4
    && s.log == Initial(0) && s.space.Keys == {0} && HasOnly(s.space[0], {SPOT + 1})
  }

  lemma GivesUp(s: Sys, id: Id)
    requires Listed(s.mem) && HalfAlone(s, id)
    ensures Can(s, UnmapPrivate(0, {SPOT})) && GaveUp(Next(s, UnmapPrivate(0, {SPOT})), id)
    ensures Next(s, UnmapPrivate(0, {SPOT})).mem == s.mem
  {
    assert SPOT in BOTH && SPOT + 1 in BOTH;
  }

  /** A later mapping has extended the file beyond the half-imported region. */
  ghost predicate Reached(s: Sys, id: Id) {
    && HalfSpot(s.mem, id, 2) && |s.mem.free| == 3
    && s.mem.regs[id].offset.value + 2 * PAGE <= s.mem.fileLen
    && s.log == Initial(0) && s.space.Keys == {0} && HasOnly(s.space[0], {SPOT + 1})
  }

  lemma MmapReaches(mem: Mem, id: Id)
    requires MmapReady(mem, PAGE, ProtRW) && HalfSpot(mem, id, 2)
    ensures var m := DoMmap(mem, PAGE, ProtRW);
      HalfSpot(m, id, 2) && |m.free| == |mem.free| - 1 && m.regs[id].offset.value + 2 * PAGE <= m.fileLen
  {
    MmapMoves(mem, PAGE, ProtRW);
    MmapKeepsContent(mem, PAGE, ProtRW);
    assert FileBacked(mem, id);
  }

  lemma Reaches(s: Sys, id: Id)
    requires MemOk(s.mem) && GaveUp(s, id) && Roomy(s.mem)
    ensures Can(s, Mmap(0, PAGE, ProtRW)) && Reached(Next(s, Mmap(0, PAGE, ProtRW)), id)
    ensures Next(s, Mmap(0, PAGE, ProtRW)).mem.prealloc == s.mem.prealloc
  {
    assert MmapReady(s.mem, PAGE, ProtRW);
    MmapReaches(s.mem, id);
  }

  /** Two processes; the first has a private page that the half-imported region claims, and does
      not hold the page before it. */
  ghost predicate Endangered(s: Sys, id: Id, posting: bool) {
    && HalfSpot(s.mem, id, 2) && |s.mem.free| == 3
    && s.mem.regs[id].offset.value + 2 * PAGE <= s.mem.fileLen
    && s.log.procs == map[0 := Proc(1, Idle, posting), 1 := Proc(1, Idle, false)]
    && s.log.log == [] && s.log.tail == None && s.log.lastSeq == 1 && s.log.pending.None? && s.log.procCount == 2
    && s.space.Keys == {0, 1} && SPOT !in s.space[0]
    && SPOT + 1 in s.space[0] && s.space[0][SPOT + 1].Private?
  }

  lemma EndangeredJoins(s: Sys, id: Id)
    requires MemOk(s.mem) && Reached(s, id) && s.mem.prealloc
    ensures Can(s, JoinAt(1, {})) && Endangered(Next(s, JoinAt(1, {})), id, false)
  {
    HalfIsDisjoint(s.mem, id, 2);
    JoinFailsOnlyOnConflict(s.mem, {});
  }

  lemma EndangeredBegins(s: Sys, id: Id)
    requires Listed(s.mem) && Endangered(s, id, false)
    ensures Can(s, Log(PostBegin(0))) && Endangered(Next(s, Log(PostBegin(0))), id, true)
  {
  }

  /** The reservation has landed on the page that was given up. */
  ghost predicate AboutToFault(s: Sys, id: Id) {
    && HalfSpot(s.mem, id, 2) && s.mem.regs[id].offset.value + 2 * PAGE <= s.mem.fileLen
    && 0 in s.space && SPOT in s.space[0] && s.space[0][SPOT].Placeholder?
    && SPOT + 1 in s.space[0] && s.space[0][SPOT + 1].Private?
  }

  lemma EndangeredPosts(s: Sys, e: Event, id: Id)
    requires MemOk(s.mem) && Endangered(s, id, true) && e == Log(PostCommit(0, Reserve(SpotRange(1))))
    ensures Can(s, e) && AboutToFault(Next(s, e), id)
  {
    SpotPages(1);
    NotHalf(s.mem, s.mem.free[0]);
    FreeIsUnused(s.mem);
  }

  /** The private page of process 0 now shows the file. */
  ghost predicate Overwritten(s: Sys) {
    && 0 in s.space && SPOT + 1 in s.space[0] && s.space[0][SPOT + 1].File?
    && s.space[0][SPOT + 1].offset + PAGE <= s.mem.fileLen
  }

  lemma HandlerOverwrites(s: Sys, e: Event, id: Id)
    requires MemOk(s.mem) && AboutToFault(s, id) && e == Fault(0, SPOT * PAGE, Read)
    ensures Can(s, e) && Overwritten(Next(s, e))
  {
    HandlerFindsHalf(s.mem, id, SPOT * PAGE);
    SpotPages(2);
  }

  ghost predicate OverwriteStage(k: nat, s: Sys) {
    if k == 0 then Alone(s, BOTH) && s.mem.newcomers == {0} && Roomy(s.mem)
    else if k == 1 then Alone(s, BOTH) && s.mem.prealloc && Roomy(s.mem)
    else if k == 2 then s.mem.prealloc && Roomy(s.mem) && exists id :: HalfAlone(s, id)
    else if k == 3 then s.mem.prealloc && Roomy(s.mem) && exists id :: GaveUp(s, id)
    else if k == 4 then s.mem.prealloc && exists id :: Reached(s, id)
    else if k == 5 then exists id :: Endangered(s, id, false)
    else if k == 6 then exists id :: Endangered(s, id, true)
    else if k == 7 then exists id :: AboutToFault(s, id)
    else Overwritten(s)
  }

  /** The first reserved region has more than a page left. */
  ghost predicate Roomy(mem: Mem) {
    |mem.reserved| > 0 && mem.reserved[0] < |mem.regs| && mem.regs[mem.reserved[0]].len > PAGE
  }

  lemma BootedRoomy(g: Grant)
    requires GoodGrant(g)
    ensures Roomy(Booted(g).mem)
  {
  }

  lemma ImportKeepsRoomy(s: Sys)
    requires ListsOk(s.mem) && Roomy(s.mem) && Can(s, HalfImport())
    ensures Roomy(Next(s, HalfImport()).mem)
  {
    FreeIsUnused(s.mem);
    assert s.mem.reserved[0] in s.mem.reserved;
  }

  lemma OverwriteStarts(k: nat, s: Sys, e: Event)
    requires k < 4 && Fit(s) && OverwriteStage(k, s) && e == OverwriteEvents()[k]
    ensures Can(s, e) && OverwriteStage(k + 1, Next(s, e))
  {
    if k == 0 {
      PreallocAlone(s, BOTH);
    } else if k == 1 {
      HalfImports(s);
      ImportKeepsRoomy(s);
    } else if k == 2 {
      var id :| HalfAlone(s, id);
      GivesUp(s, id);
    } else {
      var id :| GaveUp(s, id);
      Reaches(s, id);
    }
  }

  lemma OverwriteGoesOn(k: nat, s: Sys, e: Event)
    requires 4 <= k < 8 && MemOk(s.mem) && OverwriteStage(k, s) && e == OverwriteEvents()[k]
    ensures Can(s, e) && OverwriteStage(k + 1, Next(s, e))
  {
    if k == 4 {
      var id :| Reached(s, id);
      EndangeredJoins(s, id);
    } else if k == 5 {
      var id :| Endangered(s, id, false);
      EndangeredBegins(s, id);
    } else if k == 6 {
      var id :| Endangered(s, id, true);
      EndangeredPosts(s, e, id);
    } else {
      var id :| AboutToFault(s, id);
      HandlerOverwrites(s, e, id);
    }
  }

  lemma OverwriteLeads(es: seq<Event>)
    requires es == OverwriteEvents()
    ensures AllLead(es, OverwriteStage)
  {
    forall k: nat, s: Sys ensures Leads(es, OverwriteStage, k, s) {
      if k < 4 && Fit(s) && OverwriteStage(k, s) {
        OverwriteStarts(k, s, es[k]);
      } else if k < 8 && Fit(s) && OverwriteStage(k, s) {
        OverwriteGoesOn(k, s, es[k]);
      }
    }
  }

  lemma OverwriteRun(g: Grant, es: seq<Event>) returns (states: seq<Sys>)
    requires g == SpotGrant(BOTH) && es == OverwriteEvents()
    ensures IsBootRun(g, states, es) && OverwriteStage(7, states[7]) && OverwriteStage(8, states[8])
  {
    BootedAlone(BOTH);
    BootedRoomy(g);
    OverwriteLeads(es);
    states := PlayFromBoot(g, es, OverwriteStage);
  }

  /** A run in which the fault handler replaces private memory by pages of the file: after a
      half-done import of two pages the importer gives up the first, a mapping extends the file, a
      reservation of its own lands on that page, and touching it makes the handler map the
      half-imported region over both. */
  lemma HandlerMayOverwrite() returns (states: seq<Sys>)
    ensures IsBootRun(SpotGrant(BOTH), states, OverwriteEvents())
    ensures OverwriteEvents()[7] == Fault(0, SPOT * PAGE, Read)
    ensures 0 in states[7].space && SPOT + 1 in states[7].space[0] && states[7].space[0][SPOT + 1].Private?
    ensures Overwritten(states[8])
  {
    states := OverwriteRun(SpotGrant(BOTH), OverwriteEvents());
  }

  // ----- a failed join

  /** The joiner has a private page inside the reserved range. */
  function FailingEvents(): seq<Event> {
    [Prealloc(0), JoinFails({20})]
  }

  lemma PageIsReserved()
    ensures GoodGrant(SpotGrant({})) && InPages(16 * PAGE, FIRST_RESERVE, 20) && !InPages(PAGE, PAGE, 20)
  {
    SpotGrantIsGood({});
  }

  /** The reserved page belongs to a region and is not the root page. */
  ghost predicate Reserves(mem: Mem) {
    20 in mem.owner && RA.RootFirst(SpotGrant({}), mem)
  }

  lemma BootedReserves(g: Grant)
    requires g == SpotGrant({})
    ensures GoodGrant(g) && Reserves(Booted(g).mem)
  {
    PageIsReserved();
    RA.BootedRoot(g);
    assert 20 in PagesOf(g.reserve, FIRST_RESERVE);
  }

  ghost predicate FailingStage(k: nat, s: Sys) {
    if k == 0 then Reserves(s.mem) && Alone(s, {}) && s.mem.newcomers == {0}
    else if k == 1 then Reserves(s.mem) && Alone(s, {}) && s.mem.prealloc && s.mem.newcomers == {}
    else RA.DoorClosed(s.mem)
  }

  lemma FailingJoins(s: Sys, e: Event)
    requires MemOk(s.mem) && Reserves(s.mem) && Alone(s, {}) && s.mem.prealloc && s.mem.newcomers == {}
    requires e == JoinFails({20})
    ensures Can(s, e) && RA.DoorClosed(Next(s, e).mem)
  {
    assert Listing(s.mem, s.mem.owner[20], 20);
    JoinFailsOnlyOnConflict(s.mem, {20});
    PageIsReserved();
    RA.RootTakenExactly(SpotGrant({}), s.mem, {20});
  }

  lemma FailingLeads(es: seq<Event>)
    requires es == FailingEvents()
    ensures AllLead(es, FailingStage)
  {
    forall k: nat, s: Sys ensures Leads(es, FailingStage, k, s) {
      if k == 0 && Fit(s) && FailingStage(k, s) {
        PreallocAlone(s, {});
      } else if k == 1 && Fit(s) && FailingStage(k, s) {
        FailingJoins(s, es[1]);
      }
    }
  }

  lemma FailingRun(g: Grant, es: seq<Event>) returns (states: seq<Sys>)
    requires g == SpotGrant({}) && es == FailingEvents()
    ensures IsBootRun(g, states, es) && FailingStage(1, states[1]) && FailingStage(2, states[2])
  {
    BootedAlone({});
    BootedReserves(g);
    FailingLeads(es);
    states := PlayFromBoot(g, es, FailingStage);
  }

  /** A run in which one failed join shuts everybody else out. */
  lemma JoinFailsAndClosesTheDoor() returns (states: seq<Sys>)
    ensures IsBootRun(SpotGrant({}), states, FailingEvents())
    ensures states[1].mem.prealloc && RA.DoorClosed(states[2].mem)
  {
    states := FailingRun(SpotGrant({}), FailingEvents());
  }
}
