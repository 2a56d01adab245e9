/**
  Sharing in every run, half-done imports included: as soon as two processes are registered no two
  listed regions overlap, and so whatever they see of the backing file at one address is the same.
*/
module RegionsSharing {
  import opened Basics
  import opened CleanupLog
  import opened Regions
  import opened RegionsInvariant
  import opened RegionsBoot
  import opened RegionsLimits
  import RA = RegionsAccounts
  import RT = RegionsTheorems
  import CI = CleanupLogInvariant

  // ----- who stands in the way of a reservation over a half-imported region

  /** Process `q` holds all of region `h`, and has acknowledged no reservation that meets it. */
  ghost predicate Committed(s: Sys, q: Pid, h: Id) {
    && q in s.space && q in s.log.procs && h < |s.mem.regs|
    && (forall pg: nat :: Covers(s.mem.regs[h], pg) ==> HoldsPage(s, q, pg))
    && (s.log.pending.Some? && s.log.procs[q].flush >= s.log.obs.reserveSeq ==>
          Misses(s.mem.regs[h], s.log.pending.value))
  }

  ghost predicate Misses(r: Region, range: Range) {
    forall pg: nat :: Covers(r, pg) ==> !InPages(range.vaddr, range.len, pg)
  }

  /** At most one process is not committed to a half-imported region: the one that imported it. */
  ghost predicate AllButOne(s: Sys) {
    forall p, q, h :: p in s.log.procs && q in s.log.procs && p != q && h in s.mem.half ==>
      Committed(s, p, h) || Committed(s, q, h)
  }

  /** The process keeps what it holds, and nothing changes about the reservation and the region. */
  lemma CommittedByFrame(s: Sys, t: Sys, q: Pid, h: Id)
    requires Committed(s, q, h) && q in t.space && q in t.log.procs && h < |t.mem.regs|
    requires t.mem.regs[h] == s.mem.regs[h]
    requires forall pg :: HoldsPage(s, q, pg) ==> HoldsPage(t, q, pg)
    requires t.log.pending.Some? ==> t.log.pending == s.log.pending && t.log.obs.reserveSeq == s.log.obs.reserveSeq
    requires t.log.pending.Some? && t.log.procs[q].flush >= t.log.obs.reserveSeq ==>
      s.log.procs[q].flush >= s.log.obs.reserveSeq
    ensures Committed(t, q, h)
  {
  }

  /** A process that holds the region can only take a range that misses it. */
  lemma FreshMisses(s: Sys, q: Pid, h: Id, r: Range)
    requires Committed(s, q, h) && Fresh(s.space[q], r.vaddr, r.len)
    ensures Misses(s.mem.regs[h], r)
  {
    forall pg: nat | Covers(s.mem.regs[h], pg) ensures !InPages(r.vaddr, r.len, pg) {
      assert HoldsPage(s, q, pg);
    }
  }

  lemma PostKeepsCommitted(s: Sys, p: Pid, r: Range, q: Pid, h: Id)
    requires CI.Shape(s.log) && CI.ProcsOk(s.log) && ListsOk(s.mem) && h in s.mem.active
    requires Can(s, Log(PostCommit(p, Reserve(r)))) && Committed(s, q, h)
    ensures Committed(Next(s, Log(PostCommit(p, Reserve(r)))), q, h)
  {
    FreeIsUnused(s.mem);
    assert CI.ProcOk(s.log.lastSeq, |s.log.log|, s.log.procs[q]);
    if q == p {
      FreshMisses(s, q, h, r);
    }
  }

  lemma AckKeepsCommitted(s: Sys, p: Pid, q: Pid, h: Id)
    requires CI.Shape(s.log) && CI.PendingOk(s.log) && Can(s, Log(Ack(p))) && Committed(s, q, h)
    ensures Committed(Next(s, Log(Ack(p))), q, h)
  {
    var t, at := Next(s, Log(Ack(p))), s.log.procs[p].scan.at;
    var op := StepAt(s.log.log, at).op;
    if op.Reserve? && q == p {
      FreshMisses(s, q, h, op.range);
      assert s.log.log[at - s.log.log[0].seqNum].op.Reserve? && s.log.pending == Some(op.range);
    } else {
      assert op.Abort? && s.log.pending.Some? ==> at != s.log.obs.reserveSeq;
      CommittedByFrame(s, t, q, h);
    }
  }

  lemma SilentKeepsCommitted(s: Sys, l: Label, q: Pid, h: Id)
    requires CI.Shape(s.log) && CI.PendingOk(s.log) && Can(s, Log(l)) && Silent(s.log, l) && Committed(s, q, h)
    ensures Committed(Next(s, Log(l)), q, h)
  {
    SilentFlush(s.log, l);
    CommittedByFrame(s, Next(s, Log(l)), q, h);
  }

  lemma ComingKeepsCommitted(s: Sys, l: Label, q: Pid, h: Id)
    requires Can(s, Log(l)) && (l.JoinRefused? || l.PostAbandon? || l.Depart?)
    requires Committed(s, q, h) && q in Next(s, Log(l)).log.procs
    ensures Committed(Next(s, Log(l)), q, h)
  {
    CommittedByFrame(s, Next(s, Log(l)), q, h);
  }

  lemma ChangeKeepsCommitted(s: Sys, l: Label, q: Pid, h: Id)
    requires Inv(s) && Can(s, Log(l)) && !Silent(s.log, l) && (l.Ack? || l.PostCommit? || l.FreeHead?)
    requires Committed(s, q, h) && h in s.mem.active
    ensures Committed(Next(s, Log(l)), q, h)
  {
    if l.Ack? {
      AckKeepsCommitted(s, l.p, q, h);
    } else if l.PostCommit? {
      PostKeepsCommitted(s, l.p, l.op.range, q, h);
    } else {
      CommittedByAdopt(s, l, q, h);
    }
  }

  lemma LogKeepsCommitted(s: Sys, l: Label, q: Pid, h: Id)
    requires Inv(s) && Can(s, Log(l)) && Committed(s, q, h) && h in s.mem.active
    requires q in Next(s, Log(l)).log.procs
    ensures Committed(Next(s, Log(l)), q, h)
  {
    if Silent(s.log, l) {
      SilentKeepsCommitted(s, l, q, h);
    } else if l.Ack? || l.PostCommit? || l.FreeHead? {
      ChangeKeepsCommitted(s, l, q, h);
    } else {
      ComingKeepsCommitted(s, l, q, h);
    }
  }

  lemma CommittedByAdopt(s: Sys, l: Label, q: Pid, h: Id)
    requires Can(s, Log(l)) && l.FreeHead? && s.log.log[0].op.Reserve? && Committed(s, q, h)
    ensures Committed(Next(s, Log(l)), q, h)
  {
    CommittedByFrame(s, Next(s, Log(l)), q, h);
  }

  lemma FaultKeepsCommitted(s: Sys, e: Event, q: Pid, h: Id)
    requires RegionsOk(s.mem) && Can(s, e) && e.Fault? && Committed(s, q, h)
    ensures Committed(Next(s, e), q, h)
  {
    var id := FaultNext(s, e);
    CommittedByFrame(s, Next(s, e), q, h);
  }

  /** Events that neither import nor touch the log. */
  lemma OtherKeepsCommitted(s: Sys, e: Event, q: Pid, h: Id)
    requires MemOk(s.mem) && Can(s, e) && Committed(s, q, h) && h in s.mem.active
    requires !e.Log? && !e.Import? && !e.ImportNone? && !e.Fault? && !(e.JoinAt? && e.p == q)
    ensures Committed(Next(s, e), q, h)
  {
    RA.ActiveStays(s, e, h);
    CommittedByFrame(s, Next(s, e), q, h);
  }

  lemma EventKeepsCommitted(s: Sys, e: Event, q: Pid, h: Id)
    requires Inv(s) && Can(s, e) && Committed(s, q, h) && h in s.mem.active
    requires !e.Import? && !e.ImportNone? && !(e.JoinAt? && e.p == q) && q in Next(s, e).log.procs
    ensures Committed(Next(s, e), q, h)
  {
    if e.Log? {
      LogKeepsCommitted(s, e.l, q, h);
    } else if e.Fault? {
      FaultKeepsCommitted(s, e, q, h);
    } else {
      OtherKeepsCommitted(s, e, q, h);
    }
  }

  /** Whoever joins has mapped everything that is listed, while no reservation is pending. */
  lemma JoinerIsCommitted(s: Sys, e: Event, h: Id)
    requires MemOk(s.mem) && Can(s, e) && e.JoinAt? && h in s.mem.half
    ensures Committed(Next(s, e), e.p, h)
  {
    assert h in s.mem.active;
    forall pg: nat | Covers(s.mem.regs[h], pg) ensures HoldsPage(Next(s, e), e.p, pg) {
      JoinCovers(s.mem, e.private, h, pg);
    }
  }

  lemma SameHalf(s: Sys, e: Event)
    requires Can(s, e) && !e.Import? && !e.ImportNone?
    ensures Next(s, e).mem.half == s.mem.half
  {
    match e
    case Log(l) =>
    case _ =>
  }

  lemma PairKept(s: Sys, e: Event, p: Pid, q: Pid, h: Id)
    requires Inv(s) && AllButOne(s) && Can(s, e) && !e.Import? && !e.ImportNone? && h in s.mem.half
    requires p in Next(s, e).log.procs && q in Next(s, e).log.procs && p != q
    ensures Committed(Next(s, e), p, h) || Committed(Next(s, e), q, h)
  {
    assert h in s.mem.active;
    if e.JoinAt? && (e.p == p || e.p == q) {
      JoinerIsCommitted(s, e, h);
    } else {
      Registered(s, e, p);
      Registered(s, e, q);
      if Committed(s, p, h) {
        EventKeepsCommitted(s, e, p, h);
      } else {
        EventKeepsCommitted(s, e, q, h);
      }
    }
  }

  lemma Registered(s: Sys, e: Event, p: Pid)
    requires Can(s, e) && p in Next(s, e).log.procs && !(e.JoinAt? && e.p == p)
    ensures p in s.log.procs
  {
    match e
    case Log(l) =>
    case _ =>
  }

  lemma ImportIsLonely(s: Sys, e: Event)
    requires CI.Inv(s.log) && Can(s, e) && (e.Import? || e.ImportNone?)
    ensures Next(s, e).log.procs.Keys == {e.p}
  {
    SoleProcess(s, e.p);
  }

  lemma LonelyHasNoPairs(t: Sys, p: Pid)
    requires t.log.procs.Keys == {p}
    ensures AllButOne(t)
  {
  }

  lemma EventKeepsPairs(s: Sys, e: Event)
    requires Inv(s) && AllButOne(s) && Can(s, e)
    ensures AllButOne(Next(s, e))
  {
    if e.Import? || e.ImportNone? {
      ImportIsLonely(s, e);
      LonelyHasNoPairs(Next(s, e), e.p);
    } else {
      SameHalf(s, e);
      PairsKept(s, e, Next(s, e));
    }
  }

  lemma PairsKept(s: Sys, e: Event, t: Sys)
    requires Inv(s) && AllButOne(s) && Can(s, e) && !e.Import? && !e.ImportNone? && t == Next(s, e)
    requires t.mem.half == s.mem.half
    ensures AllButOne(t)
  {
    forall p, q, h | p in t.log.procs && q in t.log.procs && p != q && h in s.mem.half
      ensures Committed(t, p, h) || Committed(t, q, h)
    {
      PairKept(s, e, p, q, h);
    }
  }

  // ----- overlap is lonely

  ghost predicate LonelyIfOverlapping(s: Sys) {
    !DisjointIn(s.mem) ==> forall p, q :: p in s.log.procs && q in s.log.procs ==> p == q
  }

  /** With two processes registered, a range that all have acknowledged is clear of every region. */
  lemma AcknowledgedIsClear(s: Sys, p: Pid, q: Pid)
    requires MemOk(s.mem) && SpacesOk(s) && PendOk(s) && AllButOne(s) && s.log.pending.Some?
    requires p in s.log.procs && q in s.log.procs && p != q
    requires forall x :: x in s.log.procs ==> s.log.procs[x].flush >= s.log.obs.reserveSeq
    ensures ClearOf(s.mem, s.log.pending.value)
  {
    var r := s.log.pending.value;
    assert HeldApart(s.mem.owner, s.space[p], r);
    forall id: Id, pg: nat | Listing(s.mem, id, pg) ensures !InPages(r.vaddr, r.len, pg) {
      if id in s.mem.half {
        assert Committed(s, p, id) || Committed(s, q, id);
        assert Misses(s.mem.regs[id], r);
      } else {
        assert InUse(s.mem, id) && pg in s.mem.owner;
      }
    }
  }

  lemma AdoptIsClear(s: Sys, l: Label, p: Pid, q: Pid)
    requires Inv(s) && AllButOne(s) && Can(s, Log(l)) && l.FreeHead? && s.log.log[0].op.Reserve?
    requires p in s.log.procs && q in s.log.procs && p != q
    ensures NewcomerIsClear(s, Log(l))
  {
    EveryoneHolds(s, l.p);
    AcknowledgedIsClear(s, p, q);
  }

  lemma TwoMeanNoImport(s: Sys, e: Event, p: Pid, q: Pid)
    requires CI.Inv(s.log) && Can(s, e) && p in s.log.procs && q in s.log.procs && p != q
    ensures !e.Import? && !e.ImportNone?
  {
    if e.Import? || e.ImportNone? {
      SoleProcess(s, e.p);
    }
  }

  lemma TwoMeanClear(s: Sys, e: Event, p: Pid, q: Pid)
    requires Inv(s) && AllButOne(s) && Can(s, e) && !e.Import? && !e.ImportNone?
    requires p in s.log.procs && q in s.log.procs && p != q
    ensures NewcomerIsClear(s, e)
  {
    if Newcomer(s, e).Some? {
      AdoptIsClear(s, e.l, p, q);
    }
  }

  lemma TwoStayDisjoint(s: Sys, e: Event, p: Pid, q: Pid)
    requires Inv(s) && AllButOne(s) && DisjointIn(s.mem) && Can(s, e)
    requires p in s.log.procs && q in s.log.procs && p != q
    ensures DisjointIn(Next(s, e).mem)
  {
    TwoMeanNoImport(s, e, p, q);
    TwoMeanClear(s, e, p, q);
    EventDisjoint(s, e);
  }

  lemma JoinedIsDisjoint(s: Sys, e: Event)
    requires MemOk(s.mem) && PendOk(s) && Can(s, e) && e.JoinAt?
    ensures DisjointIn(Next(s, e).mem)
  {
    JoinFailsOnlyOnConflict(s.mem, e.private);
    OtherIsSame(s, e);
    SameDisjoint(s.mem, Next(s, e).mem);
  }

  lemma EventKeepsLonely(s: Sys, e: Event)
    requires Inv(s) && AllButOne(s) && LonelyIfOverlapping(s) && Can(s, e)
    ensures LonelyIfOverlapping(Next(s, e))
  {
    var t := Next(s, e);
    if e.JoinAt? {
      JoinedIsDisjoint(s, e);
    } else {
      forall p, q | p in t.log.procs && q in t.log.procs && p != q ensures DisjointIn(t.mem) {
        Registered(s, e, p);
        Registered(s, e, q);
        TwoStayDisjoint(s, e, p, q);
      }
    }
  }

  // ----- every page shows what a region documents

  /** Every page that shows the backing file shows a place that some active region documents. */
  ghost predicate Documented(mem: Mem, space: Space) {
    forall pg :: pg in space && space[pg].File? ==> exists id :: RT.ShowsFile(mem, id, pg, space[pg].offset)
  }

  ghost predicate AllDocumented(s: Sys) {
    forall p :: p in s.space ==> Documented(s.mem, s.space[p])
  }

  /** Every file page of `after` shows what it showed in `before`, or region `id`. */
  ghost predicate ShowsNoMore(mem: Mem, before: Space, after: Space, id: Id) {
    forall pg :: pg in after && after[pg].File? ==>
      || (pg in before && before[pg] == after[pg])
      || RT.ShowsFile(mem, id, pg, after[pg].offset)
  }

  ghost predicate ActiveKept(mem: Mem, m: Mem) {
    && |m.regs| == |mem.regs|
    && forall id: Id :: id < |mem.regs| && id in mem.active ==> id in m.active && m.regs[id] == mem.regs[id]
  }

  lemma DocumentedStays(mem: Mem, m: Mem, before: Space, after: Space, id: Id)
    requires Documented(mem, before) && ActiveKept(mem, m) && ShowsNoMore(m, before, after, id)
    ensures Documented(m, after)
  {
    forall pg | pg in after && after[pg].File? ensures exists x :: RT.ShowsFile(m, x, pg, after[pg].offset) {
      if !RT.ShowsFile(m, id, pg, after[pg].offset) {
        var x :| RT.ShowsFile(mem, x, pg, before[pg].offset);
        assert RT.ShowsFile(m, x, pg, after[pg].offset);
      }
    }
  }

  lemma EventKeepsActive(s: Sys, e: Event)
    requires MemOk(s.mem) && Can(s, e)
    ensures ActiveKept(s.mem, Next(s, e).mem)
  {
    RA.ActiveStays(s, e, s.mem.active[0]);
    forall id: Id | id < |s.mem.regs| && id in s.mem.active
      ensures id in Next(s, e).mem.active && Next(s, e).mem.regs[id] == s.mem.regs[id]
    {
      RA.ActiveStays(s, e, id);
    }
  }

  lemma MapShowsNoMore(mem: Mem, before: Space, id: Id)
    requires FileBacked(mem, id)
    ensures ShowsNoMore(mem, before, MapRegion(before, mem.regs[id]), id)
  {
  }

  lemma ImportShows(s: Sys, e: Event)
    requires ListsOk(s.mem) && Can(s, e) && e.Import?
    ensures ShowsNoMore(Next(s, e).mem, s.space[e.p], Next(s, e).space[e.p], s.mem.free[0])
  {
    var id := s.mem.free[0];
    Appended(s.mem, id);
    MapShowsNoMore(Next(s, e).mem, s.space[e.p], id);
  }

  /** What one event adds to the address space of one process. */
  lemma EventShows(s: Sys, e: Event, p: Pid) returns (id: Id)
    requires MemOk(s.mem) && Can(s, e) && p in s.space && p in Next(s, e).space && !(e.JoinAt? && e.p == p)
    ensures ShowsNoMore(Next(s, e).mem, s.space[p], Next(s, e).space[p], id)
  {
    id := 0;
    match e {
      case Fault(_, _, _) =>
        id := FaultNext(s, e);
        MapShowsNoMore(s.mem, s.space[e.p], id);
      case Import(_, _, _, _, _) =>
        id := s.mem.free[0];
        ImportShows(s, e);
      case Log(l) => LogShows(s, l, p);
      case _ =>
    }
  }

  lemma LogShows(s: Sys, l: Label, p: Pid)
    requires Can(s, Log(l)) && p in s.space && p in Next(s, Log(l)).space
    ensures ShowsNoMore(Next(s, Log(l)).mem, s.space[p], Next(s, Log(l)).space[p], 0)
  {
    match l
    case Ack(_) =>
    case PostCommit(_, _) =>
    case _ =>
  }

  lemma JoinerIsDocumented(mem: Mem, private: set<nat>)
    requires Listed(mem) && RegionsOk(mem) && JoinSpace(mem, private).Some?
    ensures Documented(mem, JoinSpace(mem, private).value)
  {
    var space := JoinSpace(mem, private).value;
    forall pg | pg in space && space[pg].File? ensures exists id :: RT.ShowsFile(mem, id, pg, space[pg].offset) {
      var id := JoinMapsOnly(mem, private, pg);
      JoinCovers(mem, private, id, pg);
      assert RT.ShowsFile(mem, id, pg, space[pg].offset);
    }
  }

  lemma EventDocuments(s: Sys, e: Event, p: Pid)
    requires MemOk(s.mem) && SpacesOk(s) && AllDocumented(s) && Can(s, e) && p in Next(s, e).space
    ensures Documented(Next(s, e).mem, Next(s, e).space[p])
  {
    EventKeepsActive(s, e);
    if e.JoinAt? && e.p == p {
      JoinerIsDocumented(s.mem, e.private);
      DocumentedStays(s.mem, Next(s, e).mem, Next(s, e).space[p], Next(s, e).space[p], 0);
    } else {
      SpaceWasThere(s, e, p);
      var id := EventShows(s, e, p);
      DocumentedStays(s.mem, Next(s, e).mem, s.space[p], Next(s, e).space[p], id);
    }
  }

  lemma SpaceWasThere(s: Sys, e: Event, p: Pid)
    requires Can(s, e) && p in Next(s, e).space && !(e.JoinAt? && e.p == p)
    ensures p in s.space
  {
    match e
    case Log(l) =>
    case _ =>
  }

  // ----- runs

  ghost predicate SharingOk(s: Sys) {
    AllButOne(s) && LonelyIfOverlapping(s) && AllDocumented(s)
  }

  lemma EventKeepsSharing(s: Sys, e: Event)
    requires Inv(s) && SharingOk(s) && Can(s, e)
    ensures SharingOk(Next(s, e))
  {
    EventKeepsPairs(s, e);
    EventKeepsLonely(s, e);
    forall p | p in Next(s, e).space ensures Documented(Next(s, e).mem, Next(s, e).space[p]) {
      EventDocuments(s, e, p);
    }
  }

  lemma TranslatedIsDocumented(s: Sys)
    requires SpacesOk(s) && s.mem.murk == {}
    ensures AllDocumented(s)
  {
    forall p, pg | p in s.space && pg in s.space[p] && s.space[p][pg].File?
      ensures exists id :: RT.ShowsFile(s.mem, id, pg, s.space[p][pg].offset)
    {
      assert Translates(s.mem, s.space[p]);
      assert RT.ShowsFile(s.mem, s.mem.owner[pg], pg, s.space[p][pg].offset);
    }
  }

  lemma BootedSharing(g: Grant)
    requires GoodGrant(g)
    ensures SharingOk(Booted(g))
  {
    BootedSpace(g);
    BootedDisjoint(g);
    TranslatedIsDocumented(Booted(g));
  }

  lemma RunKeepsSharing(g: Grant, states: seq<Sys>, events: seq<Event>, i: nat)
    requires IsBootRun(g, states, events) && i < |events| && SharingOk(states[i])
    ensures SharingOk(states[i + 1])
  {
    ReachableInv(g, states, events, i);
    assert EventAt(states, events, i);
    EventKeepsSharing(states[i], events[i]);
  }

  lemma {:induction false} ReachableSharing(g: Grant, states: seq<Sys>, events: seq<Event>, k: nat)
    requires IsBootRun(g, states, events) && k < |states|
    ensures SharingOk(states[k])
  {
    if k == 0 {
      BootedSharing(g);
    } else {
      ReachableSharing(g, states, events, k - 1);
      RunKeepsSharing(g, states, events, k - 1);
    }
  }

  /** Whenever two processes are registered, all active and reserved regions are pairwise disjoint,
      half-imported ones included. */
  lemma OverlapIsLonely(g: Grant, states: seq<Sys>, events: seq<Event>, k: nat, p: Pid, q: Pid)
    requires IsBootRun(g, states, events) && k < |states|
    requires p in states[k].log.procs && q in states[k].log.procs && p != q
    ensures DisjointIn(states[k].mem)
  {
    ReachableSharing(g, states, events, k);
  }

  /** In every state of every run, whatever two processes see of the backing file at one address is
      the same place of it, and an active region there documents it. */
  lemma SharedTranslation(g: Grant, states: seq<Sys>, events: seq<Event>, k: nat, p: Pid, q: Pid, pg: nat)
    requires IsBootRun(g, states, events) && k < |states|
    requires p in states[k].space && pg in states[k].space[p] && states[k].space[p][pg].File?
    requires q in states[k].space && pg in states[k].space[q] && states[k].space[q][pg].File?
    ensures states[k].space[p][pg] == states[k].space[q][pg]
    ensures exists id :: RT.ShowsAt(states[k].mem, id, pg, states[k].space[p][pg].offset)
  {
    var s := states[k];
    ReachableInv(g, states, events, k);
    ReachableSharing(g, states, events, k);
    var id := SeesDocumented(s, p, pg);
    assert Documented(s.mem, s.space[p]) && Documented(s.mem, s.space[q]);
    if p != q {
      var a :| RT.ShowsFile(s.mem, a, pg, s.space[p][pg].offset);
      var b :| RT.ShowsFile(s.mem, b, pg, s.space[q][pg].offset);
      assert Listing(s.mem, a, pg) && Listing(s.mem, b, pg);
    }
  }

  /** What a process sees on a page, as the region there documents it. */
  lemma SeesDocumented(s: Sys, p: Pid, pg: nat) returns (id: Id)
    requires AllDocumented(s) && RegionsOk(s.mem) && p in s.space && pg in s.space[p] && s.space[p][pg].File?
    ensures RT.ShowsAt(s.mem, id, pg, s.space[p][pg].offset) && Covers(s.mem.regs[id], pg)
  {
    assert Documented(s.mem, s.space[p]);
    id :| RT.ShowsFile(s.mem, id, pg, s.space[p][pg].offset);
    RT.Linear(s.mem.regs[id], pg);
  }

  /** Two pages of the same region show places as far apart as they are; two pages of different
      regions show places of different extents. */
  lemma PlacesOf(mem: Mem, a: Id, b: Id, x: nat, y: nat, place: nat, other: nat)
    requires RegionsOk(mem) && FilesOk(mem) && RT.ShowsAt(mem, a, x, place) && RT.ShowsAt(mem, b, y, other)
    requires Covers(mem.regs[a], x) && Covers(mem.regs[b], y) && x != y
    ensures place + PAGE <= other || other + PAGE <= place
  {
    RT.PageEnds(mem.regs[a], x);
    RT.PageEnds(mem.regs[b], y);
    RT.Linear(mem.regs[a], x);
    RT.Linear(mem.regs[b], y);
  }

  /** In every state of every run, different pages of the address space never show the same bytes of
      the file, whichever processes look at them. */
  lemma PagesAreApart(
      g: Grant, states: seq<Sys>, events: seq<Event>, k: nat, p: Pid, q: Pid, x: nat, y: nat)
    requires IsBootRun(g, states, events) && k < |states| && x != y
    requires p in states[k].space && x in states[k].space[p] && states[k].space[p][x].File?
    requires q in states[k].space && y in states[k].space[q] && states[k].space[q][y].File?
    ensures var (place, other) := (states[k].space[p][x].offset, states[k].space[q][y].offset);
      place + PAGE <= other || other + PAGE <= place
  {
    var s := states[k];
    ReachableInv(g, states, events, k);
    ReachableSharing(g, states, events, k);
    var a := SeesDocumented(s, p, x);
    var b := SeesDocumented(s, q, y);
    PlacesOf(s.mem, a, b, x, y, s.space[p][x].offset, s.space[q][y].offset);
  }

  // ----- touches

  lemma FindsTheOne(mem: Mem, id: Id, vaddr: nat)
    requires RegionsOk(mem) && Listed(mem) && DisjointIn(mem) && id in mem.active && id < |mem.regs|
    requires InRange(mem.regs[id], vaddr)
    ensures Find(mem.regs, mem.active, vaddr) == Some(id) && Covers(mem.regs[id], vaddr / PAGE)
  {
    var found := Find(mem.regs, mem.active, vaddr);
    InRegion(mem.regs[id], vaddr);
    InRegion(mem.regs[found.value], vaddr);
    assert Listing(mem, id, vaddr / PAGE) && Listing(mem, found.value, vaddr / PAGE);
  }

  lemma SeesTheOne(s: Sys, p: Pid, id: Id, pg: nat)
    requires AllDocumented(s) && DisjointIn(s.mem) && FileBacked(s.mem, id) && Covers(s.mem.regs[id], pg)
    requires p in s.space && pg in s.space[p] && s.space[p][pg].File?
    ensures s.space[p][pg] == File(FileOffset(s.mem.regs[id], pg))
  {
    assert Documented(s.mem, s.space[p]);
    var x :| RT.ShowsFile(s.mem, x, pg, s.space[p][pg].offset);
    assert Listing(s.mem, x, pg) && Listing(s.mem, id, pg);
  }

  lemma ServedIsHeld(s: Sys, p: Pid, id: Id, vaddr: nat, access: Access)
    requires RT.Served(s, p, id, vaddr, access)
    ensures HoldsPage(s, p, vaddr / PAGE) && RT.InFile(s.mem, id, vaddr / PAGE)
  {
  }

  lemma HeldIsServed(s: Sys, p: Pid, id: Id, vaddr: nat, access: Access)
    requires Listed(s.mem) && RegionsOk(s.mem) && AllDocumented(s) && DisjointIn(s.mem)
    requires id in s.mem.active && id < |s.mem.regs| && HoldsPage(s, p, vaddr / PAGE)
    requires RT.InFile(s.mem, id, vaddr / PAGE)
    requires InRange(s.mem.regs[id], vaddr) && Permits(s.mem.regs[id].prot, access)
    ensures RT.Served(s, p, id, vaddr, access)
  {
    FindsTheOne(s.mem, id, vaddr);
    assert s.mem.regs[id].offset.Some?;
    if s.space[p][vaddr / PAGE].File? {
      SeesTheOne(s, p, id, vaddr / PAGE);
    }
    RT.TouchServed(s, p, id, vaddr, access);
  }

  /** While the listed regions are disjoint, as they are whenever two processes are registered, a
      permitted touch of an active region, half-imported or not, is served from that region exactly
      if the process holds the page, with nothing private on it, and the real file reaches it. */
  lemma TouchIsServedExactly(g: Grant, states: seq<Sys>, events: seq<Event>, k: nat,
                             p: Pid, id: Id, vaddr: nat, access: Access)
    requires IsBootRun(g, states, events) && k < |states| && DisjointIn(states[k].mem)
    requires id in states[k].mem.active && id < |states[k].mem.regs|
    requires InRange(states[k].mem.regs[id], vaddr) && Permits(states[k].mem.regs[id].prot, access)
    ensures RT.Served(states[k], p, id, vaddr, access) <==>
      HoldsPage(states[k], p, vaddr / PAGE) && RT.InFile(states[k].mem, id, vaddr / PAGE)
  {
    ReachableInv(g, states, events, k);
    ReachableSharing(g, states, events, k);
    if HoldsPage(states[k], p, vaddr / PAGE) && RT.InFile(states[k].mem, id, vaddr / PAGE) {
      HeldIsServed(states[k], p, id, vaddr, access);
    } else if RT.Served(states[k], p, id, vaddr, access) {
      ServedIsHeld(states[k], p, id, vaddr, access);
    }
  }
}
