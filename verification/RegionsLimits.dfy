/** Where the guarantees of the region manager end: exact conditions, over every run. */
module RegionsLimits {
  import opened Basics
  import opened CleanupLog
  import opened Regions
  import opened RegionsInvariant
  import opened RegionsBoot
  import CI = CleanupLogInvariant

  // ----- half-done imports

  /** The event leaves region `id` half-imported. */
  predicate LeavesHalfDone(s: Sys, e: Event, id: Id) {
    !Whole(e) && |s.mem.free| > 0 && s.mem.free[0] == id
  }

  lemma HalfStep(s: Sys, e: Event, id: Id)
    requires Can(s, e)
    ensures id in Next(s, e).mem.half <==> id in s.mem.half || LeavesHalfDone(s, e, id)
  {
    match e
    case Log(l) =>
    case _ =>
  }

  lemma RunHalfStep(states: seq<Sys>, events: seq<Event>, i: nat, id: Id)
    requires IsSysRun(states, events) && i < |events|
    ensures id in states[i + 1].mem.half <==> id in states[i].mem.half || LeavesHalfDone(states[i], events[i], id)
  {
    assert EventAt(states, events, i);
    HalfStep(states[i], events[i], id);
  }

  /** A region is half-imported exactly if an import before listed it and did not get done. */
  lemma {:induction false} HalfIsHistory(g: Grant, states: seq<Sys>, events: seq<Event>, k: nat, id: Id)
    requires IsBootRun(g, states, events) && k < |states|
    ensures id in states[k].mem.half <==> exists i :: 0 <= i < k && LeavesHalfDone(states[i], events[i], id)
  {
    if k > 0 {
      HalfIsHistory(g, states, events, k - 1, id);
      RunHalfStep(states, events, k - 1, id);
    }
  }

  lemma NoneHalf(g: Grant, states: seq<Sys>, events: seq<Event>, k: nat)
    requires IsBootRun(g, states, events) && k < |states|
    requires forall i :: 0 <= i < k ==> Whole(events[i])
    ensures states[k].mem.half == {}
  {
    forall id ensures id !in states[k].mem.half {
      HalfIsHistory(g, states, events, k, id);
    }
  }

  // ----- agreement

  /** Process `p` holds the page, with nothing private on it. */
  predicate HoldsPage(s: Sys, p: Pid, pg: nat) {
    p in s.space && pg in s.space[p] && !s.space[p][pg].Private?
  }

  /** Every registered process holds every page of every region on the active or reserved list. */
  ghost predicate AgreementIn(s: Sys) {
    forall p, id: Id, pg: nat :: p in s.log.procs && Listing(s.mem, id, pg) ==> HoldsPage(s, p, pg)
  }

  lemma WholeAgrees(s: Sys)
    requires OwnerOk(s.mem) && SpacesOk(s) && s.mem.half == {}
    ensures AgreementIn(s)
  {
    forall p, id: Id, pg: nat | p in s.log.procs && Listing(s.mem, id, pg)
      ensures HoldsPage(s, p, pg)
    {
      assert InUse(s.mem, id) && Agrees(s.mem.owner, s.space[p]);
    }
  }

  lemma HalfDisagrees(s: Sys, e: Event)
    requires ListsOk(s.mem) && Can(s, e) && !Whole(e)
    ensures !AgreementIn(Next(s, e))
  {
    var t, id, pg := Next(s, e), s.mem.free[0], e.vaddr / PAGE;
    ImportListsOneMore(s, e);
    assert InPages(e.vaddr, e.len, pg) && pg in PagesOf(e.vaddr, e.len);
    assert Listing(t.mem, id, pg) && !HoldsPage(t, e.p, pg);
  }

  /** Agreement holds throughout a run exactly as long as every import of pages gets done. */
  lemma AgreementExactlyWhileImportsAreWhole(g: Grant, states: seq<Sys>, events: seq<Event>, k: nat)
    requires IsBootRun(g, states, events) && k < |states|
    ensures (forall j :: 0 <= j <= k ==> AgreementIn(states[j])) <==> (forall i :: 0 <= i < k ==> Whole(events[i]))
  {
    if forall i :: 0 <= i < k ==> Whole(events[i]) {
      forall j | 0 <= j <= k ensures AgreementIn(states[j]) {
        NoneHalf(g, states, events, j);
        ReachableInv(g, states, events, j);
        WholeAgrees(states[j]);
      }
    } else {
      var i :| 0 <= i < k && !Whole(events[i]);
      HalfImportDisagrees(g, states, events, i);
    }
  }

  lemma HalfImportDisagrees(g: Grant, states: seq<Sys>, events: seq<Event>, i: nat)
    requires IsBootRun(g, states, events) && i < |events| && !Whole(events[i])
    ensures !AgreementIn(states[i + 1])
  {
    ReachableInv(g, states, events, i);
    assert EventAt(states, events, i);
    HalfDisagrees(states[i], events[i]);
  }

  // ----- disjointness

  /** Region `id` is on a list and has the page. */
  predicate Listing(mem: Mem, id: Id, pg: nat) {
    id < |mem.regs| && OnList(mem, id) && Covers(mem.regs[id], pg)
  }

  ghost predicate DisjointIn(mem: Mem) {
    forall a: Id, b: Id, pg: nat :: Listing(mem, a, pg) && Listing(mem, b, pg) ==> a == b
  }

  /** The range that the event puts on a list without having cut it from one that was there. */
  function Newcomer(s: Sys, e: Event): Option<Range> {
    match e
    case Import(_, vaddr, len, _, _) => Some(Range(vaddr, len))
    case ImportNone(_, vaddr, len, _) => Some(Range(vaddr, len))
    case Log(FreeHead(_)) =>
      if |s.log.log| > 0 && s.log.log[0].op.Reserve? then Some(s.log.log[0].op.range) else None
    case _ => None
  }

  /** No region on a list has a page in the range. */
  ghost predicate ClearOf(mem: Mem, r: Range) {
    forall id: Id, pg: nat :: Listing(mem, id, pg) ==> !InPages(r.vaddr, r.len, pg)
  }

  ghost predicate NewcomerIsClear(s: Sys, e: Event) {
    Newcomer(s, e).Some? ==> ClearOf(s.mem, Newcomer(s, e).value)
  }

  /** `m` lists one region more, and is otherwise the same. */
  ghost predicate ListsOneMore(mem: Mem, m: Mem, id: Id) {
    && |m.regs| == |mem.regs| && id < |m.regs| && !OnList(mem, id)
    && (forall x: Id :: OnList(m, x) <==> OnList(mem, x) || x == id)
    && (forall x: Id :: x < |m.regs| && x != id ==> m.regs[x] == mem.regs[x])
  }

  lemma OneMoreDisjoint(mem: Mem, m: Mem, id: Id, r: Range)
    requires DisjointIn(mem) && ListsOneMore(mem, m, id) && m.regs[id].vaddr == r.vaddr && m.regs[id].len == r.len
    ensures DisjointIn(m) <==> ClearOf(mem, r)
  {
    assert forall x: Id, pg: nat :: Listing(m, x, pg) <==>
      Listing(mem, x, pg) || (x == id && InPages(r.vaddr, r.len, pg));
    forall x: Id, pg: nat | Listing(mem, x, pg) && InPages(r.vaddr, r.len, pg) ensures !DisjointIn(m) {
      assert Listing(m, x, pg) && Listing(m, id, pg);
    }
  }

  lemma MoveDisjoint(mem: Mem, m: Mem, id: Id, from: Id, len: nat)
    requires DisjointIn(mem) && Moves(mem, m, id, from, len)
    ensures DisjointIn(m)
  {
    var base := mem.regs[from];
    forall a: Id, b: Id, pg: nat | Listing(m, a, pg) && Listing(m, b, pg) ensures a == b {
      SplitPages(base.vaddr, len, base.len - len, pg);
      var a', b' := if a == id then from else a, if b == id then from else b;
      assert Listing(mem, a', pg) && Listing(mem, b', pg);
    }
  }

  lemma SameDisjoint(mem: Mem, m: Mem)
    requires DisjointIn(mem) && SameListed(mem, m)
    ensures DisjointIn(m)
  {
    assert forall x: Id, pg: nat :: Listing(m, x, pg) <==> Listing(mem, x, pg);
  }

  lemma ImportListsOneMore(s: Sys, e: Event)
    requires ListsOk(s.mem) && Can(s, e) && (e.Import? || e.ImportNone?)
    ensures ListsOneMore(s.mem, Next(s, e).mem, s.mem.free[0])
    ensures Next(s, e).mem.regs[s.mem.free[0]].vaddr == e.vaddr && Next(s, e).mem.regs[s.mem.free[0]].len == e.len
  {
    FreeIsUnused(s.mem);
    Appended(s.mem, s.mem.free[0]);
    Inserted(s.mem, s.mem.free[0]);
  }

  lemma AdoptListsOneMore(mem: Mem)
    requires ListsOk(mem) && mem.pending.Some?
    ensures ListsOneMore(mem, DoAdopt(mem), mem.pending.value)
  {
    OnePlace(mem, mem.pending.value);
    assert forall x: Id :: x in DoAdopt(mem).reserved <==> x in mem.reserved || x == mem.pending.value;
  }

  /** What is left: nothing is put on a list. */
  lemma OtherIsSame(s: Sys, e: Event)
    requires MemOk(s.mem) && PendOk(s) && Can(s, e) && Newcomer(s, e).None? && !e.Mmap?
    ensures SameListed(s.mem, Next(s, e).mem)
  {
    match e
    case Log(l) => LogIsSame(s, l);
    case _ =>
  }

  lemma LogIsSame(s: Sys, l: Label)
    requires ListsOk(s.mem) && FilesOk(s.mem) && Can(s, Log(l)) && Newcomer(s, Log(l)).None?
    ensures SameListed(s.mem, Next(s, Log(l)).mem)
  {
    FreeIsUnused(s.mem);
    match l
    case FreeHead(_) =>
    case PostCommit(_, _) =>
    case _ =>
  }

  lemma NewcomerDisjoint(s: Sys, e: Event)
    requires Inv(s) && DisjointIn(s.mem) && Can(s, e) && Newcomer(s, e).Some?
    ensures DisjointIn(Next(s, e).mem) <==> NewcomerIsClear(s, e)
  {
    if e.Log? {
      AdoptListsOneMore(s.mem);
      OneMoreDisjoint(s.mem, Next(s, e).mem, s.mem.pending.value, Newcomer(s, e).value);
    } else {
      ImportListsOneMore(s, e);
      OneMoreDisjoint(s.mem, Next(s, e).mem, s.mem.free[0], Newcomer(s, e).value);
    }
  }

  lemma EventDisjoint(s: Sys, e: Event)
    requires Inv(s) && DisjointIn(s.mem) && Can(s, e)
    ensures DisjointIn(Next(s, e).mem) <==> NewcomerIsClear(s, e)
  {
    if Newcomer(s, e).Some? {
      NewcomerDisjoint(s, e);
    } else if e.Mmap? {
      MmapMoves(s.mem, e.len, e.prot);
      MoveDisjoint(s.mem, Next(s, e).mem, s.mem.free[0], s.mem.reserved[0], e.len);
    } else {
      OtherIsSame(s, e);
      SameDisjoint(s.mem, Next(s, e).mem);
    }
  }

  lemma OwnersDisjoint(mem: Mem)
    requires Owns(mem) && mem.half == {}
    ensures DisjointIn(mem)
  {
    forall a: Id, b: Id, pg: nat | Listing(mem, a, pg) && Listing(mem, b, pg) ensures a == b {
      assert InUse(mem, a) && InUse(mem, b);
      OneOwner(mem, a, b, pg);
    }
  }

  lemma BootedDisjoint(g: Grant)
    requires GoodGrant(g)
    ensures DisjointIn(Booted(g).mem)
  {
    BootedMem(g);
    OwnersDisjoint(Booted(g).mem);
  }

  // ----- what can be in a newcomer's way

  /** A half-imported region covers a page of the range. */
  ghost predicate MeetsHalf(mem: Mem, r: Range) {
    exists id, pg :: Claims(mem, id, pg) && InPages(r.vaddr, r.len, pg)
  }

  /** If the range is clear of what is in use, half-imported regions are all that it can meet. */
  lemma OnlyHalfInTheWay(mem: Mem, r: Range)
    requires Owns(mem) && HalfOk(mem) && forall pg :: pg in mem.owner ==> !InPages(r.vaddr, r.len, pg)
    ensures ClearOf(mem, r) <==> !MeetsHalf(mem, r)
  {
    forall id: Id, pg: nat | Listing(mem, id, pg) && InPages(r.vaddr, r.len, pg) ensures Claims(mem, id, pg) {
      assert InUse(mem, id) ==> pg in mem.owner;
    }
    forall id: Id, pg: nat | Claims(mem, id, pg) ensures Listing(mem, id, pg) {
      assert id in mem.active;
    }
  }

  /** Two ranges of whole pages that share a page share an address. */
  lemma PageIsShared(r: Region, vaddr: nat, len: nat, pg: nat)
    requires RegionOk(r) && Aligned(vaddr) && Aligned(len) && Covers(r, pg) && InPages(vaddr, len, pg)
    ensures vaddr < r.vaddr + r.len && r.vaddr < vaddr + len
  {
  }

  lemma PrivateIsUnowned(s: Sys, e: Event)
    requires SpacesOk(s) && Can(s, e) && (e.Import? || e.ImportNone?)
    ensures forall pg :: pg in s.mem.owner ==> !InPages(e.vaddr, e.len, pg)
  {
    PrivateIsApart(s.mem.owner, s.space[e.p], e.vaddr, e.len);
  }

  /** sc_import's scan of the active list is enough: whatever it lets through is clear. */
  lemma ImportIsClear(s: Sys, e: Event)
    requires MemOk(s.mem) && SpacesOk(s) && Can(s, e) && e.Import?
    ensures ClearOf(s.mem, Range(e.vaddr, e.len))
  {
    PrivateIsUnowned(s, e);
    OnlyHalfInTheWay(s.mem, Range(e.vaddr, e.len));
    forall id: Id, pg: nat | Claims(s.mem, id, pg) ensures !InPages(e.vaddr, e.len, pg) {
      assert id in s.mem.active && RegionOk(s.mem.regs[id]);
      if InPages(e.vaddr, e.len, pg) {
        PageIsShared(s.mem.regs[id], e.vaddr, e.len, pg);
      }
    }
  }

  /** Some active region and the range have an address in common. */
  ghost predicate SharesAddress(mem: Mem, vaddr: nat, len: nat) {
    exists id: Id, x: nat :: SharesAt(mem, vaddr, len, id, x)
  }

  predicate SharesAt(mem: Mem, vaddr: nat, len: nat, id: Id, x: nat) {
    id < |mem.regs| && id in mem.active && InRange(mem.regs[id], x) && vaddr <= x < vaddr + len
  }

  /** Among ranges that are not empty the scan refuses exactly those that have an address in common with
      an active region; neighbours pass. */
  lemma ScanRefusesExactly(mem: Mem, vaddr: nat, len: nat)
    requires Known(mem.regs, mem.active) && len > 0
    requires forall id: Id :: id < |mem.regs| && id in mem.active ==> mem.regs[id].len > 0
    ensures OverlapsActive(mem, vaddr, len) <==> SharesAddress(mem, vaddr, len)
  {
    if OverlapsActive(mem, vaddr, len) {
      var id :| id in mem.active &&
        vaddr < mem.regs[id].vaddr + mem.regs[id].len && mem.regs[id].vaddr < vaddr + len;
      var x := if vaddr < mem.regs[id].vaddr then mem.regs[id].vaddr else vaddr;
      assert SharesAt(mem, vaddr, len, id, x);
    }
  }

  lemma AdoptMeetsOnlyHalf(s: Sys, l: Label)
    requires Inv(s) && Can(s, Log(l)) && l.FreeHead? && s.log.log[0].op.Reserve?
    ensures ClearOf(s.mem, s.log.log[0].op.range) <==> !MeetsHalf(s.mem, s.log.log[0].op.range)
  {
    EveryoneHolds(s, l.p);
    assert s.log.pending == Some(s.log.log[0].op.range);
    assert HeldApart(s.mem.owner, s.space[l.p], s.log.pending.value);
    OnlyHalfInTheWay(s.mem, s.log.log[0].op.range);
  }

  /** sc_import_protNone, or the adoption of a reservation, over a half-imported region. */
  ghost predicate ListsOverHalf(s: Sys, e: Event) {
    !e.Import? && Newcomer(s, e).Some? && MeetsHalf(s.mem, Newcomer(s, e).value)
  }

  lemma ImportNoneMeetsOnlyHalf(s: Sys, e: Event)
    requires MemOk(s.mem) && SpacesOk(s) && Can(s, e) && e.ImportNone?
    ensures ClearOf(s.mem, Range(e.vaddr, e.len)) <==> !MeetsHalf(s.mem, Range(e.vaddr, e.len))
  {
    PrivateIsUnowned(s, e);
    OnlyHalfInTheWay(s.mem, Range(e.vaddr, e.len));
  }

  lemma ClearUnlessOverHalf(s: Sys, e: Event)
    requires Inv(s) && Can(s, e)
    ensures NewcomerIsClear(s, e) <==> !ListsOverHalf(s, e)
  {
    if e.Import? {
      ImportIsClear(s, e);
    } else if e.ImportNone? {
      ImportNoneMeetsOnlyHalf(s, e);
    } else if Newcomer(s, e).Some? {
      AdoptMeetsOnlyHalf(s, e.l);
    }
  }

  lemma RunDisjointStep(g: Grant, states: seq<Sys>, events: seq<Event>, i: nat)
    requires IsBootRun(g, states, events) && i < |events| && DisjointIn(states[i].mem)
    ensures DisjointIn(states[i + 1].mem) <==> !ListsOverHalf(states[i], events[i])
  {
    ReachableInv(g, states, events, i);
    assert EventAt(states, events, i);
    EventDisjoint(states[i], events[i]);
    ClearUnlessOverHalf(states[i], events[i]);
  }

  /** The lists stay pairwise disjoint throughout a run exactly as long as no sc_import_protNone and
      no adopted reservation covers a page of a half-imported region.  Neither sc_import nor sc_mmap
      nor a join can break it. */
  lemma {:induction false} DisjointExactlyWhileHalfImportsAreSpared(
      g: Grant, states: seq<Sys>, events: seq<Event>, k: nat)
    requires IsBootRun(g, states, events) && k < |states|
    ensures (forall j :: 0 <= j <= k ==> DisjointIn(states[j].mem)) <==>
            (forall i :: 0 <= i < k ==> !ListsOverHalf(states[i], events[i]))
  {
    if k == 0 {
      BootedDisjoint(g);
    } else {
      DisjointExactlyWhileHalfImportsAreSpared(g, states, events, k - 1);
      if DisjointIn(states[k - 1].mem) {
        RunDisjointStep(g, states, events, k - 1);
      }
    }
  }

  // ----- pending reservations

  /** The event imports a page of the range. */
  ghost predicate Hits(e: Event, r: Range) {
    (e.Import? || e.ImportNone?) && exists pg :: InPages(e.vaddr, e.len, pg) && InPages(r.vaddr, r.len, pg)
  }

  lemma ImportClear(s: Sys, e: Event, r: Range)
    requires ListsOk(s.mem) && Can(s, e) && (e.Import? || e.ImportNone?)
    ensures ClearOf(Next(s, e).mem, r) <==> ClearOf(s.mem, r) && !Hits(e, r)
  {
    var m, id := Next(s, e).mem, s.mem.free[0];
    ImportListsOneMore(s, e);
    OneMoreClear(s.mem, m, id, e, r);
  }

  lemma OneMoreClear(mem: Mem, m: Mem, id: Id, e: Event, r: Range)
    requires (e.Import? || e.ImportNone?) && ListsOneMore(mem, m, id)
    requires m.regs[id].vaddr == e.vaddr && m.regs[id].len == e.len
    ensures ClearOf(m, r) <==> ClearOf(mem, r) && !Hits(e, r)
  {
    assert forall x: Id, pg: nat :: Listing(m, x, pg) <==>
      Listing(mem, x, pg) || (x == id && InPages(e.vaddr, e.len, pg));
    if ClearOf(m, r) {
      forall pg: nat | InPages(e.vaddr, e.len, pg) ensures !InPages(r.vaddr, r.len, pg) {
        assert Listing(m, id, pg);
      }
    }
  }

  lemma SameClear(mem: Mem, m: Mem, r: Range)
    requires SameListed(mem, m)
    ensures ClearOf(m, r) <==> ClearOf(mem, r)
  {
    assert forall x: Id, pg: nat :: Listing(m, x, pg) <==> Listing(mem, x, pg);
  }

  /** Step `n` of the log announces the reservation of `r`. */
  predicate Announces(s: State, n: nat, r: Range) {
    InLog(s.log, n) && StepAt(s.log, n).op == Reserve(r)
  }

  /** A step that is in the log after an event was there before, unless it has just been posted. */
  lemma LogStays(s: State, l: Label, n: nat)
    requires CI.Shape(s) && Enabled(s, l) && n <= s.lastSeq && InLog(Apply(s, l).log, n)
    ensures InLog(s.log, n) && StepAt(Apply(s, l).log, n).op == StepAt(s.log, n).op
  {
    match l
    case FreeHead(_) =>
    case PostCommit(_, _) =>
    case Ack(_) =>
    case _ =>
  }

  lemma EventLogStays(s: Sys, e: Event, n: nat)
    requires CI.Shape(s.log) && Can(s, e) && n <= s.log.lastSeq && InLog(Next(s, e).log.log, n)
    ensures InLog(s.log.log, n) && StepAt(Next(s, e).log.log, n).op == StepAt(s.log.log, n).op
  {
    LogFollows(s, e);
    if e.Log? {
      LogStays(s.log, e.l, n);
    }
  }

  lemma RunLogStays(g: Grant, states: seq<Sys>, events: seq<Event>, i: nat, n: nat)
    requires IsBootRun(g, states, events) && i < |events| && n <= states[i].log.lastSeq
    requires InLog(states[i + 1].log.log, n)
    ensures InLog(states[i].log.log, n) && StepAt(states[i + 1].log.log, n).op == StepAt(states[i].log.log, n).op
  {
    ReachableInv(g, states, events, i);
    assert EventAt(states, events, i);
    EventLogStays(states[i], events[i], n);
  }

  lemma RunSeqGrows(g: Grant, states: seq<Sys>, events: seq<Event>, i: nat)
    requires IsBootRun(g, states, events) && i < |events|
    ensures states[i].log.lastSeq <= states[i + 1].log.lastSeq
  {
    assert EventAt(states, events, i);
    SeqGrows(states[i], events[i]);
  }

  lemma SeqGrows(s: Sys, e: Event)
    requires Can(s, e)
    ensures s.log.lastSeq <= Next(s, e).log.lastSeq
  {
    match e
    case Log(l) =>
    case _ =>
  }

  /** The post at `j` announces `r`, in step `n`. */
  ghost predicate PostsAt(states: seq<Sys>, events: seq<Event>, j: nat, n: nat, r: Range) {
    && j < |events| < |states| && n == states[j].log.lastSeq + 1
    && events[j].Log? && events[j].l.PostCommit? && events[j].l.op == Reserve(r)
  }

  /** While its step is in the log a reservation is announced there, and pending. */
  lemma {:induction false} StaysAnnounced(
      g: Grant, states: seq<Sys>, events: seq<Event>, j: nat, k: nat, n: nat, r: Range)
    requires IsBootRun(g, states, events) && j < k < |states| && PostsAt(states, events, j, n, r)
    ensures n <= states[k].log.lastSeq
    ensures InLog(states[k].log.log, n) ==> Announces(states[k].log, n, r)
  {
    if j + 1 == k {
      PostAnnounces(g, states, events, j, n, r);
    } else {
      StaysAnnounced(g, states, events, j, k - 1, n, r);
      RunSeqGrows(g, states, events, k - 1);
      if InLog(states[k].log.log, n) {
        RunLogStays(g, states, events, k - 1, n);
      }
    }
  }

  lemma PostAnnounces(g: Grant, states: seq<Sys>, events: seq<Event>, j: nat, n: nat, r: Range)
    requires IsBootRun(g, states, events) && PostsAt(states, events, j, n, r)
    ensures n == states[j + 1].log.lastSeq && Announces(states[j + 1].log, n, r)
  {
    ReachableInv(g, states, events, j);
    assert EventAt(states, events, j);
    NewStepIsLast(states[j].log, events[j].l);
  }

  lemma NewStepIsLast(s: State, l: Label)
    requires CI.Shape(s) && Enabled(s, l) && l.PostCommit?
    ensures var t := Apply(s, l);
      t.lastSeq == s.lastSeq + 1 && InLog(t.log, t.lastSeq) && StepAt(t.log, t.lastSeq).op == l.op
  {
  }

  /** While `r` is announced, before and after an event, the event lists nothing but an import. */
  lemma AnnouncedClear(s: Sys, e: Event, n: nat, r: Range)
    requires Inv(s) && Can(s, e) && n <= s.log.lastSeq && Announces(s.log, n, r) && InLog(Next(s, e).log.log, n)
    ensures ClearOf(Next(s, e).mem, r) <==> ClearOf(s.mem, r) && !Hits(e, r)
  {
    if e.Import? || e.ImportNone? {
      ImportClear(s, e, r);
    } else {
      NothingListed(s, e, n, r);
      OtherIsSame(s, e);
      SameClear(s.mem, Next(s, e).mem, r);
    }
  }

  lemma NothingListed(s: Sys, e: Event, n: nat, r: Range)
    requires CI.Shape(s.log) && CI.PendingOk(s.log) && Can(s, e) && !e.Import? && !e.ImportNone?
    requires Announces(s.log, n, r) && InLog(Next(s, e).log.log, n)
    ensures Newcomer(s, e).None? && !e.Mmap?
  {
    if e.Log? && e.l.FreeHead? {
      assert StepAt(s.log.log, n).op.Reserve?;
    }
  }

  lemma RunAnnouncedClear(g: Grant, states: seq<Sys>, events: seq<Event>, i: nat, n: nat, r: Range)
    requires IsBootRun(g, states, events) && i < |events| && n <= states[i].log.lastSeq
    requires Announces(states[i].log, n, r) && InLog(states[i + 1].log.log, n)
    ensures ClearOf(states[i + 1].mem, r) <==> ClearOf(states[i].mem, r) && !Hits(events[i], r)
  {
    ReachableInv(g, states, events, i);
    assert EventAt(states, events, i);
    AnnouncedClear(states[i], events[i], n, r);
  }

  /** A fresh range can only meet half-imported regions. */
  lemma FreshIsClear(s: Sys, p: Pid, r: Range)
    requires OwnerOk(s.mem) && HalfOk(s.mem) && SpacesOk(s) && p in s.space && Fresh(s.space[p], r.vaddr, r.len)
    ensures ClearOf(s.mem, r) <==> forall pg :: InPages(r.vaddr, r.len, pg) ==> Unclaimed(s.mem, pg)
  {
    assert Agrees(s.mem.owner, s.space[p]);
    forall id: Id, pg: nat | Listing(s.mem, id, pg) && InPages(r.vaddr, r.len, pg) ensures Claims(s.mem, id, pg) {
      assert InUse(s.mem, id) ==> pg in s.mem.owner;
    }
    forall id: Id, pg: nat | Claims(s.mem, id, pg) ensures Listing(s.mem, id, pg) {
      assert id in s.mem.active;
    }
  }

  lemma PostIsClear(g: Grant, states: seq<Sys>, events: seq<Event>, j: nat, n: nat, r: Range)
    requires IsBootRun(g, states, events) && PostsAt(states, events, j, n, r)
    ensures ClearOf(states[j + 1].mem, r) <==> forall pg :: InPages(r.vaddr, r.len, pg) ==> Unclaimed(states[j].mem, pg)
  {
    ReachableInv(g, states, events, j);
    assert EventAt(states, events, j);
    FreshIsClear(states[j], events[j].l.p, r);
    OtherIsSame(states[j], events[j]);
    SameClear(states[j].mem, states[j + 1].mem, r);
  }

  /** While a reservation is pending its range is clear of all listed regions exactly if, when it
      was posted, no half-imported region covered a page of it, and no import since has hit it. */
  lemma {:induction false} PendingOverlapsExactlyWhenHit(
      g: Grant, states: seq<Sys>, events: seq<Event>, j: nat, k: nat, n: nat, r: Range)
    requires IsBootRun(g, states, events) && j < k < |states| && PostsAt(states, events, j, n, r)
    requires InLog(states[k].log.log, n)
    ensures ClearOf(states[k].mem, r) <==>
      && (forall pg :: InPages(r.vaddr, r.len, pg) ==> Unclaimed(states[j].mem, pg))
      && (forall i :: j < i < k ==> !Hits(events[i], r))
  {
    if j + 1 == k {
      PostIsClear(g, states, events, j, n, r);
    } else {
      StaysAnnounced(g, states, events, j, k - 1, n, r);
      RunLogStays(g, states, events, k - 1, n);
      PendingOverlapsExactlyWhenHit(g, states, events, j, k - 1, n, r);
      RunAnnouncedClear(g, states, events, k - 1, n, r);
    }
  }

  /** Every pending reservation was posted so, and its step is still in the log. */
  lemma {:induction false} PendingWasPosted(g: Grant, states: seq<Sys>, events: seq<Event>, k: nat) returns (j: nat)
    requires IsBootRun(g, states, events) && k < |states| && states[k].log.pending.Some?
    ensures j < k && PostsAt(states, events, j, states[j].log.lastSeq + 1, states[k].log.pending.value)
    ensures InLog(states[k].log.log, states[j].log.lastSeq + 1)
  {
    if k == 0 {
      assert false;
    }
    if PostsAt(states, events, k - 1, states[k - 1].log.lastSeq + 1, states[k].log.pending.value) {
      j := k - 1;
      PostAnnounces(g, states, events, j, states[j].log.lastSeq + 1, states[k].log.pending.value);
    } else {
      RunPendingKept(states, events, k - 1);
      j := PendingWasPosted(g, states, events, k - 1);
      StaysAnnounced(g, states, events, j, k - 1, states[j].log.lastSeq + 1, states[k].log.pending.value);
      RunPendingStepStays(g, states, events, k - 1, states[j].log.lastSeq + 1, states[k].log.pending.value);
    }
  }

  lemma RunPendingKept(states: seq<Sys>, events: seq<Event>, i: nat)
    requires IsSysRun(states, events) && i < |events| && states[i + 1].log.pending.Some?
    requires !PostsAt(states, events, i, states[i].log.lastSeq + 1, states[i + 1].log.pending.value)
    ensures states[i].log.pending == states[i + 1].log.pending
  {
    assert EventAt(states, events, i);
    PendingKept(states[i], events[i]);
  }

  lemma PendingKept(s: Sys, e: Event)
    requires Can(s, e) && Next(s, e).log.pending.Some?
    requires !(e.Log? && e.l.PostCommit? && e.l.op == Reserve(Next(s, e).log.pending.value))
    ensures s.log.pending == Next(s, e).log.pending
  {
    match e
    case Log(l) =>
    case _ =>
  }

  lemma RunPendingStepStays(g: Grant, states: seq<Sys>, events: seq<Event>, i: nat, n: nat, r: Range)
    requires IsBootRun(g, states, events) && i < |events| && Announces(states[i].log, n, r)
    requires states[i + 1].log.pending.Some?
    ensures InLog(states[i + 1].log.log, n)
  {
    ReachableInv(g, states, events, i);
    assert EventAt(states, events, i);
    PendingStepStays(states[i], events[i], n, r);
  }

  lemma PendingStepStays(s: Sys, e: Event, n: nat, r: Range)
    requires CI.Shape(s.log) && CI.PendingOk(s.log) && Can(s, e) && Announces(s.log, n, r)
    requires Next(s, e).log.pending.Some?
    ensures InLog(Next(s, e).log.log, n)
  {
    match e
    case Log(FreeHead(_)) =>
      assert s.log.log[n - s.log.log[0].seqNum].op.Reserve?;
    case Log(_) =>
    case _ =>
  }

  // ----- joining

  /** The walk meets no page twice: neither one of the joiner's nor one that it has just mapped. */
  ghost predicate WalkIsClear(space: Space, regs: seq<Region>, ids: seq<Id>)
    requires Known(regs, ids)
  {
    && (forall i, pg: nat :: 0 <= i < |ids| && Covers(regs[ids[i]], pg) ==> pg !in space)
    && (forall i, j, pg: nat :: 0 <= i < j < |ids| && Covers(regs[ids[i]], pg) ==> !Covers(regs[ids[j]], pg))
  }

  lemma WalkStep(space: Space, regs: seq<Region>, ids: seq<Id>)
    requires Known(regs, ids) && |ids| > 0
    ensures WalkIsClear(space, regs, ids) <==>
      && Fresh(space, regs[ids[0]].vaddr, regs[ids[0]].len)
      && WalkIsClear(MapRegion(space, regs[ids[0]]), regs, ids[1..])
  {
    var r, rest := regs[ids[0]], ids[1..];
    var next := MapRegion(space, r);
    if WalkIsClear(space, regs, ids) {
      forall pg | pg in space ensures !InPages(r.vaddr, r.len, pg) {
        assert !Covers(regs[ids[0]], pg);
      }
      forall i, pg: nat | 0 <= i < |rest| && Covers(regs[rest[i]], pg) ensures pg !in next {
        assert rest[i] == ids[i + 1];
        assert Covers(regs[ids[i + 1]], pg) && pg !in space;
        assert !Covers(regs[ids[0]], pg);
      }
      forall i, j, pg: nat | 0 <= i < j < |rest| && Covers(regs[rest[i]], pg) ensures !Covers(regs[rest[j]], pg) {
        assert rest[i] == ids[i + 1] && rest[j] == ids[j + 1];
      }
    } else if Fresh(space, r.vaddr, r.len) && WalkIsClear(next, regs, rest) {
      forall i, pg: nat | 0 <= i < |ids| && Covers(regs[ids[i]], pg) ensures pg !in space {
        if i > 0 {
          assert ids[i] == rest[i - 1] && Covers(regs[rest[i - 1]], pg);
          assert pg !in next;
        }
      }
      forall i, j, pg: nat | 0 <= i < j < |ids| && Covers(regs[ids[i]], pg) ensures !Covers(regs[ids[j]], pg) {
        assert ids[j] == rest[j - 1];
        assert i > 0 ==> ids[i] == rest[i - 1];
        assert i == 0 ==> pg in next;
      }
    }
  }

  lemma {:induction false} WalkSucceeds(space: Space, regs: seq<Region>, ids: seq<Id>)
    requires Known(regs, ids)
    ensures MapAll(space, regs, ids).Some? <==> WalkIsClear(space, regs, ids)
    decreases |ids|
  {
    if |ids| > 0 {
      WalkStep(space, regs, ids);
      WalkSucceeds(MapRegion(space, regs[ids[0]]), regs, ids[1..]);
    }
  }

  /** Two walks are one over both lists. */
  lemma {:induction false} WalkTwice(space: Space, regs: seq<Region>, a: seq<Id>, b: seq<Id>)
    requires Known(regs, a) && Known(regs, b) && Known(regs, a + b)
    ensures MapAll(space, regs, a + b) ==
      match MapAll(space, regs, a) { case None => None case Some(mid) => MapAll(mid, regs, b) }
    decreases |a|
  {
    if |a| == 0 {
      assert a + b == b;
    } else {
      assert (a + b)[0] == a[0] && (a + b)[1..] == a[1..] + b;
      if Fresh(space, regs[a[0]].vaddr, regs[a[0]].len) {
        WalkTwice(MapRegion(space, regs[a[0]]), regs, a[1..], b);
      }
    }
  }

  lemma ListsAreDistinct(mem: Mem)
    requires BagOk(mem)
    ensures Distinct(mem.active + mem.reserved)
  {
    var all := mem.active + mem.reserved;
    assert multiset(all) == multiset(mem.active) + multiset(mem.reserved);
    forall id | id in all ensures multiset(all)[id] == 1 {
      assert multiset(all)[id] > 0 && Bag(mem)[id] <= 1;
    }
    OnceIsDistinct(all);
  }

  lemma WalkIsClearExactly(mem: Mem, private: set<nat>)
    requires Listed(mem) && Distinct(mem.active + mem.reserved)
    ensures Known(mem.regs, mem.active + mem.reserved)
    ensures WalkIsClear(StartSpace(private), mem.regs, mem.active + mem.reserved) <==>
      DisjointIn(mem) && ClearOfAll(mem, private)
  {
    var all, start := mem.active + mem.reserved, StartSpace(private);
    assert forall id: Id :: OnList(mem, id) <==> id in all;
    if WalkIsClear(start, mem.regs, all) {
      forall a: Id, b: Id, pg: nat | Listing(mem, a, pg) && Listing(mem, b, pg) ensures a == b {
        var i :| 0 <= i < |all| && all[i] == a;
        var j :| 0 <= j < |all| && all[j] == b;
        assert !(i < j) && !(j < i);
      }
      forall id: Id, pg: nat | Listing(mem, id, pg) ensures pg !in private {
        var i :| 0 <= i < |all| && all[i] == id;
        assert pg !in start;
      }
    }
    if DisjointIn(mem) && ClearOfAll(mem, private) {
      forall i, j, pg: nat | 0 <= i < j < |all| && Covers(mem.regs[all[i]], pg) ensures !Covers(mem.regs[all[j]], pg) {
        assert all[i] in all && all[j] in all;
        assert Listing(mem, all[i], pg) && all[i] != all[j] && !Listing(mem, all[j], pg);
      }
      forall i, pg: nat | 0 <= i < |all| && Covers(mem.regs[all[i]], pg) ensures pg !in start {
        assert all[i] in all && Listing(mem, all[i], pg);
      }
    }
  }

  /** The joiner has nothing of its own on a page of a listed region. */
  ghost predicate ClearOfAll(mem: Mem, private: set<nat>) {
    forall id: Id, pg: nat :: Listing(mem, id, pg) ==> pg !in private
  }

  /** The maps of a joining process all land where they are asked for exactly if the listed regions
      are disjoint and it has nothing private on any of them. */
  lemma JoinFailsOnlyOnConflict(mem: Mem, private: set<nat>)
    requires ListsOk(mem)
    ensures JoinSpace(mem, private).Some? <==> DisjointIn(mem) && ClearOfAll(mem, private)
  {
    var start := StartSpace(private);
    ListsAreDistinct(mem);
    WalkIsClearExactly(mem, private);
    WalkTwice(start, mem.regs, mem.active, mem.reserved);
    WalkSucceeds(start, mem.regs, mem.active + mem.reserved);
  }
}
