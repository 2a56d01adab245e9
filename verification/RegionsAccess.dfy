/** Which touches the fault handler serves, and what serving one does, over every run. */
module RegionsAccess {
  import opened Basics
  import opened CleanupLog
  import opened Regions
  import opened RegionsInvariant
  import opened RegionsBoot
  import RA = RegionsAccounts
  import RL = RegionsLimits
  import RT = RegionsTheorems

  // ----- where a region's protection comes from

  /** The event lists region `id` with this protection. */
  predicate Brings(s: Sys, e: Event, id: Id, prot: Prot) {
    && |s.mem.free| > 0 && s.mem.free[0] == id
    && match e
       case Mmap(_, _, wanted) => prot == wanted
       case Import(_, _, _, wanted, _) => prot == wanted
       case ImportNone(_, _, _, _) => prot == ProtNone
       case _ => false
  }

  /** sc_init has listed the root page and the page of the first malloc, both for reading and writing. */
  predicate FromInit(id: Id, prot: Prot) {
    (id == 0 || id == 2) && prot == ProtRW
  }

  ghost predicate HasOrigin(states: seq<Sys>, events: seq<Event>, k: nat, id: Id, prot: Prot)
    requires |states| == |events| + 1 && k < |states|
  {
    FromInit(id, prot) || exists i :: 0 <= i < k && Brings(states[i], events[i], id, prot)
  }

  /** An active region was active before, or the event has brought it. */
  lemma ActiveBeforeOrBrought(s: Sys, e: Event, id: Id)
    requires MemOk(s.mem) && Can(s, e) && id in Next(s, e).mem.active
    ensures id < |Next(s, e).mem.regs|
    ensures id in s.mem.active || Brings(s, e, id, Next(s, e).mem.regs[id].prot)
  {
    StaysListed(s, e);
    match e
    case Mmap(_, len, prot) => MmapMoves(s.mem, len, prot);
    case Import(_, _, _, _, _) => ImportBrings(s, e, id);
    case ImportNone(_, _, _, _) => ImportBrings(s, e, id);
    case Log(l) => LogBringsNothing(s, l);
    case _ =>
  }

  lemma StaysListed(s: Sys, e: Event)
    requires ListsOk(s.mem) && Can(s, e)
    ensures |Next(s, e).mem.regs| == |s.mem.regs|
    ensures forall id: Id :: id in Next(s, e).mem.active ==> id < |s.mem.regs|
  {
    RT.SameStructs(s, e);
    FreeIsUnused(s.mem);
    Appended(s.mem, s.mem.free[0]);
    Inserted(s.mem, s.mem.free[0]);
    match e
    case Log(l) => LogBringsNothing(s, l);
    case _ =>
  }

  lemma LogBringsNothing(s: Sys, l: Label)
    requires Can(s, Log(l))
    ensures Next(s, Log(l)).mem.active == s.mem.active
  {
    match l
    case FreeHead(_) =>
    case PostCommit(_, _) =>
    case _ =>
  }

  lemma ImportBrings(s: Sys, e: Event, id: Id)
    requires ListsOk(s.mem) && Can(s, e) && (e.Import? || e.ImportNone?) && id in Next(s, e).mem.active
    requires id < |Next(s, e).mem.regs|
    ensures id in s.mem.active || Brings(s, e, id, Next(s, e).mem.regs[id].prot)
  {
    Appended(s.mem, s.mem.free[0]);
    Inserted(s.mem, s.mem.free[0]);
  }

  lemma BootedOrigins(g: Grant, id: Id)
    requires GoodGrant(g) && id in Booted(g).mem.active
    ensures id < |Booted(g).mem.regs| && FromInit(id, Booted(g).mem.regs[id].prot)
  {
    BootedLists(g);
    Appended(Formatted(g), 2);
    assert Booted(g).mem.active == [0] + [2];
  }

  lemma OriginStep(states: seq<Sys>, events: seq<Event>, k: nat, id: Id)
    requires IsSysRun(states, events) && k < |events| && MemOk(states[k].mem)
    requires id in states[k + 1].mem.active
    ensures id < |states[k + 1].mem.regs|
    ensures id in states[k].mem.active ==>
      id < |states[k].mem.regs| && states[k + 1].mem.regs[id] == states[k].mem.regs[id]
    ensures id !in states[k].mem.active ==> Brings(states[k], events[k], id, states[k + 1].mem.regs[id].prot)
  {
    assert EventAt(states, events, k);
    ActiveBeforeOrBrought(states[k], events[k], id);
    if id in states[k].mem.active {
      RA.ActiveStays(states[k], events[k], id);
    }
  }

  lemma ReachableMem(g: Grant, states: seq<Sys>, events: seq<Event>, k: nat)
    requires IsBootRun(g, states, events) && k < |states|
    ensures MemOk(states[k].mem)
  {
    ReachableInv(g, states, events, k);
  }

  /** Every active region has the protection that the event asked for which brought it. */
  lemma {:induction false} ActiveHasOrigin(g: Grant, states: seq<Sys>, events: seq<Event>, k: nat, id: Id)
    requires IsBootRun(g, states, events) && k < |states| && id in states[k].mem.active
    ensures id < |states[k].mem.regs| && HasOrigin(states, events, k, id, states[k].mem.regs[id].prot)
  {
    if k == 0 {
      BootedOrigins(g, id);
    } else {
      ReachableMem(g, states, events, k - 1);
      OriginStep(states, events, k - 1, id);
      if id in states[k - 1].mem.active {
        ActiveHasOrigin(g, states, events, k - 1, id);
      }
    }
  }

  // ----- which touches are served

  /** The accesses that each protection is for. */
  const ALLOWED: set<(Prot, Access)> :=
    {(ProtR, Read), (ProtRW, Read), (ProtRW, Write), (ProtRX, Read), (ProtRX, Exec)}

  /** The first active region with the address is `id`. */
  ghost predicate FirstRegion(mem: Mem, vaddr: nat, id: Id) {
    Known(mem.regs, mem.active) && exists i :: FirstAt(mem.regs, mem.active, vaddr, i) && mem.active[i] == id
  }

  lemma {:induction false} FoundIsFirst(regs: seq<Region>, active: seq<Id>, vaddr: nat) returns (i: nat)
    requires Known(regs, active) && Find(regs, active, vaddr).Some?
    ensures FirstAt(regs, active, vaddr, i) && active[i] == Find(regs, active, vaddr).value
    decreases |active|
  {
    if InRange(regs[active[0]], vaddr) {
      i := 0;
    } else {
      var rest := active[1..];
      assert forall j :: 0 < j < |active| ==> active[j] == rest[j - 1];
      i := FoundIsFirst(regs, rest, vaddr);
      i := i + 1;
    }
  }

  lemma FirstIsFound(mem: Mem, vaddr: nat, id: Id)
    requires Listed(mem)
    ensures FirstRegion(mem, vaddr, id) <==> Find(mem.regs, mem.active, vaddr) == Some(id)
  {
    if FirstRegion(mem, vaddr, id) {
      var i :| FirstAt(mem.regs, mem.active, vaddr, i) && mem.active[i] == id;
      FindIsFirst(mem.regs, mem.active, vaddr, i);
    } else if Find(mem.regs, mem.active, vaddr) == Some(id) {
      var i := FoundIsFirst(mem.regs, mem.active, vaddr);
    }
  }

  /** The handler serves a fault exactly if the first active region with the address is one whose
      protection is for that access. */
  lemma FaultIsServedExactly(s: Sys, p: Pid, vaddr: nat, access: Access)
    requires Listed(s.mem)
    ensures Can(s, Fault(p, vaddr, access)) <==>
      && p in s.space && vaddr / PAGE in s.space[p] && !s.space[p][vaddr / PAGE].File?
      && exists id: Id :: id < |s.mem.regs| && FirstRegion(s.mem, vaddr, id) && (s.mem.regs[id].prot, access) in ALLOWED
  {
    var found := Find(s.mem.regs, s.mem.active, vaddr);
    if found.Some? {
      FirstIsFound(s.mem, vaddr, found.value);
    }
    forall id: Id | FirstRegion(s.mem, vaddr, id) ensures found == Some(id) {
      FirstIsFound(s.mem, vaddr, id);
    }
  }

  /** In every run, a write fault is served only from a region that sc_init, sc_mmap or sc_import has
      listed for reading and writing, an instruction fetch only from one that sc_import has listed for
      execution, and no fault from a region imported without access. */
  lemma FaultIsPermitted(g: Grant, states: seq<Sys>, events: seq<Event>, k: nat) returns (id: Id)
    requires IsBootRun(g, states, events) && k < |events| && events[k].Fault?
    ensures FirstRegion(states[k].mem, events[k].vaddr, id) && id < |states[k].mem.regs|
    ensures events[k].access.Write? ==> HasOrigin(states, events, k, id, ProtRW)
    ensures events[k].access.Exec? ==> HasOrigin(states, events, k, id, ProtRX)
    ensures states[k].mem.regs[id].prot != ProtNone && HasOrigin(states, events, k, id, states[k].mem.regs[id].prot)
  {
    var e, s := events[k], states[k];
    assert EventAt(states, events, k);
    FaultIsServedExactly(s, e.p, e.vaddr, e.access);
    id :| id < |s.mem.regs| && FirstRegion(s.mem, e.vaddr, id) && (s.mem.regs[id].prot, e.access) in ALLOWED;
    var i :| FirstAt(s.mem.regs, s.mem.active, e.vaddr, i) && s.mem.active[i] == id;
    ActiveHasOrigin(g, states, events, k, id);
  }

  // ----- what serving a fault does

  /** After a fault the process has the whole region mapped, in order, and nothing else has changed. */
  ghost predicate MapsExactly(r: Region, before: Space, after: Space)
    requires r.offset.Some?
  {
    forall pg: nat ::
      if InRange(r, pg * PAGE) then
        pg in after && after[pg] == File(r.offset.value + (pg * PAGE - r.vaddr))
      else
        (pg in after <==> pg in before) && (pg in before ==> after[pg] == before[pg])
  }

  lemma MapIsExact(space: Space, r: Region)
    requires RegionOk(r) && r.offset.Some?
    ensures MapsExactly(r, space, MapRegion(space, r))
  {
    forall pg: nat ensures Covers(r, pg) <==> InRange(r, pg * PAGE) {
      InRegion(r, pg * PAGE);
    }
    forall pg: nat | Covers(r, pg) ensures pg in PagesOf(r.vaddr, r.len) && MappingOf(r, pg) ==
        File(r.offset.value + (pg * PAGE - r.vaddr)) {
      RT.Linear(r, pg);
    }
  }

  /** A fault maps all of the region that it is served from, for the process that touched it only. */
  lemma FaultMapsTheRegion(g: Grant, states: seq<Sys>, events: seq<Event>, k: nat, id: Id)
    requires IsBootRun(g, states, events) && k < |events| && events[k].Fault?
    requires FirstRegion(states[k].mem, events[k].vaddr, id)
    ensures var (s, t, p) := (states[k], states[k + 1], events[k].p);
      && id < |s.mem.regs| && s.mem.regs[id].offset.Some? && p in s.space && p in t.space
      && MapsExactly(s.mem.regs[id], s.space[p], t.space[p])
      && t == s.(space := s.space[p := t.space[p]])
  {
    var s, e := states[k], events[k];
    ReachableInv(g, states, events, k);
    assert EventAt(states, events, k);
    FirstIsFound(s.mem, e.vaddr, id);
    assert FileBacked(s.mem, id);
    MapIsExact(s.space[e.p], s.mem.regs[id]);
  }

  // ----- what joining maps

  /** What a joiner sees on a page of a listed region. */
  predicate JoinerSees(r: Region, space: Space, pg: nat)
    requires InRange(r, pg * PAGE)
  {
    pg in space && space[pg] == match r.offset
      case Some(offset) => File(offset + (pg * PAGE - r.vaddr))
      case None => Placeholder
  }

  lemma JoinSees(mem: Mem, private: set<nat>, id: Id, pg: nat)
    requires Listed(mem) && RegionsOk(mem) && JoinSpace(mem, private).Some?
    requires id < |mem.regs| && OnList(mem, id) && InRange(mem.regs[id], pg * PAGE)
    ensures JoinerSees(mem.regs[id], JoinSpace(mem, private).value, pg)
  {
    InRegion(mem.regs[id], pg * PAGE);
    JoinCovers(mem, private, id, pg);
    if mem.regs[id].offset.Some? {
      RT.Linear(mem.regs[id], pg);
    }
  }

  lemma JoinNext(s: Sys, e: Event)
    requires Can(s, e) && e.JoinAt?
    ensures JoinSpace(s.mem, e.private).Some? && e.p in Next(s, e).space
    ensures Next(s, e).space[e.p] == JoinSpace(s.mem, e.private).value
  {
  }

  /** A joiner has every listed region mapped in order, file-backed ones from their place in the file
      and all others inaccessible. */
  lemma JoinMapsEverything(g: Grant, states: seq<Sys>, events: seq<Event>, k: nat, id: Id, pg: nat)
    requires IsBootRun(g, states, events) && k < |events| && events[k].JoinAt?
    requires id < |states[k].mem.regs| && OnList(states[k].mem, id) && InRange(states[k].mem.regs[id], pg * PAGE)
    ensures events[k].p in states[k + 1].space
    ensures JoinerSees(states[k].mem.regs[id], states[k + 1].space[events[k].p], pg)
  {
    var s, e := states[k], events[k];
    ReachableInv(g, states, events, k);
    assert EventAt(states, events, k);
    JoinNext(s, e);
    JoinSees(s.mem, e.private, id, pg);
  }

  // ----- what importing maps

  /** After an import with access the process has the range mapped from the new extent, in order, if
      the import got done; otherwise its address space is what it was. */
  lemma ImportMapsExactly(g: Grant, states: seq<Sys>, events: seq<Event>, k: nat)
    requires IsBootRun(g, states, events) && k < |events| && events[k].Import?
    ensures var (s, t, e) := (states[k], states[k + 1], events[k]);
      && e.p in s.space && e.p in t.space
      && (e.outcome.Done? ==>
            MapsExactly(Region(e.vaddr, e.len, e.prot, Some(s.mem.tmpfileSize)), s.space[e.p], t.space[e.p]))
      && (!e.outcome.Done? ==> t.space == s.space)
  {
    var s, e := states[k], events[k];
    assert EventAt(states, events, k);
    MapIsExact(s.space[e.p], Region(e.vaddr, e.len, e.prot, Some(s.mem.tmpfileSize)));
  }

  /** Only an import that got done leaves the importer with pages of the file in the range; any other
      leaves it its private ones. */
  lemma OnlyDoneImportsShow(g: Grant, states: seq<Sys>, events: seq<Event>, k: nat, pg: nat)
    requires IsBootRun(g, states, events) && k < |events| && events[k].Import?
    requires events[k].vaddr <= pg * PAGE < events[k].vaddr + events[k].len
    ensures var (t, e) := (states[k + 1], events[k]);
      && e.p in t.space && pg in t.space[e.p]
      && (t.space[e.p][pg].File? <==> e.outcome.Done?) && (t.space[e.p][pg].Private? <==> !e.outcome.Done?)
  {
    var s, e := states[k], events[k];
    assert EventAt(states, events, k);
    ImportMapsExactly(g, states, events, k);
    var r := Region(e.vaddr, e.len, e.prot, Some(s.mem.tmpfileSize));
    InRegion(r, pg * PAGE);
    assert InRange(r, pg * PAGE) && pg in PagesOf(e.vaddr, e.len);
  }

  // ----- which calls go through

  /** A process can join exactly if no reservation is pending, a process struct lies ready, the root
      lock is free, the listed regions are disjoint and it has nothing of its own on any of them. */
  lemma JoinWorksExactly(g: Grant, states: seq<Sys>, events: seq<Event>, k: nat, p: Pid, private: set<nat>)
    requires IsBootRun(g, states, events) && k < |states|
    ensures var s := states[k];
      Can(s, JoinAt(p, private)) <==>
        && p !in s.log.procs && s.log.pending.None? && RootUnlocked(s.log) && s.mem.prealloc
        && RL.DisjointIn(s.mem) && RL.ClearOfAll(s.mem, private)
  {
    ReachableMem(g, states, events, k);
    RL.JoinFailsOnlyOnConflict(states[k].mem, private);
  }

  /** sc_mmap succeeds, given a file that can grow, exactly for whole pages to be read or written, with
      the root lock free and the log empty, while a struct is left beside the one it takes and the
      first reserved region is longer than what is asked for. */
  lemma MmapWorksExactly(g: Grant, states: seq<Sys>, events: seq<Event>, k: nat, p: Pid, len: nat, prot: Prot)
    requires IsBootRun(g, states, events) && k < |states|
    ensures var s := states[k];
      && |s.mem.reserved| > 0 && s.mem.reserved[0] < |s.mem.regs|
      && (Can(s, Mmap(p, len, prot)) <==>
            && p in s.log.procs && RootUnlocked(s.log) && s.log.log == []
            && len > 0 && len % PAGE == 0 && (prot == ProtR || prot == ProtRW)
            && |s.mem.free| >= 2 && s.mem.regs[s.mem.reserved[0]].len > len)
  {
    ReachableInv(g, states, events, k);
    MmapWorks(states[k], p, len, prot);
  }

  lemma MmapWorks(s: Sys, p: Pid, len: nat, prot: Prot)
    requires ListsOk(s.mem) && s.space.Keys == s.log.procs.Keys
    ensures s.mem.reserved[0] < |s.mem.regs|
    ensures Can(s, Mmap(p, len, prot)) <==>
      && p in s.log.procs && RootUnlocked(s.log) && s.log.log == []
      && len > 0 && len % PAGE == 0 && (prot == ProtR || prot == ProtRW)
      && |s.mem.free| >= 2 && s.mem.regs[s.mem.reserved[0]].len > len
  {
    FreeIsUnused(s.mem);
  }

  /** sc_import lists a range exactly if it is whole pages of the caller's own, in a subcontext of one
      process, and the scan lets it through. */
  lemma ImportWorksExactly(g: Grant, states: seq<Sys>, events: seq<Event>, k: nat,
                           p: Pid, vaddr: nat, len: nat, prot: Prot, outcome: Outcome)
    requires IsBootRun(g, states, events) && k < |states|
    ensures var s := states[k];
      Known(s.mem.regs, s.mem.active) &&
      (Can(s, Import(p, vaddr, len, prot, outcome)) <==>
        && p in s.log.procs && RootUnlocked(s.log) && s.log.procCount == 1 && |s.mem.free| >= 2
        && vaddr % PAGE == 0 && len % PAGE == 0 && prot != ProtNone
        && p in s.space && AllPrivate(s.space[p], vaddr, len) && !OverlapsActive(s.mem, vaddr, len))
  {
    ReachableMem(g, states, events, k);
    ImportWorks(states[k], p, vaddr, len, prot, outcome);
  }

  lemma ImportWorks(s: Sys, p: Pid, vaddr: nat, len: nat, prot: Prot, outcome: Outcome)
    requires ListsOk(s.mem)
    ensures Can(s, Import(p, vaddr, len, prot, outcome)) <==>
      && p in s.log.procs && RootUnlocked(s.log) && s.log.procCount == 1 && |s.mem.free| >= 2
      && vaddr % PAGE == 0 && len % PAGE == 0 && prot != ProtNone
      && p in s.space && AllPrivate(s.space[p], vaddr, len) && !OverlapsActive(s.mem, vaddr, len)
  {
    FreeIsUnused(s.mem);
  }
}
