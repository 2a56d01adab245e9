/** What the region manager and the fault handler guarantee in every state of every run; see
    RegionsSharing for what processes see of each other. */
module RegionsTheorems {
  import opened Basics
  import opened CleanupLog
  import opened Regions
  import opened RegionsInvariant
  import opened RegionsBoot
  import CI = CleanupLogInvariant
  import CT = CleanupLogTheorems

  // ----- agreement

  lemma InvOwns(mem: Mem, id: Id, vaddr: nat)
    requires Owns(mem) && RegionsOk(mem) && id < |mem.regs| && InUse(mem, id) && InRange(mem.regs[id], vaddr)
    ensures vaddr / PAGE in mem.owner && mem.owner[vaddr / PAGE] == id && Covers(mem.regs[id], vaddr / PAGE)
  {
    InRegion(mem.regs[id], vaddr);
  }

  /** Every registered process holds every address of every active or reserved region, and has
      nothing private there, unless the region was left half-imported. */
  lemma ReservationAgreement(g: Grant, states: seq<Sys>, events: seq<Event>, k: nat, p: Pid, id: Id, vaddr: nat)
    requires IsBootRun(g, states, events) && k < |states|
    requires p in states[k].log.procs && id < |states[k].mem.regs| && InUse(states[k].mem, id)
    requires InRange(states[k].mem.regs[id], vaddr)
    ensures var s := states[k];
      p in s.space && vaddr / PAGE in s.space[p] && !s.space[p][vaddr / PAGE].Private?
  {
    var s := states[k];
    ReachableInv(g, states, events, k);
    InvOwns(s.mem, id, vaddr);
    assert Agrees(s.mem.owner, s.space[p]);
  }

  /** Active and reserved regions, but for half-imported ones, are page-aligned and share no
      address. */
  lemma RegionsAreDisjoint(g: Grant, states: seq<Sys>, events: seq<Event>, k: nat, a: Id, b: Id)
    requires IsBootRun(g, states, events) && k < |states|
    requires a < |states[k].mem.regs| && b < |states[k].mem.regs|
    requires InUse(states[k].mem, a) && InUse(states[k].mem, b) && a != b
    ensures var regs := states[k].mem.regs;
      && Aligned(regs[a].vaddr) && Aligned(regs[a].len)
      && forall vaddr: nat :: !(InRange(regs[a], vaddr) && InRange(regs[b], vaddr))
  {
    var mem := states[k].mem;
    ReachableInv(g, states, events, k);
    forall vaddr: nat | InRange(mem.regs[a], vaddr) ensures !InRange(mem.regs[b], vaddr) {
      InvOwns(mem, a, vaddr);
      if InRange(mem.regs[b], vaddr) {
        InvOwns(mem, b, vaddr);
      }
    }
  }

  /** Process `p` has acknowledged every reservation in the log. */
  predicate HasAcknowledged(s: State, p: Pid) {
    p in s.procs &&
    forall i :: 0 <= i < |s.log| && s.log[i].op.Reserve? ==> s.log[i].seqNum <= s.procs[p].flush
  }

  /** A pending range shares no address with a region in use, as soon as one registered process
      has acknowledged it. */
  lemma PendingIsDisjoint(
      g: Grant, states: seq<Sys>, events: seq<Event>, k: nat, p: Pid, id: Id, vaddr: nat)
    requires IsBootRun(g, states, events) && k < |states|
    requires states[k].log.pending.Some? && HasAcknowledged(states[k].log, p)
    requires id < |states[k].mem.regs| && InUse(states[k].mem, id)
    requires InRange(states[k].mem.regs[id], vaddr)
    ensures var r := states[k].log.pending.value; !(r.vaddr <= vaddr < r.vaddr + r.len)
  {
    var s := states[k];
    ReachableInv(g, states, events, k);
    var r := s.log.pending.value;
    assert s.log.log[s.log.obs.reserveSeq - s.log.log[0].seqNum].op.Reserve?;
    assert s.log.procs[p].flush >= s.log.obs.reserveSeq;
    assert HeldApart(s.mem.owner, s.space[p], r);
    InvOwns(s.mem, id, vaddr);
    InRegion(Region(r.vaddr, r.len, ProtNone, None), vaddr);
  }

  // ----- private memory

  /** Whose private pages an event may touch by that process's own wish. */
  predicate TouchesPrivate(e: Event, q: Pid) {
    (e.Import? || e.ImportNone? || e.UnmapPrivate?) && e.p == q
  }

  /** The event is a fault of `q` that the handler serves from region `id`, which covers the page. */
  predicate Overwrites(s: Sys, e: Event, q: Pid, id: Id, pg: nat)
    requires Can(s, e)
  {
    && e.Fault? && e.p == q && Find(s.mem.regs, s.mem.active, e.vaddr) == Some(id)
    && Covers(s.mem.regs[id], pg)
  }

  lemma LogSparesPrivate(s: Sys, l: Label, q: Pid, pg: nat)
    requires Can(s, Log(l)) && q in s.space && pg in s.space[q] && s.space[q][pg].Private?
    requires q in Next(s, Log(l)).space
    ensures pg in Next(s, Log(l)).space[q] && Next(s, Log(l)).space[q][pg].Private?
  {
    match l
    case Ack(_) =>
    case PostCommit(_, _) =>
    case _ =>
  }

  lemma OneEventPrivate(s: Sys, e: Event, q: Pid, pg: nat)
    requires Can(s, e) && q in s.space && pg in s.space[q] && s.space[q][pg].Private?
    requires SpacesOk(s) && q in Next(s, e).space && !TouchesPrivate(e, q)
    ensures pg in Next(s, e).space[q] && Next(s, e).space[q][pg].Private?
            <==> !exists id :: Overwrites(s, e, q, id, pg)
  {
    match e
    case Fault(_, vaddr, _) =>
      var id := Find(s.mem.regs, s.mem.active, vaddr).value;
      assert Overwrites(s, e, q, id, pg) <==> e.p == q && Covers(s.mem.regs[id], pg);
    case Log(l) => LogSparesPrivate(s, l, q, pg);
    case _ =>
  }

  lemma OverwriterIsHalf(s: Sys, e: Event, q: Pid, id: Id, pg: nat)
    requires OwnerOk(s.mem) && SpacesOk(s) && Can(s, e) && Overwrites(s, e, q, id, pg)
    requires q in s.space && pg in s.space[q] && s.space[q][pg].Private?
    ensures Claims(s.mem, id, pg)
  {
    assert Agrees(s.mem.owner, s.space[q]);
  }

  /** A private page of a process is replaced, other than by its own import or unmapping, exactly
      if its own fault is served from a region that covers the page; and that region can only be
      one whose import was left half done. */
  lemma PrivateMemoryIsSafe(g: Grant, states: seq<Sys>, events: seq<Event>, k: nat, q: Pid, pg: nat)
    requires IsBootRun(g, states, events) && k < |events|
    requires q in states[k].space && pg in states[k].space[q] && states[k].space[q][pg].Private?
    requires q in states[k + 1].space && !TouchesPrivate(events[k], q)
    ensures EventAt(states, events, k)
    ensures pg in states[k + 1].space[q] && states[k + 1].space[q][pg].Private?
            <==> !exists id :: Overwrites(states[k], events[k], q, id, pg)
    ensures forall id :: Overwrites(states[k], events[k], q, id, pg) ==> Claims(states[k].mem, id, pg)
  {
    ReachableInv(g, states, events, k);
    assert EventAt(states, events, k);
    OneEventPrivate(states[k], events[k], q, pg);
    forall id | Overwrites(states[k], events[k], q, id, pg) ensures Claims(states[k].mem, id, pg) {
      OverwriterIsHalf(states[k], events[k], q, id, pg);
    }
  }

  // ----- translation and faults

  lemma UnclaimedIsClear(mem: Mem, pg: nat)
    requires HalfOk(mem)
    ensures Unclaimed(mem, pg) <==> pg !in mem.murk
  {
  }

  /** Active region `id` documents that the page shows this place of the backing file. */
  predicate ShowsFile(mem: Mem, id: Id, pg: nat, offset: nat) {
    FileBacked(mem, id) && Covers(mem.regs[id], pg) && offset == FileOffset(mem.regs[id], pg)
  }

  /** The real file reaches beyond the page of the region; a touch past its end is fatal. */
  predicate InFile(mem: Mem, id: Id, pg: nat) {
    && id < |mem.regs| && mem.regs[id].offset.Some? && InRange(mem.regs[id], pg * PAGE)
    && mem.regs[id].offset.value + (pg * PAGE - mem.regs[id].vaddr) + PAGE <= mem.fileLen
  }

  /** Region `id` is active and documents, by its recorded offset and its address, that the page shows
      this place of the backing file. */
  predicate ShowsAt(mem: Mem, id: Id, pg: nat, offset: nat) {
    && FileBacked(mem, id) && InRange(mem.regs[id], pg * PAGE)
    && offset == mem.regs[id].offset.value + (pg * PAGE - mem.regs[id].vaddr)
  }

  /** A region shows the file in order: as far into the extent as the page is into the region. */
  lemma Linear(r: Region, pg: nat)
    requires RegionOk(r) && r.offset.Some? && Covers(r, pg)
    ensures InRange(r, pg * PAGE) && FileOffset(r, pg) == r.offset.value + (pg * PAGE - r.vaddr)
  {
  }

  /** The touch succeeds at once or after one fault, and sees the region's place in the file. */
  ghost predicate Served(s: Sys, p: Pid, id: Id, vaddr: nat, access: Access) {
    var pg := vaddr / PAGE;
    && InFile(s.mem, id, pg) && p in s.space && pg in s.space[p]
    && var place := File(s.mem.regs[id].offset.value + (pg * PAGE - s.mem.regs[id].vaddr));
       || s.space[p][pg] == place
       || (&& s.space[p][pg].Placeholder? && Can(s, Fault(p, vaddr, access))
           && Next(s, Fault(p, vaddr, access)).space[p][pg] == place)
  }

  /** Unless its import was left half done, all of a region is in the file. */
  lemma UsedIsInFile(mem: Mem, id: Id, pg: nat)
    requires RegionsOk(mem) && FilesOk(mem) && FileBacked(mem, id) && id !in mem.half && Covers(mem.regs[id], pg)
    ensures InFile(mem, id, pg)
  {
    var r := mem.regs[id];
    assert r.offset.value + r.len <= mem.fileLen;
    PageEnds(r, pg);
    Linear(r, pg);
  }

  lemma PageEnds(r: Region, pg: nat)
    requires RegionOk(r) && r.offset.Some? && Covers(r, pg)
    ensures FileOffset(r, pg) + PAGE <= r.offset.value + r.len
  {
  }

  /** A permitted touch of an active region works at once or is served by the fault handler
      from that very region; it never dies as unmapped. */
  lemma TouchIsServed(g: Grant, states: seq<Sys>, events: seq<Event>, k: nat,
                      p: Pid, id: Id, vaddr: nat, access: Access)
    requires IsBootRun(g, states, events) && k < |states| && p in states[k].log.procs
    requires id < |states[k].mem.regs| && id in states[k].mem.active && Unclaimed(states[k].mem, vaddr / PAGE)
    requires InRange(states[k].mem.regs[id], vaddr) && Permits(states[k].mem.regs[id].prot, access)
    ensures Served(states[k], p, id, vaddr, access)
  {
    ReachableInv(g, states, events, k);
    TouchInState(states[k], p, id, vaddr, access);
  }

  lemma TouchFinds(mem: Mem, id: Id, vaddr: nat)
    requires MemOk(mem) && id < |mem.regs| && id in mem.active && Unclaimed(mem, vaddr / PAGE)
    requires InRange(mem.regs[id], vaddr)
    ensures vaddr / PAGE in mem.owner && mem.owner[vaddr / PAGE] == id && vaddr / PAGE !in mem.murk
    ensures Covers(mem.regs[id], vaddr / PAGE) && id !in mem.half
    ensures Find(mem.regs, mem.active, vaddr) == Some(id)
  {
    UnclaimedIsClear(mem, vaddr / PAGE);
    InRegion(mem.regs[id], vaddr);
    assert !Claims(mem, id, vaddr / PAGE);
    InvOwns(mem, id, vaddr);
    FaultFindsOwner(mem, vaddr);
  }

  /** What the process has mapped on a page of a file-backed region. */
  lemma TouchSees(s: Sys, p: Pid, id: Id, pg: nat)
    requires OwnerOk(s.mem) && SpacesOk(s) && p in s.space && FileBacked(s.mem, id)
    requires pg in s.mem.owner && s.mem.owner[pg] == id && pg !in s.mem.murk
    ensures pg in s.space[p] && Covers(s.mem.regs[id], pg)
    ensures s.space[p][pg].Placeholder? || s.space[p][pg] == File(FileOffset(s.mem.regs[id], pg))
  {
    assert Agrees(s.mem.owner, s.space[p]) && Translates(s.mem, s.space[p]);
  }

  lemma TouchInState(s: Sys, p: Pid, id: Id, vaddr: nat, access: Access)
    requires MemOk(s.mem) && SpacesOk(s) && p in s.log.procs
    requires id < |s.mem.regs| && id in s.mem.active && Unclaimed(s.mem, vaddr / PAGE)
    requires InRange(s.mem.regs[id], vaddr) && Permits(s.mem.regs[id].prot, access)
    ensures Served(s, p, id, vaddr, access)
  {
    TouchFinds(s.mem, id, vaddr);
    TouchSees(s, p, id, vaddr / PAGE);
    UsedIsInFile(s.mem, id, vaddr / PAGE);
    TouchServed(s, p, id, vaddr, access);
  }

  lemma TouchServed(s: Sys, p: Pid, id: Id, vaddr: nat, access: Access)
    requires Listed(s.mem) && p in s.space && FileBacked(s.mem, id) && Permits(s.mem.regs[id].prot, access)
    requires Find(s.mem.regs, s.mem.active, vaddr) == Some(id) && InFile(s.mem, id, vaddr / PAGE)
    requires RegionOk(s.mem.regs[id]) && Covers(s.mem.regs[id], vaddr / PAGE)
    requires vaddr / PAGE in s.space[p]
    requires var seen := s.space[p][vaddr / PAGE];
      seen.Placeholder? || seen == File(FileOffset(s.mem.regs[id], vaddr / PAGE))
    ensures Served(s, p, id, vaddr, access)
  {
    Linear(s.mem.regs[id], vaddr / PAGE);
  }

  // ----- files and structs

  /** A file-backed region has an aligned extent inside the recorded size, and inside the real
      file unless its import was left half done, however many extensions have failed. */
  lemma FileExtents(g: Grant, states: seq<Sys>, events: seq<Event>, k: nat, id: Id)
    requires IsBootRun(g, states, events) && k < |states| && FileBacked(states[k].mem, id)
    ensures var mem := states[k].mem; var r := mem.regs[id];
      && Aligned(r.offset.value) && r.offset.value + r.len <= mem.tmpfileSize && mem.fileLen <= mem.tmpfileSize
      && (id !in mem.half && r.len > 0 ==> r.offset.value + r.len <= mem.fileLen)
  {
    ReachableInv(g, states, events, k);
  }

  /** Two file-backed regions share no byte of the file. */
  lemma ExtentsAreDisjoint(g: Grant, states: seq<Sys>, events: seq<Event>, k: nat, a: Id, b: Id)
    requires IsBootRun(g, states, events) && k < |states|
    requires FileBacked(states[k].mem, a) && FileBacked(states[k].mem, b) && a != b
    ensures var (x, y) := (states[k].mem.regs[a], states[k].mem.regs[b]);
      x.offset.value + x.len <= y.offset.value || y.offset.value + y.len <= x.offset.value
  {
    ReachableInv(g, states, events, k);
  }

  /** Every region struct is on exactly one list, or pending, or was lost by a post that gave up;
      and the free list never empties. */
  lemma StructsAreConserved(g: Grant, states: seq<Sys>, events: seq<Event>, k: nat)
    requires IsBootRun(g, states, events) && k < |states|
    ensures var mem := states[k].mem;
      && (forall id: Id :: Bag(mem)[id] == if id < g.structs then 1 else 0)
      && |mem.free| > 0
  {
    ReachableInv(g, states, events, k);
    StructCount(g, states, events, k);
  }

  lemma {:induction false} StructCount(g: Grant, states: seq<Sys>, events: seq<Event>, k: nat)
    requires IsBootRun(g, states, events) && k < |states|
    ensures |states[k].mem.regs| == g.structs
  {
    if k > 0 {
      StructCount(g, states, events, k - 1);
      assert EventAt(states, events, k - 1);
      SameStructs(states[k - 1], events[k - 1]);
    }
  }

  lemma SameStructs(s: Sys, e: Event)
    requires Can(s, e)
    ensures |Next(s, e).mem.regs| == |s.mem.regs|
  {
    match e
    case Log(l) =>
    case _ =>
  }

  /** A joiner finds two active nodes and a reserved one, and appending never loses a node. */
  lemma BootstrapOrder(g: Grant, states: seq<Sys>, events: seq<Event>, k: nat, id: Id)
    requires IsBootRun(g, states, events) && k < |states|
    ensures var mem := states[k].mem;
      && |mem.active| >= 2 && |mem.reserved| >= 1 && mem.tail == |mem.active| - 1
      && AppendActive(mem, id).active == mem.active + [id]
  {
    ReachableInv(g, states, events, k);
    Appended(states[k].mem, id);
  }

  /** What sc_join asserts of a node while it walks the active list (`reserved` false) or the
      reserved one. */
  predicate JoinAsserts(mem: Mem, id: Id, reserved: bool)
    requires id < |mem.regs|
  {
    var r := mem.regs[id];
    if !reserved && !r.prot.ProtNone? then
      r.offset.Some? && r.offset.value + r.len <= mem.tmpfileSize && r.offset.value % PAGE == 0
    else
      r.offset.None?
  }

  /** In no run does an assert of sc_join's walk fail, nor is a list head null. */
  lemma NoJoinAssertFails(g: Grant, states: seq<Sys>, events: seq<Event>, k: nat)
    requires IsBootRun(g, states, events) && k < |states|
    ensures var mem := states[k].mem;
      && Listed(mem) && |mem.active| > 1 && |mem.reserved| > 0
      && (forall i :: 0 <= i < |mem.active| ==> JoinAsserts(mem, mem.active[i], false))
      && (forall i :: 0 <= i < |mem.reserved| ==> JoinAsserts(mem, mem.reserved[i], true))
  {
    ReachableInv(g, states, events, k);
    var mem := states[k].mem;
    forall i | 0 <= i < |mem.active| ensures JoinAsserts(mem, mem.active[i], false) {
      assert mem.active[i] in mem.active;
      assert mem.regs[mem.active[i]].offset.Some? ==> FileBacked(mem, mem.active[i]);
    }
    forall i | 0 <= i < |mem.reserved| ensures JoinAsserts(mem, mem.reserved[i], true) {
      assert mem.reserved[i] in mem.reserved;
    }
  }

  // ----- a stranded log

  lemma StrandedEvent(s: Sys, e: Event)
    requires CI.Shape(s.log) && CI.ProcsOk(s.log) && CT.Stranded(s.log) && Can(s, e)
    ensures CT.Stranded(Next(s, e).log) && Next(s, e).log.log[0] == s.log.log[0]
  {
    LogFollows(s, e);
    if e.Log? {
      CT.StrandedStep(s.log, e.l);
    } else if e.JoinAt? {
      CT.StrandedStep(s.log, Join(e.p));
    }
  }

  lemma RunStrandedEvent(g: Grant, states: seq<Sys>, events: seq<Event>, k: nat)
    requires IsBootRun(g, states, events) && k < |events| && CT.Stranded(states[k].log)
    ensures CT.Stranded(states[k + 1].log) && states[k + 1].log.log[0] == states[k].log.log[0]
  {
    ReachableInv(g, states, events, k);
    assert EventAt(states, events, k);
    StrandedEvent(states[k], events[k]);
  }

  lemma {:induction false} StrandedStays(g: Grant, states: seq<Sys>, events: seq<Event>, j: nat, k: nat)
    requires IsBootRun(g, states, events) && j <= k < |states| && CT.Stranded(states[j].log)
    ensures CT.Stranded(states[k].log) && states[k].log.log[0] == states[j].log.log[0]
  {
    if j < k {
      StrandedStays(g, states, events, j, k - 1);
      RunStrandedEvent(g, states, events, k - 1);
    }
  }

  /** Once a departing process has stranded the log, no memory is ever mapped again and, if a
      reservation was pending, no process ever joins again. */
  lemma StrandedForever(g: Grant, states: seq<Sys>, events: seq<Event>, j: nat, k: nat)
    requires IsBootRun(g, states, events) && j <= k < |states| && CT.Stranded(states[j].log)
    ensures forall p, len, prot :: !Can(states[k], Mmap(p, len, prot))
    ensures states[j].log.log[0].op.Reserve? ==> forall p, private :: !Can(states[k], JoinAt(p, private))
  {
    StrandedStays(g, states, events, j, k);
    ReachableInv(g, states, events, k);
  }
}
