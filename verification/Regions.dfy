/**
  Regions of shared virtual memory and the address spaces they are mapped into, on top of the
  cleanup log.

  Region structs live in an array on page 0 and are named by their index; the lists of the
  root struct are sequences of such names.  An address space maps page numbers to what is
  mapped there.  The kernel's part is in the guards: a mapping without MAP_FIXED lands on
  pages that the process has not mapped.
*/
module Regions {
  import opened Basics
  import opened CleanupLog

  /** The length of the range that sc_init reserves. */
  const FIRST_RESERVE: nat := 0x10_0000

  type Id = nat

  datatype Prot = ProtNone | ProtR | ProtRW | ProtRX

  datatype Access = Read | Write | Exec

  /** `offset` is the place in the backing file; None stands for the source's -1. */
  datatype Region = Region(vaddr: nat, len: nat, prot: Prot, offset: Option<nat>)

  datatype Mapping = Private | Placeholder | File(offset: nat)

  type Space = map<nat, Mapping>

  /** How far sc_import gets once it has listed the region: the return codes 3, 4, 5 and 0. */
  datatype Outcome =
    | NotExtended   // ftruncate failed
    | NotCopied     // the file has grown, but could not be mapped for the copy
    | NotMapped     // copied, but the original pages could not be replaced
    | Done

  datatype Mem = Mem(
    regs: seq<Region>,
    active: seq<Id>,
    tail: nat,               // where active_regionsTail points, as a position in `active`
    reserved: seq<Id>,
    pending: Option<Id>,
    free: seq<Id>,
    tmpfileSize: nat,
    fileLen: nat,            // the real length of the backing file
    prealloc: bool,          // a process struct lies ready for the next joiner
    newcomers: set<Pid>,     // processes that have yet to put the next one there
    leaked: multiset<Id>,    // observer: structs lost by posts that gave up
    owner: map<nat, Id>,     // observer: the region that each shared page belongs to
    half: set<Id>,           // observer: regions whose import was left half done
    murk: set<nat>)          // observer: the pages that those claim

  datatype Sys = Sys(log: State, mem: Mem, space: map<Pid, Space>)

  datatype Event =
    | Log(l: Label)
    | JoinAt(p: Pid, private: set<nat>)
    | JoinFails(private: set<nat>)
    | Prealloc(p: Pid)
    | Mmap(p: Pid, len: nat, prot: Prot)
    | MmapNoSpace(p: Pid, len: nat)
    | Import(p: Pid, vaddr: nat, len: nat, prot: Prot, outcome: Outcome)
    | ImportNone(p: Pid, vaddr: nat, len: nat, mapped: bool)
    | Fault(p: Pid, vaddr: nat, access: Access)
    | MapPrivate(p: Pid, pages: set<nat>)
    | UnmapPrivate(p: Pid, pages: set<nat>)

  predicate Known(regs: seq<Region>, ids: seq<Id>) {
    forall i :: 0 <= i < |ids| ==> ids[i] < |regs|
  }

  // ----- pages

  predicate Aligned(n: nat) {
    n % PAGE == 0
  }

  predicate InPages(vaddr: nat, len: nat, pg: nat) {
    vaddr / PAGE <= pg < (vaddr + len) / PAGE
  }

  function PagesOf(vaddr: nat, len: nat): set<nat> {
    set pg: nat | vaddr / PAGE <= pg < (vaddr + len) / PAGE && InPages(vaddr, len, pg)
  }

  predicate Covers(r: Region, pg: nat) {
    InPages(r.vaddr, r.len, pg)
  }

  /** Where the backing file holds the page of the region. */
  function FileOffset(r: Region, pg: nat): nat
    requires r.offset.Some? && Covers(r, pg)
  {
    r.offset.value + (pg - r.vaddr / PAGE) * PAGE
  }

  predicate Fresh(space: Space, vaddr: nat, len: nat) {
    forall pg :: pg in space ==> !InPages(vaddr, len, pg)
  }

  predicate AllPrivate(space: Space, vaddr: nat, len: nat) {
    forall pg :: pg in PagesOf(vaddr, len) ==> pg in space && space[pg].Private?
  }

  /** Put placeholders on a range. */
  function Hold(space: Space, vaddr: nat, len: nat): Space {
    map pg | pg in space.Keys + PagesOf(vaddr, len) ::
      if InPages(vaddr, len, pg) then Placeholder else space[pg]
  }

  /** What a process that has mapped the region sees on the page. */
  function MappingOf(r: Region, pg: nat): Mapping
    requires Covers(r, pg)
  {
    if r.offset.Some? then File(FileOffset(r, pg)) else Placeholder
  }

  /** Map a region the way sc_join and the fault handler do. */
  function MapRegion(space: Space, r: Region): Space {
    map pg | pg in space.Keys + PagesOf(r.vaddr, r.len) ::
      if Covers(r, pg) then MappingOf(r, pg) else space[pg]
  }

  /** sc_join's walk over one list: every mapping must land where it is asked for. */
  function MapAll(space: Space, regs: seq<Region>, ids: seq<Id>): Option<Space>
    requires Known(regs, ids)
    decreases |ids|
  {
    if |ids| == 0 then Some(space)
    else if !Fresh(space, regs[ids[0]].vaddr, regs[ids[0]].len) then None
    else MapAll(MapRegion(space, regs[ids[0]]), regs, ids[1..])
  }

  /** The address space of a process before it has mapped anything shared. */
  function StartSpace(private: set<nat>): Space {
    map pg | pg in private :: Private
  }

  function JoinSpace(mem: Mem, private: set<nat>): Option<Space>
    requires Known(mem.regs, mem.active) && Known(mem.regs, mem.reserved)
  {
    match MapAll(StartSpace(private), mem.regs, mem.active)
    case None => None
    case Some(space) => MapAll(space, mem.regs, mem.reserved)
  }

  // ----- the fault handler

  predicate InRange(r: Region, vaddr: nat) {
    r.vaddr <= vaddr < r.vaddr + r.len
  }

  /** The first active region that contains the address, in list order. */
  function Find(regs: seq<Region>, active: seq<Id>, vaddr: nat): (found: Option<Id>)
    requires Known(regs, active)
    ensures found.Some? ==> found.value in active
    ensures found.Some? ==> InRange(regs[found.value], vaddr)
    ensures found.None? ==> forall id :: id in active ==> !InRange(regs[id], vaddr)
    decreases |active|
  {
    if |active| == 0 then None
    else if InRange(regs[active[0]], vaddr) then Some(active[0])
    else Find(regs, active[1..], vaddr)
  }

  /** The walk along the list meets a region with the address at position `i`, and none before. */
  ghost predicate FirstAt(regs: seq<Region>, active: seq<Id>, vaddr: nat, i: int)
    requires Known(regs, active)
  {
    && 0 <= i < |active| && InRange(regs[active[i]], vaddr)
    && forall j :: 0 <= j < i ==> !InRange(regs[active[j]], vaddr)
  }

  /** The walk stops at the first region in list order that contains the address. */
  lemma {:induction false} FindIsFirst(regs: seq<Region>, active: seq<Id>, vaddr: nat, i: nat)
    requires Known(regs, active) && FirstAt(regs, active, vaddr, i)
    ensures Find(regs, active, vaddr) == Some(active[i])
    decreases |active|
  {
    if i > 0 {
      var rest := active[1..];
      assert forall j :: 0 < j < |active| ==> active[j] == rest[j - 1];
      assert !InRange(regs[active[0]], vaddr);
      FindIsFirst(regs, rest, vaddr, i - 1);
    }
  }

  predicate Permits(prot: Prot, access: Access) {
    match access
    case Write => prot.ProtRW?
    case Exec => prot.ProtRX?
    case Read => !prot.ProtNone?
  }

  // ----- changes to the root struct

  /** Append to the active list by way of the tail pointer: whatever follows the tail is lost. */
  function AppendActive(mem: Mem, id: Id): Mem
    requires mem.tail < |mem.active|
  {
    mem.(active := mem.active[..mem.tail + 1] + [id], tail := mem.tail + 1)
  }

  /** Insert behind the first node; the tail pointer is not touched. */
  function InsertAfterHead(mem: Mem, id: Id): Mem
    requires |mem.active| > 0
  {
    mem.(active := [mem.active[0], id] + mem.active[1..],
         tail := if mem.tail == 0 then 0 else mem.tail + 1)
  }

  /** The region a successful sc_getFreeRegion hands out. */
  predicate HasFreeRegion(mem: Mem) {
    |mem.free| >= 2 && mem.free[0] < |mem.regs|
  }

  function Own(owner: map<nat, Id>, vaddr: nat, len: nat, id: Id): map<nat, Id> {
    map pg | pg in owner.Keys + PagesOf(vaddr, len) :: if InPages(vaddr, len, pg) then id else owner[pg]
  }

  function DoMmap(mem: Mem, len: nat, prot: Prot): Mem
    requires HasFreeRegion(mem) && mem.tail < |mem.active| && |mem.reserved| > 0
    requires mem.reserved[0] < |mem.regs| && mem.regs[mem.reserved[0]].len >= len
  {
    var id, from := mem.free[0], mem.reserved[0];
    var base := mem.regs[from];
    AppendActive(mem, id).(
      regs := mem.regs[id := Region(base.vaddr, len, prot, Some(mem.tmpfileSize))]
                      [from := base.(vaddr := base.vaddr + len, len := base.len - len)],
      free := mem.free[1..],
      tmpfileSize := mem.tmpfileSize + len,
      fileLen := mem.tmpfileSize + len,
      owner := Own(mem.owner, base.vaddr, len, id))
  }

  /** Unless it is done, the region is listed but the importer keeps its own pages there; only a
      range without pages is none the worse for it. */
  function DoImport(mem: Mem, vaddr: nat, len: nat, prot: Prot, outcome: Outcome): Mem
    requires HasFreeRegion(mem) && mem.tail < |mem.active|
  {
    var id, whole := mem.free[0], outcome.Done? || len == 0;
    AppendActive(mem, id).(
      regs := mem.regs[id := Region(vaddr, len, prot, Some(mem.tmpfileSize))],
      free := mem.free[1..],
      tmpfileSize := mem.tmpfileSize + len,
      fileLen := if outcome.NotExtended? then mem.fileLen else mem.tmpfileSize + len,
      owner := if whole then Own(mem.owner, vaddr, len, id) else mem.owner,
      half := if whole then mem.half else mem.half + {id},
      murk := if whole then mem.murk else mem.murk + PagesOf(vaddr, len))
  }

  /** `mapped` says whether the pages could be replaced. */
  function DoImportNone(mem: Mem, vaddr: nat, len: nat, mapped: bool): Mem
    requires HasFreeRegion(mem) && |mem.active| > 0
  {
    var id, whole := mem.free[0], mapped || len == 0;
    InsertAfterHead(mem, id).(
      regs := mem.regs[id := Region(vaddr, len, ProtNone, None)],
      free := mem.free[1..],
      owner := if whole then Own(mem.owner, vaddr, len, id) else mem.owner,
      half := if whole then mem.half else mem.half + {id},
      murk := if whole then mem.murk else mem.murk + PagesOf(vaddr, len))
  }

  function DoPropose(mem: Mem, range: Range): Mem
    requires HasFreeRegion(mem)
  {
    mem.(regs := mem.regs[mem.free[0] := Region(range.vaddr, range.len, ProtNone, None)],
         pending := Some(mem.free[0]),
         free := mem.free[1..])
  }

  function DoAdopt(mem: Mem): Mem
    requires mem.pending.Some? && mem.pending.value < |mem.regs|
  {
    var id := mem.pending.value;
    mem.(pending := None,
         reserved := [id] + mem.reserved,
         owner := Own(mem.owner, mem.regs[id].vaddr, mem.regs[id].len, id))
  }

  // ----- events

  /** The event does not leave an import half done. */
  predicate Whole(e: Event) {
    match e
    case Import(_, _, len, _, outcome) => outcome.Done? || len == 0
    case ImportNone(_, _, len, mapped) => mapped || len == 0
    case _ => true
  }

  predicate OverlapsActive(mem: Mem, vaddr: nat, len: nat)
    requires Known(mem.regs, mem.active)
  {
    exists id :: id in mem.active &&
      vaddr < mem.regs[id].vaddr + mem.regs[id].len && mem.regs[id].vaddr < vaddr + len
  }

  /** Every struct on a list exists. */
  predicate Listed(mem: Mem) {
    && Known(mem.regs, mem.active) && Known(mem.regs, mem.reserved) && Known(mem.regs, mem.free)
    && (mem.pending.Some? ==> mem.pending.value < |mem.regs|)
    && mem.tail < |mem.active|
  }

  /** The joiner has something of its own where the root page must go. */
  predicate RootTaken(mem: Mem, private: set<nat>)
    requires Known(mem.regs, mem.active) && |mem.active| > 0
  {
    var root := mem.regs[mem.active[0]];
    !Fresh(StartSpace(private), root.vaddr, root.len)
  }

  /** What a step of the log needs from memory.  A joiner that is refused has made its maps. */
  predicate LogGuard(s: Sys, l: Label)
    requires Listed(s.mem) && Enabled(s.log, l)
  {
    match l
    case Join(_) => false
    case JoinRefused => s.mem.prealloc && JoinSpace(s.mem, {}).Some?
    case PostCommit(p, Reserve(r)) =>
      && HasFreeRegion(s.mem) && Aligned(r.vaddr) && Aligned(r.len)
      && p in s.space && Fresh(s.space[p], r.vaddr, r.len)
    case PostAbandon(_) => HasFreeRegion(s.mem)
    case Ack(p) =>
      && p in s.space
      && var op := StepAt(s.log.log, s.log.procs[p].scan.at).op;
         op.Reserve? ==> Fresh(s.space[p], op.range.vaddr, op.range.len)
    case FreeHead(_) => s.log.log[0].op.Reserve? ==> s.mem.pending.Some?
    case _ => true
  }

  /** The main thread of `p` can take the root lock. */
  predicate AtRootLock(s: Sys, p: Pid) {
    p in s.log.procs && p in s.space && RootUnlocked(s.log)
  }

  predicate CanImport(s: Sys, p: Pid, vaddr: nat, len: nat) {
    && AtRootLock(s, p) && s.log.procCount == 1 && HasFreeRegion(s.mem)
    && Aligned(vaddr) && Aligned(len) && AllPrivate(s.space[p], vaddr, len)
  }

  predicate Can(s: Sys, e: Event) {
    Listed(s.mem) &&
    match e
    case Log(l) => Enabled(s.log, l) && LogGuard(s, l)
    case JoinAt(p, private) =>
      Enabled(s.log, Join(p)) && s.mem.prealloc && JoinSpace(s.mem, private).Some?
    case JoinFails(private) =>
      && RootUnlocked(s.log)
      && (RootTaken(s.mem, private) || (s.mem.prealloc && JoinSpace(s.mem, private).None?))
    case Prealloc(p) => AtRootLock(s, p) && p in s.mem.newcomers
    case Mmap(p, len, prot) =>
      && AtRootLock(s, p) && |s.log.log| == 0
      && len > 0 && Aligned(len) && (prot.ProtR? || prot.ProtRW?)
      && HasFreeRegion(s.mem) && |s.mem.reserved| > 0 && s.mem.regs[s.mem.reserved[0]].len > len
    case MmapNoSpace(p, len) => AtRootLock(s, p) && |s.log.log| == 0 && len > 0 && Aligned(len)
    case Import(p, vaddr, len, prot, _) =>
      CanImport(s, p, vaddr, len) && !prot.ProtNone? && !OverlapsActive(s.mem, vaddr, len)
    case ImportNone(p, vaddr, len, _) => CanImport(s, p, vaddr, len)
    case Fault(p, vaddr, access) =>
      && p in s.space && vaddr / PAGE in s.space[p] && !s.space[p][vaddr / PAGE].File?
      && var found := Find(s.mem.regs, s.mem.active, vaddr);
         found.Some? && Permits(s.mem.regs[found.value].prot, access)
    case MapPrivate(p, pages) => p in s.space && pages !! s.space[p].Keys
    case UnmapPrivate(p, pages) =>
      p in s.space && forall pg :: pg in pages ==> pg in s.space[p] && s.space[p][pg].Private?
  }

  function LogEffect(s: Sys, l: Label): Sys
    requires Listed(s.mem) && Enabled(s.log, l) && LogGuard(s, l)
  {
    var t := s.(log := Apply(s.log, l));
    match l
    case JoinRefused => t.(mem := s.mem.(prealloc := false))
    case PostCommit(p, Reserve(r)) =>
      t.(mem := DoPropose(s.mem, r), space := s.space[p := Hold(s.space[p], r.vaddr, r.len)])
    case PostAbandon(_) =>
      t.(mem := s.mem.(free := s.mem.free[1..], leaked := s.mem.leaked + multiset{s.mem.free[0]}))
    case Ack(p) =>
      var op := StepAt(s.log.log, s.log.procs[p].scan.at).op;
      if op.Reserve? then t.(space := s.space[p := Hold(s.space[p], op.range.vaddr, op.range.len)]) else t
    case FreeHead(_) =>
      if s.log.log[0].op.Reserve? then t.(mem := DoAdopt(s.mem)) else t
    case Depart(p) =>
      t.(mem := s.mem.(newcomers := s.mem.newcomers - {p}), space := s.space - {p})
    case _ => t
  }

  function Next(s: Sys, e: Event): Sys
    requires Can(s, e)
  {
    match e
    case Log(l) => LogEffect(s, l)
    case JoinAt(p, private) =>
      Sys(Apply(s.log, Join(p)), s.mem.(prealloc := false, newcomers := s.mem.newcomers + {p}),
          s.space[p := JoinSpace(s.mem, private).value])
    case JoinFails(private) =>
      if RootTaken(s.mem, private) then s else s.(mem := s.mem.(prealloc := false))
    case Prealloc(p) => s.(mem := s.mem.(prealloc := true, newcomers := s.mem.newcomers - {p}))
    case Mmap(_, len, prot) => s.(mem := DoMmap(s.mem, len, prot))
    case MmapNoSpace(_, len) => s.(mem := s.mem.(tmpfileSize := s.mem.tmpfileSize + len))
    case Import(p, vaddr, len, prot, outcome) =>
      var mem := DoImport(s.mem, vaddr, len, prot, outcome);
      if outcome.Done? then s.(mem := mem, space := s.space[p := MapRegion(s.space[p], mem.regs[s.mem.free[0]])])
      else s.(mem := mem)
    case ImportNone(p, vaddr, len, mapped) =>
      s.(mem := DoImportNone(s.mem, vaddr, len, mapped),
         space := if mapped then s.space[p := Hold(s.space[p], vaddr, len)] else s.space)
    case Fault(p, vaddr, _) =>
      var id := Find(s.mem.regs, s.mem.active, vaddr).value;
      s.(space := s.space[p := MapRegion(s.space[p], s.mem.regs[id])])
    case MapPrivate(p, pages) =>
      s.(space := s.space[p := s.space[p] + map pg | pg in pages :: Private])
    case UnmapPrivate(p, pages) =>
      s.(space := s.space[p := s.space[p] - pages])
  }

  // ----- sc_init

  /** What the kernel granted to the creator: the root page, the first reserved range. */
  datatype Grant = Grant(creator: Pid, private: set<nat>, root: nat, reserve: nat, structs: nat)

  predicate GoodGrant(g: Grant) {
    && g.structs >= 4 && Aligned(g.root) && Aligned(g.reserve)
    && (forall pg :: pg in g.private ==> !InPages(g.root, PAGE, pg) && !InPages(g.reserve, FIRST_RESERVE, pg))
    && PagesOf(g.root, PAGE) !! PagesOf(g.reserve, FIRST_RESERVE)
  }

  /** The root struct when sc_init first releases its lock. */
  function Formatted(g: Grant): Mem
    requires g.structs >= 4
  {
    Mem([Region(g.root, PAGE, ProtRW, Some(0)), Region(g.reserve, FIRST_RESERVE, ProtNone, None)] +
        seq(g.structs - 2, _ => Region(0, 0, ProtNone, None)),
        [0], 0, [1], None, seq(g.structs - 2, i requires 0 <= i => i + 2), PAGE, PAGE, false,
        {g.creator}, multiset{}, Own(Own(map[], g.root, PAGE, 0), g.reserve, FIRST_RESERVE, 1), {}, {})
  }

  /** The system when the creator has registered: the first malloc has mapped one page. */
  function Booted(g: Grant): Sys
    requires GoodGrant(g)
  {
    var root := Region(g.root, PAGE, ProtRW, Some(0));
    var space := Hold(MapRegion(StartSpace(g.private), root), g.reserve, FIRST_RESERVE);
    Sys(Initial(g.creator), DoMmap(Formatted(g), PAGE, ProtRW), map[g.creator := space])
  }

  ghost predicate IsSysRun(states: seq<Sys>, events: seq<Event>) {
    && |states| == |events| + 1
    && forall i {:trigger EventAt(states, events, i)} :: 0 <= i < |events| ==> EventAt(states, events, i)
  }

  ghost predicate EventAt(states: seq<Sys>, events: seq<Event>, i: int) {
    && 0 <= i < |events| < |states|
    && Can(states[i], events[i]) && states[i + 1] == Next(states[i], events[i])
  }
}
