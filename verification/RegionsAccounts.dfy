/** Conservation of address space, and the door through which processes join, over every run. */
module RegionsAccounts {
  import opened Basics
  import opened CleanupLog
  import opened Regions
  import opened RegionsInvariant
  import opened RegionsBoot

  // ----- active regions

  lemma LogKeepsActive(s: Sys, l: Label, id: Id)
    requires ListsOk(s.mem) && Can(s, Log(l)) && id in s.mem.active
    ensures id in Next(s, Log(l)).mem.active && id < |s.mem.regs| == |Next(s, Log(l)).mem.regs|
    ensures Next(s, Log(l)).mem.regs[id] == s.mem.regs[id]
    ensures Next(s, Log(l)).mem.active[0] == s.mem.active[0]
  {
    FreeIsUnused(s.mem);
    match l
    case PostCommit(_, Reserve(r)) =>
    case _ =>
  }

  lemma MmapKeepsActive(mem: Mem, len: nat, prot: Prot, id: Id)
    requires MmapReady(mem, len, prot) && id in mem.active
    ensures var m := DoMmap(mem, len, prot);
      && id in m.active && id < |mem.regs| == |m.regs| && m.regs[id] == mem.regs[id] && m.active[0] == mem.active[0]
  {
    MmapMoves(mem, len, prot);
  }

  lemma ImportKeepsActive(s: Sys, e: Event, id: Id)
    requires ListsOk(s.mem) && Can(s, e) && (e.Import? || e.ImportNone?) && id in s.mem.active
    ensures var m := Next(s, e).mem;
      && id in m.active && id < |s.mem.regs| == |m.regs| && m.regs[id] == s.mem.regs[id]
      && m.active[0] == s.mem.active[0]
  {
    FreeIsUnused(s.mem);
    Appended(s.mem, s.mem.free[0]);
    Inserted(s.mem, s.mem.free[0]);
  }

  /** An active region stays where it is, and the head of the list stays the head. */
  lemma ActiveStays(s: Sys, e: Event, id: Id)
    requires MemOk(s.mem) && Can(s, e) && id in s.mem.active
    ensures id in Next(s, e).mem.active && id < |s.mem.regs| == |Next(s, e).mem.regs|
    ensures Next(s, e).mem.regs[id] == s.mem.regs[id] && Next(s, e).mem.active[0] == s.mem.active[0]
  {
    match e
    case Log(l) => LogKeepsActive(s, l, id);
    case Mmap(_, len, prot) => MmapKeepsActive(s.mem, len, prot, id);
    case Import(_, _, _, _, _) => ImportKeepsActive(s, e, id);
    case ImportNone(_, _, _, _) => ImportKeepsActive(s, e, id);
    case _ =>
  }

  lemma RunActiveStays(g: Grant, states: seq<Sys>, events: seq<Event>, i: nat, id: Id)
    requires IsBootRun(g, states, events) && i < |events| && id in states[i].mem.active && id < |states[i].mem.regs|
    ensures id in states[i + 1].mem.active && id < |states[i + 1].mem.regs|
    ensures states[i + 1].mem.regs[id] == states[i].mem.regs[id]
    ensures states[i].mem.active[0] == states[i + 1].mem.active[0]
  {
    ReachableInv(g, states, events, i);
    assert EventAt(states, events, i);
    ActiveStays(states[i], events[i], id);
  }

  /** The first active region is the root page. */
  ghost predicate RootFirst(g: Grant, mem: Mem) {
    && |mem.active| > 0 && mem.active[0] == 0 && |mem.regs| > 0
    && mem.regs[0] == Region(g.root, PAGE, ProtRW, Some(0))
  }

  lemma BootedRoot(g: Grant)
    requires GoodGrant(g)
    ensures RootFirst(g, Booted(g).mem)
  {
    Appended(Formatted(g), 2);
  }

  lemma {:induction false} RootStays(g: Grant, states: seq<Sys>, events: seq<Event>, k: nat)
    requires IsBootRun(g, states, events) && k < |states|
    ensures RootFirst(g, states[k].mem)
  {
    if k == 0 {
      BootedRoot(g);
    } else {
      RootStays(g, states, events, k - 1);
      RunActiveStays(g, states, events, k - 1, 0);
    }
  }

  // ----- conservation of address space

  function SumLen(regs: seq<Region>, ids: seq<Id>): nat
    requires Known(regs, ids)
  {
    if |ids| == 0 then 0 else regs[ids[0]].len + SumLen(regs, ids[1..])
  }

  /** Bytes of address space that are active, reserved or about to be reserved. */
  function SharedBytes(mem: Mem): nat
    requires Listed(mem)
  {
    SumLen(mem.regs, mem.active) + SumLen(mem.regs, mem.reserved) +
    (if mem.pending.Some? then mem.regs[mem.pending.value].len else 0)
  }

  /** What an event brings into the subcontext. */
  function Brought(e: Event): nat {
    match e
    case Import(_, _, len, _, _) => len
    case ImportNone(_, _, len, _) => len
    case Log(PostCommit(_, Reserve(r))) => r.len
    case _ => 0
  }

  lemma {:induction false} SumConcat(regs: seq<Region>, a: seq<Id>, b: seq<Id>)
    requires Known(regs, a) && Known(regs, b)
    ensures Known(regs, a + b) && SumLen(regs, a + b) == SumLen(regs, a) + SumLen(regs, b)
  {
    if |a| == 0 {
      assert a + b == b;
    } else {
      SumConcat(regs, a[1..], b);
      assert (a + b)[1..] == a[1..] + b;
    }
  }

  lemma {:induction false} SumFrame(regs: seq<Region>, regs': seq<Region>, ids: seq<Id>)
    requires Known(regs, ids) && |regs'| == |regs|
    requires forall i :: 0 <= i < |ids| ==> regs'[ids[i]].len == regs[ids[i]].len
    ensures Known(regs', ids) && SumLen(regs', ids) == SumLen(regs, ids)
  {
    if |ids| > 0 {
      SumFrame(regs, regs', ids[1..]);
    }
  }

  lemma SumOne(regs: seq<Region>, id: Id)
    requires id < |regs|
    ensures Known(regs, [id]) && SumLen(regs, [id]) == regs[id].len
  {
    assert SumLen(regs, [id][1..]) == 0;
  }

  lemma MmapActiveBytes(mem: Mem, m: Mem, id: Id, from: Id, len: nat)
    requires Listed(mem) && Listed(m) && Moves(mem, m, id, from, len)
    ensures SumLen(m.regs, m.active) == SumLen(mem.regs, mem.active) + len
  {
    forall i | 0 <= i < |mem.active| ensures mem.active[i] != id && mem.active[i] != from {
      assert mem.active[i] in mem.active;
    }
    SumFrame(mem.regs, m.regs, mem.active);
    SumConcat(m.regs, mem.active, [id]);
    SumOne(m.regs, id);
  }

  /** The first reserved struct is listed once. */
  lemma FirstReservedOnce(mem: Mem)
    requires ListsOk(mem)
    ensures mem.reserved[0] !in mem.reserved[1..]
  {
    var first, rest := mem.reserved[0], mem.reserved[1..];
    assert mem.reserved == [first] + rest;
    assert Bag(mem)[first] <= 1 && multiset(mem.reserved) == multiset{first} + multiset(rest);
    assert multiset(rest)[first] == 0;
  }

  lemma MmapReservedBytes(mem: Mem, m: Mem, id: Id, len: nat)
    requires ListsOk(mem) && Listed(m) && Moves(mem, m, id, mem.reserved[0], len)
    ensures SumLen(m.regs, m.reserved) == SumLen(mem.regs, mem.reserved) - len
  {
    var rest := mem.reserved[1..];
    FirstReservedOnce(mem);
    forall i | 0 <= i < |rest| ensures rest[i] != id && rest[i] != mem.reserved[0] {
      assert rest[i] in rest && rest[i] in mem.reserved;
    }
    SumFrame(mem.regs, m.regs, rest);
  }

  lemma MmapBytes(mem: Mem, len: nat, prot: Prot)
    requires MmapReady(mem, len, prot) && Listed(DoMmap(mem, len, prot))
    ensures SharedBytes(DoMmap(mem, len, prot)) == SharedBytes(mem)
  {
    var m, id, from := DoMmap(mem, len, prot), mem.free[0], mem.reserved[0];
    MmapMoves(mem, len, prot);
    MmapActiveBytes(mem, m, id, from, len);
    MmapReservedBytes(mem, m, id, len);
    OnePlace(mem, from);
    FreeIsUnused(mem);
  }

  lemma AddBytes(mem: Mem, m: Mem, id: Id)
    requires Listed(mem) && Listed(m) && |m.regs| == |mem.regs| && id < |mem.regs|
    requires !OnList(mem, id) && mem.pending != Some(id) && m.pending == mem.pending
    requires forall x: Id :: x < |mem.regs| && x != id ==> m.regs[x] == mem.regs[x]
    requires m.reserved == mem.reserved
    requires m.active == mem.active + [id] || (|mem.active| > 0 && m.active == [mem.active[0], id] + mem.active[1..])
    ensures SharedBytes(m) == SharedBytes(mem) + m.regs[id].len
  {
    forall i | 0 <= i < |mem.active| ensures mem.active[i] != id { assert mem.active[i] in mem.active; }
    forall i | 0 <= i < |mem.reserved| ensures mem.reserved[i] != id { assert mem.reserved[i] in mem.reserved; }
    SumFrame(mem.regs, m.regs, mem.active);
    SumFrame(mem.regs, m.regs, mem.reserved);
    SumOne(m.regs, id);
    if m.active == mem.active + [id] {
      SumConcat(m.regs, mem.active, [id]);
    } else {
      var head, rest := [mem.active[0]], mem.active[1..];
      SumConcat(m.regs, head, rest);
      SumConcat(m.regs, head + [id], rest);
      SumConcat(m.regs, head, [id]);
      assert mem.active == head + rest && m.active == head + [id] + rest;
    }
  }

  lemma ProposeBytes(mem: Mem, r: Range)
    requires ListsOk(mem) && HasFreeRegion(mem) && mem.pending.None? && Listed(DoPropose(mem, r))
    ensures SharedBytes(DoPropose(mem, r)) == SharedBytes(mem) + r.len
  {
    var m, id := DoPropose(mem, r), mem.free[0];
    FreeIsUnused(mem);
    forall i | 0 <= i < |mem.active| ensures mem.active[i] != id { assert mem.active[i] in mem.active; }
    forall i | 0 <= i < |mem.reserved| ensures mem.reserved[i] != id { assert mem.reserved[i] in mem.reserved; }
    SumFrame(mem.regs, m.regs, mem.active);
    SumFrame(mem.regs, m.regs, mem.reserved);
  }

  lemma AdoptBytes(mem: Mem)
    requires Listed(mem) && mem.pending.Some? && Listed(DoAdopt(mem))
    ensures SharedBytes(DoAdopt(mem)) == SharedBytes(mem)
  {
    SumOne(mem.regs, mem.pending.value);
    SumConcat(mem.regs, [mem.pending.value], mem.reserved);
  }

  lemma LogBytes(s: Sys, l: Label)
    requires ListsOk(s.mem) && PendOk(s) && Can(s, Log(l)) && Listed(Next(s, Log(l)).mem)
    ensures SharedBytes(Next(s, Log(l)).mem) == SharedBytes(s.mem) + Brought(Log(l))
  {
    match l
    case PostCommit(_, Reserve(r)) => ProposeBytes(s.mem, r);
    case FreeHead(_) =>
      if s.log.log[0].op.Reserve? {
        AdoptBytes(s.mem);
      }
    case _ =>
  }

  lemma ImportBytes(s: Sys, e: Event)
    requires MemOk(s.mem) && SpacesOk(s) && Can(s, e) && (e.Import? || e.ImportNone?) && Listed(Next(s, e).mem)
    ensures SharedBytes(Next(s, e).mem) == SharedBytes(s.mem) + Brought(e)
  {
    var mem, m := s.mem, Next(s, e).mem;
    FreeIsUnused(mem);
    Appended(mem, mem.free[0]);
    AddBytes(mem, m, mem.free[0]);
  }

  lemma EventBytes(s: Sys, e: Event)
    requires MemOk(s.mem) && SpacesOk(s) && PendOk(s) && Can(s, e) && Listed(Next(s, e).mem)
    ensures SharedBytes(Next(s, e).mem) == SharedBytes(s.mem) + Brought(e)
  {
    match e
    case Log(l) => LogBytes(s, l);
    case Mmap(_, len, prot) => MmapBytes(s.mem, len, prot);
    case Import(_, _, _, _, _) => ImportBytes(s, e);
    case ImportNone(_, _, _, _) => ImportBytes(s, e);
    case _ =>
  }

  function TotalBrought(events: seq<Event>): nat {
    if |events| == 0 then 0
    else TotalBrought(events[..|events| - 1]) + Brought(events[|events| - 1])
  }

  lemma BootedBytes(g: Grant)
    requires GoodGrant(g)
    ensures Listed(Booted(g).mem) && SharedBytes(Booted(g).mem) == PAGE + FIRST_RESERVE
  {
    var m := Booted(g).mem;
    BootedLists(g);
    Appended(Formatted(g), 2);
    assert m.active == [0] + [2] && m.reserved == [1];
    SumConcat(m.regs, [0], [2]);
    SumOne(m.regs, 0);
    SumOne(m.regs, 1);
    SumOne(m.regs, 2);
  }

  /** Shared address space comes only from the creator, from imports and from reservations, and
      is never lost: mapping moves bytes from reserved to active. */
  lemma {:induction false} BytesAreConserved(g: Grant, states: seq<Sys>, events: seq<Event>, k: nat)
    requires IsBootRun(g, states, events) && k < |states|
    ensures Listed(states[k].mem)
    ensures SharedBytes(states[k].mem) == PAGE + 0x10_0000 + TotalBrought(events[..k])
  {
    if k == 0 {
      BootedBytes(g);
    } else {
      BytesAreConserved(g, states, events, k - 1);
      OneEventBytes(g, states, events, k - 1);
      assert events[..k][..k - 1] == events[..k - 1];
    }
  }

  lemma OneEventBytes(g: Grant, states: seq<Sys>, events: seq<Event>, k: nat)
    requires IsBootRun(g, states, events) && k < |events|
    ensures Listed(states[k].mem) && Listed(states[k + 1].mem)
    ensures SharedBytes(states[k + 1].mem) == SharedBytes(states[k].mem) + Brought(events[k])
  {
    ReachableInv(g, states, events, k);
    assert EventAt(states, events, k);
    StaysListed(states[k], events[k]);
    EventBytes(states[k], events[k]);
  }

  lemma StaysListed(s: Sys, e: Event)
    requires Inv(s) && Can(s, e)
    ensures Listed(Next(s, e).mem)
  {
    EventKeepsInv(s, e);
  }

  // ----- the backing file

  /** The lengths that sc_mmap and sc_import have asked for, whether or not the file could be extended. */
  function Requested(events: seq<Event>): nat {
    if |events| == 0 then 0
    else Requested(events[..|events| - 1]) + Asks(events[|events| - 1])
  }

  function Asks(e: Event): nat {
    match e
    case Mmap(_, len, _) => len
    case MmapNoSpace(_, len) => len
    case Import(_, _, len, _, _) => len
    case _ => 0
  }

  /** The event has extended the file. */
  predicate Extends(e: Event) {
    e.Mmap? || (e.Import? && !e.outcome.NotExtended?)
  }

  /** The size at the last extension that succeeded. */
  function Reached(events: seq<Event>): nat {
    if |events| == 0 then 2 * PAGE
    else if Extends(events[|events| - 1]) then 2 * PAGE + Requested(events)
    else Reached(events[..|events| - 1])
  }

  lemma SizeStep(s: Sys, e: Event)
    requires Can(s, e)
    ensures Next(s, e).mem.tmpfileSize == s.mem.tmpfileSize + Asks(e)
    ensures Next(s, e).mem.fileLen == if Extends(e) then s.mem.tmpfileSize + Asks(e) else s.mem.fileLen
  {
    match e
    case Log(l) =>
    case _ =>
  }

  lemma RunSizeStep(states: seq<Sys>, events: seq<Event>, i: nat)
    requires IsSysRun(states, events) && i < |events|
    ensures states[i + 1].mem.tmpfileSize == states[i].mem.tmpfileSize + Asks(events[i])
    ensures states[i + 1].mem.fileLen ==
      if Extends(events[i]) then states[i].mem.tmpfileSize + Asks(events[i]) else states[i].mem.fileLen
  {
    assert EventAt(states, events, i);
    SizeStep(states[i], events[i]);
  }

  lemma BootedSizes(g: Grant)
    requires GoodGrant(g)
    ensures Booted(g).mem.tmpfileSize == 2 * PAGE && Booted(g).mem.fileLen == 2 * PAGE
  {
  }

  /** The recorded size is two pages and all that was ever asked for, also in vain; the real length is
      what it was at the last extension that succeeded. */
  lemma {:induction false} FileSizeIsHistory(g: Grant, states: seq<Sys>, events: seq<Event>, k: nat)
    requires IsBootRun(g, states, events) && k < |states|
    ensures states[k].mem.tmpfileSize == 2 * PAGE + Requested(events[..k])
    ensures states[k].mem.fileLen == Reached(events[..k])
  {
    if k == 0 {
      BootedSizes(g);
    } else {
      FileSizeIsHistory(g, states, events, k - 1);
      RunSizeStep(states, events, k - 1);
      assert events[..k][..k - 1] == events[..k - 1];
    }
  }

  lemma NewRegion(s: Sys, e: Event)
    requires MemOk(s.mem) && Can(s, e) && (e.Mmap? || e.Import?)
    ensures var id := s.mem.free[0];
      && id < |Next(s, e).mem.regs|
      && Next(s, e).mem.regs[id] == Region(
           if e.Mmap? then s.mem.regs[s.mem.reserved[0]].vaddr else e.vaddr,
           e.len, e.prot, Some(s.mem.tmpfileSize))
  {
    FreeIsUnused(s.mem);
    assert s.mem.reserved[0] in s.mem.reserved;
  }

  /** A new region gets the extent behind all that was ever asked for, and is at the front of the
      first reserved region or where the caller's memory is. */
  lemma ExtentsFollowEachOther(g: Grant, states: seq<Sys>, events: seq<Event>, k: nat)
    requires IsBootRun(g, states, events) && k < |events| && (events[k].Mmap? || events[k].Import?)
    ensures var (s, e) := (states[k], events[k]);
      && |s.mem.free| > 0 && |s.mem.reserved| > 0 && s.mem.reserved[0] < |s.mem.regs|
      && s.mem.free[0] < |states[k + 1].mem.regs|
      && states[k + 1].mem.regs[s.mem.free[0]] == Region(
           if e.Mmap? then s.mem.regs[s.mem.reserved[0]].vaddr else e.vaddr,
           e.len, e.prot, Some(2 * PAGE + Requested(events[..k])))
  {
    ReachableInv(g, states, events, k);
    FileSizeIsHistory(g, states, events, k);
    assert EventAt(states, events, k);
    NewRegion(states[k], events[k]);
  }

  // ----- lost structs

  /** Posts that gave up after they had taken a struct. */
  function Abandoned(events: seq<Event>): nat {
    if |events| == 0 then 0
    else
      var last := events[|events| - 1];
      Abandoned(events[..|events| - 1]) + if last.Log? && last.l.PostAbandon? then 1 else 0
  }

  lemma RunLeakStep(states: seq<Sys>, events: seq<Event>, i: nat)
    requires IsSysRun(states, events) && i < |events|
    ensures |states[i + 1].mem.leaked| ==
      |states[i].mem.leaked| + if events[i].Log? && events[i].l.PostAbandon? then 1 else 0
  {
    assert EventAt(states, events, i);
    LeakStep(states[i], events[i]);
  }

  lemma LeakStep(s: Sys, e: Event)
    requires Can(s, e)
    ensures |Next(s, e).mem.leaked| == |s.mem.leaked| + if e.Log? && e.l.PostAbandon? then 1 else 0
  {
    match e
    case Log(l) =>
    case _ =>
  }

  /** Every post that gave up has lost one struct, and nothing else loses any. */
  lemma {:induction false} LeakIsHistory(g: Grant, states: seq<Sys>, events: seq<Event>, k: nat)
    requires IsBootRun(g, states, events) && k < |states|
    ensures |states[k].mem.leaked| == Abandoned(events[..k])
  {
    if k == 0 {
      NothingLeaked(g);
    } else {
      LeakIsHistory(g, states, events, k - 1);
      RunLeakStep(states, events, k - 1);
      assert events[..k][..k - 1] == events[..k - 1];
    }
  }

  lemma NothingLeaked(g: Grant)
    requires GoodGrant(g)
    ensures |Booted(g).mem.leaked| == 0
  {
  }

  // ----- the door

  /** At most one process owes the next process struct, and then none lies ready. */
  ghost predicate DoorOk(mem: Mem) {
    && (forall p, q :: p in mem.newcomers && q in mem.newcomers ==> p == q)
    && (mem.prealloc ==> mem.newcomers == {})
  }

  lemma DoorStep(s: Sys, e: Event)
    requires DoorOk(s.mem) && Can(s, e)
    ensures DoorOk(Next(s, e).mem)
  {
    match e
    case Log(l) =>
    case _ =>
  }

  lemma {:induction false} ReachableDoor(g: Grant, states: seq<Sys>, events: seq<Event>, k: nat)
    requires IsBootRun(g, states, events) && k < |states|
    ensures DoorOk(states[k].mem)
  {
    if k > 0 {
      ReachableDoor(g, states, events, k - 1);
      RunDoorStep(states, events, k - 1);
    }
  }

  lemma RunDoorStep(states: seq<Sys>, events: seq<Event>, i: nat)
    requires IsSysRun(states, events) && i < |events|
    ensures DoorOk(states[i].mem) ==> DoorOk(states[i + 1].mem)
    ensures DoorClosed(states[i].mem) ==> DoorClosed(states[i + 1].mem)
  {
    assert EventAt(states, events, i);
    if DoorOk(states[i].mem) {
      DoorStep(states[i], events[i]);
    }
    if DoorClosed(states[i].mem) {
      ClosedStep(states[i], events[i]);
    }
  }

  /** A process that puts the next process struct in place always finds the place empty. */
  lemma PreallocFindsNone(g: Grant, states: seq<Sys>, events: seq<Event>, k: nat)
    requires IsBootRun(g, states, events) && k < |events| && events[k].Prealloc?
    ensures !states[k].mem.prealloc
  {
    ReachableDoor(g, states, events, k);
    assert EventAt(states, events, k);
  }

  /** Nobody holds a process struct ready and nobody is about to. */
  ghost predicate DoorClosed(mem: Mem) {
    !mem.prealloc && mem.newcomers == {}
  }

  lemma ClosedStep(s: Sys, e: Event)
    requires DoorClosed(s.mem) && Can(s, e)
    ensures DoorClosed(Next(s, e).mem)
  {
    match e
    case Log(l) =>
    case _ =>
  }

  lemma {:induction false} ClosedStays(g: Grant, states: seq<Sys>, events: seq<Event>, j: nat, k: nat)
    requires IsBootRun(g, states, events) && j <= k < |states| && DoorClosed(states[j].mem)
    ensures DoorClosed(states[k].mem)
  {
    if j < k {
      ClosedStays(g, states, events, j, k - 1);
      RunDoorStep(states, events, k - 1);
    }
  }

  /** Once the door is closed nobody ever joins, or is refused, again. */
  lemma ClosedForever(g: Grant, states: seq<Sys>, events: seq<Event>, j: nat, k: nat)
    requires IsBootRun(g, states, events) && j <= k < |states| && DoorClosed(states[j].mem)
    ensures forall p, private :: !Can(states[k], JoinAt(p, private))
    ensures !Can(states[k], Log(JoinRefused))
  {
    ClosedStays(g, states, events, j, k);
  }

  lemma RootTakenExactly(g: Grant, mem: Mem, private: set<nat>)
    requires GoodGrant(g) && RootFirst(g, mem) && Known(mem.regs, mem.active)
    ensures RootTaken(mem, private) <==> g.root / PAGE in private
  {
    assert forall pg :: InPages(g.root, PAGE, pg) <==> pg == g.root / PAGE;
    assert StartSpace(private).Keys == private;
  }

  /** The effect of one failed join on the door. */
  lemma FailedJoinStep(s: Sys, private: set<nat>)
    requires DoorOk(s.mem) && Can(s, JoinFails(private)) && s.mem.prealloc
    ensures RootTaken(s.mem, private) ==> Next(s, JoinFails(private)) == s
    ensures !RootTaken(s.mem, private) <==> DoorClosed(Next(s, JoinFails(private)).mem)
  {
  }

  /** A join that fails while the door is open closes it for ever exactly if the joiner could map
      the root page: only then has it taken the one process struct. */
  lemma FailedJoinClosesTheDoor(g: Grant, states: seq<Sys>, events: seq<Event>, j: nat)
    requires IsBootRun(g, states, events) && j < |events| && events[j].JoinFails? && states[j].mem.prealloc
    ensures DoorClosed(states[j + 1].mem) <==> g.root / PAGE !in events[j].private
    ensures g.root / PAGE in events[j].private ==> states[j + 1] == states[j]
  {
    ReachableDoor(g, states, events, j);
    RootStays(g, states, events, j);
    assert EventAt(states, events, j);
    RootTakenExactly(g, states[j].mem, events[j].private);
    FailedJoinStep(states[j], events[j].private);
  }

  /** A join that is refused closes it too. */
  lemma RefusedJoinClosesTheDoor(g: Grant, states: seq<Sys>, events: seq<Event>, j: nat)
    requires IsBootRun(g, states, events) && j < |events| && events[j] == Log(JoinRefused)
    ensures states[j].mem.prealloc && DoorClosed(states[j + 1].mem)
  {
    ReachableDoor(g, states, events, j);
    assert EventAt(states, events, j);
  }

  /** The event takes the last chance away: a joiner that fails or is refused with the process struct
      in hand, or the departure of the process that owes the next one. */
  predicate Closes(s: Sys, e: Event) {
    match e
    case Log(JoinRefused) => true
    case Log(Depart(p)) => p in s.mem.newcomers
    case JoinFails(private) =>
      s.mem.prealloc && Known(s.mem.regs, s.mem.active) && |s.mem.active| > 0 && !RootTaken(s.mem, private)
    case _ => false
  }

  lemma ClosingStep(s: Sys, e: Event)
    requires DoorOk(s.mem) && Can(s, e)
    ensures DoorClosed(Next(s, e).mem) <==> DoorClosed(s.mem) || Closes(s, e)
  {
    match e
    case Log(l) => ClosingLabel(s, l);
    case _ =>
  }

  lemma ClosingLabel(s: Sys, l: Label)
    requires DoorOk(s.mem) && Can(s, Log(l))
    ensures DoorClosed(Next(s, Log(l)).mem) <==> DoorClosed(s.mem) || Closes(s, Log(l))
  {
    match l
    case Depart(p) =>
      assert s.mem.newcomers != {} && p !in s.mem.newcomers ==> s.mem.newcomers - {p} == s.mem.newcomers;
      assert p in s.mem.newcomers ==> s.mem.newcomers - {p} == {};
    case _ =>
  }

  lemma RunClosingStep(g: Grant, states: seq<Sys>, events: seq<Event>, i: nat)
    requires IsBootRun(g, states, events) && i < |events|
    ensures DoorClosed(states[i + 1].mem) <==> DoorClosed(states[i].mem) || Closes(states[i], events[i])
  {
    ReachableDoor(g, states, events, i);
    assert EventAt(states, events, i);
    ClosingStep(states[i], events[i]);
  }

  /** Nobody can join any more exactly if one of these has happened. */
  lemma {:induction false} DoorIsClosedExactly(g: Grant, states: seq<Sys>, events: seq<Event>, k: nat)
    requires IsBootRun(g, states, events) && k < |states|
    ensures DoorClosed(states[k].mem) <==> exists i :: 0 <= i < k && Closes(states[i], events[i])
  {
    if k == 0 {
      BootedDoor(g);
    } else {
      DoorIsClosedExactly(g, states, events, k - 1);
      RunClosingStep(g, states, events, k - 1);
    }
  }

  lemma BootedDoor(g: Grant)
    requires GoodGrant(g)
    ensures !DoorClosed(Booted(g).mem)
  {
    assert g.creator in Booted(g).mem.newcomers;
  }
}
