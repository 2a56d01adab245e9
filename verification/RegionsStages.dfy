/** How a run is put together from a schedule and what is known after each of its events. */
module RegionsStages {
  import opened Basics
  import opened CleanupLog
  import opened Regions
  import opened RegionsInvariant
  import opened RegionsBoot
  import opened RegionsLimits

  // ----- runs from schedules

  /** What holds of memory in every run. */
  ghost predicate Fit(s: Sys) {
    MemOk(s.mem) && SpacesOk(s) && PendOk(s)
  }

  /** What is known after `k` events is enough to carry out the next one. */
  ghost predicate Leads(es: seq<Event>, stage: (nat, Sys) -> bool, k: nat, s: Sys) {
    k < |es| && Fit(s) && stage(k, s) ==> Can(s, es[k]) && stage(k + 1, Next(s, es[k]))
  }

  ghost predicate AllLead(es: seq<Event>, stage: (nat, Sys) -> bool) {
    forall k: nat, s: Sys {:trigger Leads(es, stage, k, s)} :: Leads(es, stage, k, s)
  }

  /** The run after `k` events of the schedule. */
  ghost predicate PlayedTo(s: Sys, es: seq<Event>, states: seq<Sys>, k: nat) {
    && |states| == k + 1 && k <= |es| && states[0] == s && IsSysRun(states, es[..k])
  }

  lemma PlayOne(s: Sys, es: seq<Event>, states: seq<Sys>, k: nat) returns (longer: seq<Sys>)
    requires PlayedTo(s, es, states, k) && k < |es| && Can(states[k], es[k])
    ensures PlayedTo(s, es, longer, k + 1) && longer[k] == states[k] && longer[k + 1] == Next(states[k], es[k])
  {
    longer := states + [Next(states[k], es[k])];
    var done, before := es[..k + 1], es[..k];
    forall i | 0 <= i < k + 1 ensures EventAt(longer, done, i) {
      if i < k {
        assert EventAt(states, before, i);
      }
    }
  }

  lemma PlayedIsFit(s: Sys, es: seq<Event>, states: seq<Sys>, k: nat)
    requires PlayedTo(s, es, states, k) && InvAt([s], 0)
    ensures Fit(states[k])
  {
    assert [s][0] == s;
    assert InvAt(states, 0);
    EventsKeepInv(states, es[..k], k);
    assert InvAt(states, k);
  }

  lemma {:induction false} Play(s: Sys, es: seq<Event>, stage: (nat, Sys) -> bool, k: nat) returns (states: seq<Sys>)
    requires AllLead(es, stage) && stage(0, s) && k <= |es| && InvAt([s], 0)
    ensures PlayedTo(s, es, states, k) && stage(k, states[k])
    ensures k > 0 ==> stage(k - 1, states[k - 1])
  {
    if k == 0 {
      states := [s];
    } else {
      var shorter := Play(s, es, stage, k - 1);
      PlayedIsFit(s, es, shorter, k - 1);
      assert Leads(es, stage, k - 1, shorter[k - 1]);
      states := PlayOne(s, es, shorter, k - 1);
    }
  }

  lemma PlayAll(s: Sys, es: seq<Event>, stage: (nat, Sys) -> bool) returns (states: seq<Sys>)
    requires AllLead(es, stage) && stage(0, s) && InvAt([s], 0)
    ensures IsSysRun(states, es) && states[0] == s && stage(|es|, states[|es|])
    ensures |es| > 0 ==> stage(|es| - 1, states[|es| - 1])
  {
    states := Play(s, es, stage, |es|);
    assert es[..|es|] == es;
  }

  lemma BootedIsFit(g: Grant)
    requires GoodGrant(g)
    ensures InvAt([Booted(g)], 0)
  {
    BootedInv(g);
  }

  /** A schedule that can be carried out stage by stage is a run. */
  lemma PlayFromBoot(g: Grant, es: seq<Event>, stage: (nat, Sys) -> bool) returns (states: seq<Sys>)
    requires GoodGrant(g) && AllLead(es, stage) && stage(0, Booted(g))
    ensures IsBootRun(g, states, es) && stage(|es|, states[|es|])
    ensures |es| > 0 ==> stage(|es| - 1, states[|es| - 1])
  {
    BootedIsFit(g);
    states := PlayAll(Booted(g), es, stage);
  }

  // ----- the spot

  /** Everything happens on four pages, far from what sc_init has mapped. */
  const SPOT: nat := 1000

  predicate Around(pg: nat) {
    SPOT <= pg < SPOT + 4
  }

  function SpotRange(pages: nat): Range {
    Range(SPOT * PAGE, pages * PAGE)
  }

  lemma SpotPages(pages: nat)
    ensures forall pg: nat :: InPages(SPOT * PAGE, pages * PAGE, pg) <==> SPOT <= pg < SPOT + pages
  {
  }

  function SpotGrant(private: set<nat>): Grant {
    Grant(0, private, PAGE, 16 * PAGE, 8)
  }

  ghost predicate NearSpot(private: set<nat>) {
    forall pg :: pg in private ==> Around(pg)
  }

  lemma SpotGrantIsGood(private: set<nat>)
    requires NearSpot(private)
    ensures GoodGrant(SpotGrant(private))
  {
  }

  /** sc_import's test takes an empty region for one that overlaps. */
  ghost predicate NoneEmpty(mem: Mem) {
    forall id: Id :: id < |mem.regs| && id in mem.active ==> mem.regs[id].len > 0
  }

  /** Nothing around the spot is shared. */
  ghost predicate Unshared(mem: Mem) {
    forall pg :: Around(pg) ==> pg !in mem.owner
  }

  /** What a process has around the spot is private, and on exactly these pages. */
  ghost predicate HasOnly(space: Space, private: set<nat>) {
    && (forall pg :: Around(pg) && pg in space ==> pg in private)
    && (forall pg :: pg in private ==> pg in space && space[pg].Private?)
  }

  /** The creator alone. */
  ghost predicate Alone(s: Sys, private: set<nat>) {
    && |s.mem.free| == 5 && s.mem.half == {} && NoneEmpty(s.mem) && Unshared(s.mem)
    && s.log == Initial(0) && s.space.Keys == {0} && HasOnly(s.space[0], private)
  }

  lemma BootedElsewhere(g: Grant, pg: nat)
    requires GoodGrant(g) && !InPages(g.root, PAGE, pg) && !InPages(g.reserve, FIRST_RESERVE, pg)
    ensures pg !in Booted(g).mem.owner
    ensures pg in Booted(g).space[g.creator] <==> pg in g.private
    ensures pg in g.private ==> Booted(g).space[g.creator][pg].Private?
  {
  }

  lemma BootedAlone(private: set<nat>)
    requires NearSpot(private)
    ensures GoodGrant(SpotGrant(private)) && Alone(Booted(SpotGrant(private)), private)
    ensures !Booted(SpotGrant(private)).mem.prealloc && Booted(SpotGrant(private)).mem.newcomers == {0}
  {
    var g := SpotGrant(private);
    SpotGrantIsGood(private);
    forall pg | Around(pg)
      ensures pg !in Booted(g).mem.owner && (pg in Booted(g).space[0] <==> pg in private)
      ensures pg in private ==> Booted(g).space[0][pg].Private?
    {
      BootedElsewhere(g, pg);
    }
    Appended(Formatted(g), 2);
  }

  lemma PreallocAlone(s: Sys, private: set<nat>)
    requires Listed(s.mem) && Alone(s, private) && s.mem.newcomers == {0}
    ensures var t := Next(s, Prealloc(0));
      Can(s, Prealloc(0)) && Alone(t, private) && t.mem.prealloc && t.mem.newcomers == {}
  {
  }

  // ----- joining at the spot

  lemma JoinKeepsOwn(mem: Mem, own: set<nat>, pg: nat)
    requires Listed(mem) && JoinSpace(mem, own).Some? && pg in own
    ensures pg in JoinSpace(mem, own).value && JoinSpace(mem, own).value[pg] == Private
  {
    var start := StartSpace(own);
    MapAllKeeps(start, mem.regs, mem.active, pg);
    MapAllKeeps(MapAll(start, mem.regs, mem.active).value, mem.regs, mem.reserved, pg);
  }

  lemma JoinAddsListed(mem: Mem, own: set<nat>, pg: nat) returns (id: Id)
    requires Listed(mem) && JoinSpace(mem, own).Some? && pg in JoinSpace(mem, own).value && pg !in own
    ensures Listing(mem, id, pg)
  {
    var start := StartSpace(own);
    var mid := MapAll(start, mem.regs, mem.active).value;
    if pg in mid {
      MapAllOnly(start, mem.regs, mem.active, pg);
      var i :| 0 <= i < |mem.active| && Covers(mem.regs[mem.active[i]], pg);
      id := mem.active[i];
    } else {
      MapAllOnly(mid, mem.regs, mem.reserved, pg);
      var i :| 0 <= i < |mem.reserved| && Covers(mem.regs[mem.reserved[i]], pg);
      id := mem.reserved[i];
    }
  }

  /** A process that joins with these private pages has nothing else around the spot. */
  lemma JoinHasOnly(mem: Mem, own: set<nat>)
    requires MemOk(mem) && mem.half == {} && Unshared(mem) && NearSpot(own)
    ensures JoinSpace(mem, own).Some? && HasOnly(JoinSpace(mem, own).value, own)
  {
    OwnersDisjoint(mem);
    forall id: Id, pg: nat | Listing(mem, id, pg) ensures pg in mem.owner && !Around(pg) {
      assert InUse(mem, id);
    }
    assert ClearOfAll(mem, own);
    JoinFailsOnlyOnConflict(mem, own);
    var space := JoinSpace(mem, own).value;
    forall pg | Around(pg) && pg in space ensures pg in own {
      if pg !in own {
        var id := JoinAddsListed(mem, own, pg);
      }
    }
    forall pg | pg in own ensures pg in space && space[pg].Private? {
      JoinKeepsOwn(mem, own, pg);
    }
  }

  // ----- importing at the spot

  lemma NoOverlapWith(mem: Mem, pages: nat, id: Id)
    requires Owns(mem) && RegionsOk(mem) && id < |mem.regs| && id in mem.active && InUse(mem, id)
    requires mem.regs[id].len > 0 && 0 < pages <= 4 && Unshared(mem)
    ensures !(SPOT * PAGE < mem.regs[id].vaddr + mem.regs[id].len &&
              mem.regs[id].vaddr < SPOT * PAGE + pages * PAGE)
  {
    var r := mem.regs[id];
    var common := if r.vaddr < SPOT * PAGE then SPOT * PAGE else r.vaddr;
    InRegion(r, common);
    if Around(common / PAGE) {
      assert common / PAGE !in mem.owner;
      assert !Covers(mem.regs[id], common / PAGE);
    }
  }

  lemma NoOverlap(mem: Mem, pages: nat)
    requires MemOk(mem) && mem.half == {} && NoneEmpty(mem) && Unshared(mem) && 0 < pages <= 4
    ensures !OverlapsActive(mem, SPOT * PAGE, pages * PAGE)
  {
    forall id: Id | id in mem.active && id < |mem.regs|
      ensures !(SPOT * PAGE < mem.regs[id].vaddr + mem.regs[id].len &&
                mem.regs[id].vaddr < SPOT * PAGE + pages * PAGE)
    {
      NoOverlapWith(mem, pages, id);
    }
  }

  /** Region `id` is half-imported and has these pages of the spot. */
  ghost predicate HalfSpot(mem: Mem, id: Id, pages: nat) {
    && mem.half == {id} && id < |mem.regs| && id in mem.active && Unshared(mem)
    && mem.regs[id].vaddr == SPOT * PAGE && mem.regs[id].len == pages * PAGE
    && mem.regs[id].prot == ProtRW && mem.regs[id].offset.Some?
  }

  lemma HalfImportLists(mem: Mem, pages: nat)
    requires MemOk(mem) && mem.half == {} && Unshared(mem) && HasFreeRegion(mem) && pages > 0
    ensures var m := DoImport(mem, SPOT * PAGE, pages * PAGE, ProtRW, NotExtended);
      && HalfSpot(m, mem.free[0], pages) && m.regs[mem.free[0]].offset.value >= m.fileLen
      && |m.free| == |mem.free| - 1
  {
    Appended(mem, mem.free[0]);
  }

  lemma HalfIsDisjoint(mem: Mem, id: Id, pages: nat)
    requires MemOk(mem) && HalfSpot(mem, id, pages) && pages <= 4
    ensures DisjointIn(mem)
  {
    SpotPages(pages);
    forall a: Id, b: Id, pg: nat | Listing(mem, a, pg) && Listing(mem, b, pg) ensures a == b {
      assert a != id ==> InUse(mem, a) && pg in mem.owner && mem.owner[pg] == a;
      assert b != id ==> InUse(mem, b) && pg in mem.owner && mem.owner[pg] == b;
    }
  }

  /** The handler finds the half-imported region where nothing is active besides it. */
  lemma HandlerFindsHalf(mem: Mem, id: Id, vaddr: nat)
    requires MemOk(mem) && mem.half == {id} && id < |mem.regs| && id in mem.active && InRange(mem.regs[id], vaddr)
    requires vaddr / PAGE in mem.owner ==> mem.owner[vaddr / PAGE] !in mem.active
    ensures Find(mem.regs, mem.active, vaddr) == Some(id)
  {
    var found := Find(mem.regs, mem.active, vaddr);
    assert found.Some?;
    InRegion(mem.regs[found.value], vaddr);
    OwnedOrHalf(mem, found.value, vaddr / PAGE);
  }

  lemma OwnedOrHalf(mem: Mem, id: Id, pg: nat)
    requires Owns(mem) && Listing(mem, id, pg)
    ensures id in mem.half || (pg in mem.owner && mem.owner[pg] == id)
  {
  }
}
