/** The subcontext as sc_init leaves it. */
module RegionsBoot {
  import opened Basics
  import opened CleanupLog
  import opened Regions
  import opened RegionsInvariant
  import CT = CleanupLogTheorems

  // ----- the creator

  lemma FormattedLists(g: Grant)
    requires GoodGrant(g)
    ensures var m := Formatted(g);
      && Listed(m) && BagOk(m) && m.tail == |m.active| - 1 && HasFreeRegion(m)
      && m.reserved == [1] && |m.free| == g.structs - 2
  {
    var m := Formatted(g);
    FreeBag(g.structs - 2, m.free);
    assert multiset(m.active) == multiset{0} && multiset(m.reserved) == multiset{1};
  }

  lemma {:induction false} FreeBag(n: nat, free: seq<Id>)
    requires |free| == n && forall i :: 0 <= i < n ==> free[i] == i + 2
    ensures forall id: Id :: multiset(free)[id] == if 2 <= id < n + 2 then 1 else 0
  {
    if n > 0 {
      FreeBag(n - 1, free[..n - 1]);
      assert free == free[..n - 1] + [n + 1];
    }
  }

  /** One list node more and the freshly formatted root struct is in order. */
  lemma BootedLists(g: Grant)
    requires GoodGrant(g)
    ensures ListsOk(DoMmap(Formatted(g), PAGE, ProtRW))
  {
    var mem := Formatted(g);
    FormattedLists(g);
    var m := DoMmap(mem, PAGE, ProtRW);
    Appended(mem, mem.free[0]);
    TakeFree(mem);
    assert Bag(m) == Bag(mem);
    assert Known(m.regs, m.active) && Known(m.regs, m.free);
  }

  lemma FormattedOwner(g: Grant)
    requires GoodGrant(g)
    ensures OwnerOk(Formatted(g))
  {
    var m := Formatted(g);
    assert forall pg :: InPages(g.root, PAGE, pg) ==> pg in PagesOf(g.root, PAGE);
    assert forall pg :: InPages(g.reserve, FIRST_RESERVE, pg) ==> pg in PagesOf(g.reserve, FIRST_RESERVE);
  }

  lemma BootedRegions(g: Grant)
    requires GoodGrant(g)
    ensures RegionsOk(Booted(g).mem)
  {
    Appended(Formatted(g), 2);
    assert Booted(g).mem.active == [0, 2] && Booted(g).mem.reserved == [1];
  }

  lemma BootedFiles(g: Grant)
    requires GoodGrant(g)
    ensures FilesOk(Booted(g).mem)
  {
    Appended(Formatted(g), 2);
    assert Booted(g).mem.active == [0, 2];
  }

  /** The first malloc moves one page from the reserved range into use. */
  lemma BootMoves(g: Grant)
    requires GoodGrant(g)
    ensures Moves(Formatted(g), Booted(g).mem, 2, 1, PAGE)
  {
    Appended(Formatted(g), 2);
  }

  lemma BootedMem(g: Grant)
    requires GoodGrant(g)
    ensures MemOk(Booted(g).mem)
  {
    var mem, m := Formatted(g), Booted(g).mem;
    BootedLists(g);
    BootedRegions(g);
    BootedFiles(g);
    FormattedOwner(g);
    BootMoves(g);
    MoveOwns(mem, m, 2, 1, PAGE);
    MoveOwned(mem, m, 2, 1, PAGE);
  }

  lemma FormattedSpace(g: Grant)
    requires GoodGrant(g)
    ensures var space := Booted(g).space[g.creator];
      Agrees(Formatted(g).owner, space) && Translates(Formatted(g), space)
  {
    var mem, space := Formatted(g), Booted(g).space[g.creator];
    forall pg | pg in space && space[pg].File?
      ensures pg in mem.owner && mem.owner[pg] == 0
    {
      assert InPages(g.root, PAGE, pg);
    }
  }

  lemma BootedSpace(g: Grant)
    requires GoodGrant(g)
    ensures SpacesOk(Booted(g))
  {
    FormattedOwner(g);
    FormattedSpace(g);
    BootMoves(g);
    MoveOwned(Formatted(g), Booted(g).mem, 2, 1, PAGE);
    MoveKeepsSpace(Formatted(g), Booted(g).mem, 2, 1, PAGE, Booted(g).space[g.creator]);
  }

  lemma BootedInv(g: Grant)
    requires GoodGrant(g)
    ensures Inv(Booted(g))
  {
    BootedMem(g);
    BootedSpace(g);
    CT.InitialInv(g.creator);
  }

  // ----- runs

  /** A run from a freshly initialised subcontext. */
  ghost predicate IsBootRun(g: Grant, states: seq<Sys>, events: seq<Event>) {
    GoodGrant(g) && IsSysRun(states, events) && states[0] == Booted(g)
  }

  ghost predicate InvAt(states: seq<Sys>, i: int) {
    0 <= i < |states| && Inv(states[i])
  }

  ghost predicate InvUpTo(states: seq<Sys>, k: nat) {
    forall i {:trigger InvAt(states, i)} :: 0 <= i <= k ==> InvAt(states, i)
  }

  lemma OneEvent(states: seq<Sys>, events: seq<Event>, k: nat)
    requires IsSysRun(states, events) && k < |events| && InvUpTo(states, k)
    ensures InvUpTo(states, k + 1)
  {
    assert InvAt(states, k) && EventAt(states, events, k);
    EventKeepsInv(states[k], events[k]);
    assert InvAt(states, k + 1);
  }

  lemma {:induction false} EventsKeepInv(states: seq<Sys>, events: seq<Event>, k: nat)
    requires IsSysRun(states, events) && k < |states| && InvUpTo(states, 0)
    ensures InvUpTo(states, k)
  {
    if k > 0 {
      EventsKeepInv(states, events, k - 1);
      OneEvent(states, events, k - 1);
    }
  }

  lemma ReachableInv(g: Grant, states: seq<Sys>, events: seq<Event>, k: nat)
    requires IsBootRun(g, states, events) && k < |states|
    ensures Inv(states[k])
  {
    BootedInv(g);
    assert InvAt(states, 0);
    EventsKeepInv(states, events, k);
    assert InvAt(states, k);
  }
}
