/** What every event keeps true of the regions and of all address spaces. */
module RegionsInvariant {
  import opened Basics
  import opened CleanupLog
  import opened Regions
  import CI = CleanupLogInvariant

  // ----- the parts of the invariant

  /** All region structs, with multiplicity, wherever they are. */
  function Bag(mem: Mem): multiset<Id> {
    multiset(mem.active) + multiset(mem.reserved) + multiset(mem.free) + mem.leaked +
    (if mem.pending.Some? then multiset{mem.pending.value} else multiset{})
  }

  /** Every struct is in exactly one place. */
  ghost predicate BagOk(mem: Mem) {
    forall id: Id :: Bag(mem)[id] == if id < |mem.regs| then 1 else 0
  }

  ghost predicate ListsOk(mem: Mem) {
    && Listed(mem) && BagOk(mem)
    && mem.tail == |mem.active| - 1 && |mem.active| >= 2
    && |mem.reserved| >= 1 && |mem.free| >= 1
  }

  predicate OnList(mem: Mem, id: Id) {
    id in mem.active || id in mem.reserved
  }

  /** On a list, and not left there by a half-done import. */
  predicate InUse(mem: Mem, id: Id) {
    OnList(mem, id) && id !in mem.half
  }

  /** The observer `owner` is what the two lists say. */
  ghost predicate OwnerOk(mem: Mem) {
    Owns(mem) && Owned(mem)
  }

  ghost predicate Owns(mem: Mem) {
    forall id: Id, pg: nat :: id < |mem.regs| && InUse(mem, id) && Covers(mem.regs[id], pg) ==>
      pg in mem.owner && mem.owner[pg] == id
  }

  ghost predicate Owned(mem: Mem) {
    forall pg :: pg in mem.owner ==>
      && mem.owner[pg] < |mem.regs| && InUse(mem, mem.owner[pg])
      && Covers(mem.regs[mem.owner[pg]], pg)
  }

  ghost predicate RegionOk(r: Region) {
    Aligned(r.vaddr) && Aligned(r.len)
  }

  ghost predicate RegionsOk(mem: Mem) {
    && (forall id :: id < |mem.regs| && id in mem.active ==>
          RegionOk(mem.regs[id]) && (mem.regs[id].prot.ProtNone? <==> mem.regs[id].offset.None?))
    && (forall id :: id < |mem.regs| && id in mem.reserved ==>
          RegionOk(mem.regs[id]) && mem.regs[id].offset.None?)
  }

  predicate FileBacked(mem: Mem, id: Id) {
    id < |mem.regs| && id in mem.active && mem.regs[id].offset.Some?
  }

  /** File extents are aligned, inside the recorded size, and disjoint; unless their import was
      left half done they are inside the real file. */
  ghost predicate FilesOk(mem: Mem) {
    && Aligned(mem.tmpfileSize) && mem.fileLen <= mem.tmpfileSize
    && (forall id: Id :: FileBacked(mem, id) ==>
          && Aligned(mem.regs[id].offset.value)
          && mem.regs[id].offset.value + mem.regs[id].len <= mem.tmpfileSize
          && (id !in mem.half && mem.regs[id].len > 0 ==>
                mem.regs[id].offset.value + mem.regs[id].len <= mem.fileLen))
    && (forall a: Id, b: Id :: FileBacked(mem, a) && FileBacked(mem, b) && a != b ==>
          || mem.regs[a].offset.value + mem.regs[a].len <= mem.regs[b].offset.value
          || mem.regs[b].offset.value + mem.regs[b].len <= mem.regs[a].offset.value)
  }

  /** Region `id` was left half done and claims the page. */
  predicate Claims(mem: Mem, id: Id, pg: nat) {
    id in mem.half && id < |mem.regs| && Covers(mem.regs[id], pg)
  }

  /** No half-imported region covers the page. */
  ghost predicate Unclaimed(mem: Mem, pg: nat) {
    forall id :: !Claims(mem, id, pg)
  }

  /** The observers `half` and `murk` are what half-done imports left behind. */
  ghost predicate HalfOk(mem: Mem) {
    && (forall id :: id in mem.half ==> id < |mem.regs| && id in mem.active)
    && (forall id, pg :: Claims(mem, id, pg) ==> pg in mem.murk)
    && (forall pg :: pg in mem.murk ==> exists id :: Claims(mem, id, pg))
  }

  /** Every shared page is held, and nothing private sits on it. */
  ghost predicate Agrees(owner: map<nat, Id>, space: Space) {
    forall pg :: pg in owner ==> pg in space && !space[pg].Private?
  }

  /** Every page that shows the backing file shows the place its region says, unless a half-done
      import claims it. */
  ghost predicate Translates(mem: Mem, space: Space) {
    forall pg :: pg in space && space[pg].File? && pg !in mem.murk ==>
      && pg in mem.owner && FileBacked(mem, mem.owner[pg])
      && Covers(mem.regs[mem.owner[pg]], pg)
      && space[pg].offset == FileOffset(mem.regs[mem.owner[pg]], pg)
  }

  ghost predicate SpacesOk(s: Sys) {
    && s.space.Keys == s.log.procs.Keys
    && forall p :: p in s.space ==> Agrees(s.mem.owner, s.space[p]) && Translates(s.mem, s.space[p])
  }

  /** The range is held by the space and belongs to no region in use. */
  ghost predicate HeldApart(owner: map<nat, Id>, space: Space, r: Range) {
    forall pg :: InPages(r.vaddr, r.len, pg) ==> pg in space && !space[pg].Private? && pg !in owner
  }

  ghost predicate PendOk(s: Sys) {
    && (s.log.pending.Some? <==> s.mem.pending.Some?)
    && (s.mem.pending.Some? && s.log.pending.Some? ==>
          && s.mem.pending.value < |s.mem.regs|
          && s.mem.regs[s.mem.pending.value] ==
             Region(s.log.pending.value.vaddr, s.log.pending.value.len, ProtNone, None)
          && Aligned(s.log.pending.value.vaddr) && Aligned(s.log.pending.value.len)
          && forall p :: p in s.space && p in s.log.procs && s.log.procs[p].flush >= s.log.obs.reserveSeq ==>
               HeldApart(s.mem.owner, s.space[p], s.log.pending.value))
  }

  /** All but the lists themselves. */
  ghost predicate ContentOk(mem: Mem) {
    OwnerOk(mem) && RegionsOk(mem) && FilesOk(mem) && HalfOk(mem)
  }

  ghost predicate MemOk(mem: Mem) {
    ListsOk(mem) && ContentOk(mem)
  }

  ghost predicate Inv(s: Sys) {
    CI.Inv(s.log) && MemOk(s.mem) && SpacesOk(s) && PendOk(s)
  }

  // ----- structs

  lemma OnePlace(mem: Mem, id: Id)
    requires BagOk(mem)
    ensures id in mem.active ==> id !in mem.reserved && id !in mem.free && mem.pending != Some(id)
    ensures id in mem.reserved ==> id !in mem.free && mem.pending != Some(id)
    ensures id in mem.free ==> mem.pending != Some(id)
  {
    assert Bag(mem)[id] <= 1;
    assert id in mem.active ==> multiset(mem.active)[id] >= 1;
    assert id in mem.reserved ==> multiset(mem.reserved)[id] >= 1;
    assert id in mem.free ==> multiset(mem.free)[id] >= 1;
  }

  lemma TakeFree(mem: Mem)
    requires |mem.free| > 0
    ensures multiset(mem.free) == multiset{mem.free[0]} + multiset(mem.free[1..])
  {
    assert mem.free == [mem.free[0]] + mem.free[1..];
  }

  /** The struct that is about to be used is on the free list and nowhere else. */
  lemma FreeIsUnused(mem: Mem)
    requires ListsOk(mem)
    ensures mem.free[0] < |mem.regs| && !OnList(mem, mem.free[0]) && mem.pending != Some(mem.free[0])
  {
    assert mem.free[0] in mem.free;
    OnePlace(mem, mem.free[0]);
  }

  lemma Appended(mem: Mem, id: Id)
    requires mem.tail == |mem.active| - 1
    ensures AppendActive(mem, id).active == mem.active + [id]
  {
    assert mem.active[..mem.tail + 1] == mem.active;
  }

  lemma Inserted(mem: Mem, id: Id)
    requires |mem.active| > 0
    ensures var active := InsertAfterHead(mem, id).active;
      multiset(active) == multiset(mem.active) + multiset{id}
      && forall x :: x in active <==> x in mem.active || x == id
  {
    assert mem.active == [mem.active[0]] + mem.active[1..];
    var active := InsertAfterHead(mem, id).active;
    assert active == [mem.active[0]] + [id] + mem.active[1..];
    forall x ensures x in active <==> x in mem.active || x == id {
      assert x in active <==> multiset(active)[x] > 0;
    }
  }

  // ----- what does not touch the regions on the lists

  ghost predicate SameListed(mem: Mem, m: Mem) {
    && m.active == mem.active && m.reserved == mem.reserved && |m.regs| == |mem.regs|
    && (forall id: Id :: id < |mem.regs| && OnList(mem, id) ==> m.regs[id] == mem.regs[id])
    && m.owner == mem.owner && m.half == mem.half && m.murk == mem.murk
    && m.fileLen == mem.fileLen && mem.tmpfileSize <= m.tmpfileSize && Aligned(m.tmpfileSize)
  }

  /** Half-done imports stay what they are while active regions do. */
  lemma HalfStays(mem: Mem, m: Mem)
    requires HalfOk(mem) && m.half == mem.half && m.murk == mem.murk && |m.regs| == |mem.regs|
    requires forall id: Id :: id < |mem.regs| && id in mem.active ==> id in m.active && m.regs[id] == mem.regs[id]
    ensures HalfOk(m)
  {
    forall id, pg: nat | Claims(m, id, pg) ensures pg in m.murk {
      assert id in mem.active && Claims(mem, id, pg);
    }
    forall pg | pg in m.murk ensures exists id :: Claims(m, id, pg) {
      var id :| Claims(mem, id, pg);
      assert id in mem.active && Claims(m, id, pg);
    }
  }

  lemma SameListedKeepsContent(mem: Mem, m: Mem)
    requires ContentOk(mem) && SameListed(mem, m)
    ensures ContentOk(m)
  {
    HalfStays(mem, m);
    assert forall id: Id :: FileBacked(m, id) <==> FileBacked(mem, id);
    assert forall id: Id :: InUse(m, id) <==> InUse(mem, id);
  }

  lemma SameListedTranslates(mem: Mem, m: Mem, space: Space)
    requires OwnerOk(mem) && SameListed(mem, m) && Translates(mem, space)
    ensures Translates(m, space)
  {
    assert forall id: Id :: FileBacked(m, id) <==> FileBacked(mem, id);
  }

  /** Address spaces stay as they are. */
  lemma SameListedKeepsSpaces(s: Sys, t: Sys)
    requires OwnerOk(s.mem) && SpacesOk(s) && SameListed(s.mem, t.mem)
    requires t.space.Keys == t.log.procs.Keys && forall p :: p in t.space ==> p in s.space && t.space[p] == s.space[p]
    ensures SpacesOk(t)
  {
    forall p | p in t.space ensures Translates(t.mem, t.space[p]) {
      SameListedTranslates(s.mem, t.mem, s.space[p]);
    }
  }

  // ----- sc_mmap

  ghost predicate MmapReady(mem: Mem, len: nat, prot: Prot) {
    && MemOk(mem) && HasFreeRegion(mem)
    && len > 0 && Aligned(len) && (prot.ProtR? || prot.ProtRW?)
    && mem.regs[mem.reserved[0]].len > len
  }

  /** `m` is `mem` with the first `len` bytes of `from` moved to the new active region `id`. */
  ghost predicate Moves(mem: Mem, m: Mem, id: Id, from: Id, len: nat) {
    && id != from && !OnList(mem, id) && from in mem.reserved && from !in mem.active
    && m.half == mem.half && m.murk == mem.murk && id !in mem.half && from !in mem.half
    && id < |mem.regs| && from < |mem.regs| && |m.regs| == |mem.regs|
    && len < mem.regs[from].len
    && m.regs[id].vaddr == mem.regs[from].vaddr && m.regs[id].len == len
    && m.regs[from] == mem.regs[from].(vaddr := mem.regs[from].vaddr + len, len := mem.regs[from].len - len)
    && (forall x: Id :: x < |mem.regs| && x != id && x != from ==> m.regs[x] == mem.regs[x])
    && m.active == mem.active + [id] && m.reserved == mem.reserved
    && (forall pg :: pg in m.owner <==> pg in mem.owner || InPages(mem.regs[from].vaddr, len, pg))
    && (forall pg :: pg in m.owner ==>
          m.owner[pg] == if InPages(mem.regs[from].vaddr, len, pg) then id else mem.owner[pg])
  }

  lemma MmapMoves(mem: Mem, len: nat, prot: Prot)
    requires MmapReady(mem, len, prot)
    ensures Moves(mem, DoMmap(mem, len, prot), mem.free[0], mem.reserved[0], len)
    ensures DoMmap(mem, len, prot).regs[mem.free[0]] ==
            Region(mem.regs[mem.reserved[0]].vaddr, len, prot, Some(mem.tmpfileSize))
  {
    Appended(mem, mem.free[0]);
    FreeIsUnused(mem);
    NotHalf(mem, mem.free[0]);
    NotHalf(mem, mem.reserved[0]);
  }

  /** Half-done imports are on the active list. */
  lemma NotHalf(mem: Mem, id: Id)
    requires ListsOk(mem) && HalfOk(mem) && (id in mem.free || id in mem.reserved || mem.pending == Some(id))
    ensures id !in mem.half && id !in mem.active
  {
    OnePlace(mem, id);
    assert id in mem.half ==> id in mem.active;
  }

  lemma MmapKeepsLists(mem: Mem, len: nat, prot: Prot)
    requires MmapReady(mem, len, prot)
    ensures ListsOk(DoMmap(mem, len, prot))
  {
    Appended(mem, mem.free[0]);
    TakeFree(mem);
    var m := DoMmap(mem, len, prot);
    assert Bag(m) == Bag(mem);
    assert Known(m.regs, m.active) && Known(m.regs, m.free);
  }

  /** Cutting a range in two splits its pages. */
  lemma SplitPages(vaddr: nat, len: nat, rest: nat, pg: nat)
    ensures InPages(vaddr, len + rest, pg) <==> InPages(vaddr, len, pg) || InPages(vaddr + len, rest, pg)
    ensures !(InPages(vaddr, len, pg) && InPages(vaddr + len, rest, pg))
  {
  }

  lemma MoveOwnsPage(mem: Mem, m: Mem, id: Id, from: Id, len: nat, x: Id, pg: nat)
    requires Owns(mem) && Moves(mem, m, id, from, len)
    requires x < |m.regs| && InUse(m, x) && Covers(m.regs[x], pg)
    ensures pg in m.owner && m.owner[pg] == x
  {
    var base := mem.regs[from];
    SplitPages(base.vaddr, len, base.len - len, pg);
    if x == id {
      assert InPages(base.vaddr, len, pg);
    } else if x == from {
      assert InUse(mem, from) && Covers(base, pg) && !InPages(base.vaddr, len, pg);
    } else {
      assert InUse(mem, x) && Covers(mem.regs[x], pg) && mem.owner[pg] == x;
      if InPages(base.vaddr, len, pg) {
        OneOwner(mem, x, from, pg);
      }
    }
  }

  lemma OneOwner(mem: Mem, x: Id, y: Id, pg: nat)
    requires Owns(mem) && x < |mem.regs| && y < |mem.regs| && InUse(mem, x) && InUse(mem, y)
    requires Covers(mem.regs[x], pg) && Covers(mem.regs[y], pg)
    ensures x == y
  {
    assert mem.owner[pg] == x;
  }

  lemma MoveOwns(mem: Mem, m: Mem, id: Id, from: Id, len: nat)
    requires Owns(mem) && Moves(mem, m, id, from, len)
    ensures Owns(m)
  {
    forall x: Id, pg: nat | x < |m.regs| && InUse(m, x) && Covers(m.regs[x], pg)
      ensures pg in m.owner && m.owner[pg] == x
    {
      MoveOwnsPage(mem, m, id, from, len, x, pg);
    }
  }

  lemma MoveOwned(mem: Mem, m: Mem, id: Id, from: Id, len: nat)
    requires OwnerOk(mem) && Moves(mem, m, id, from, len)
    ensures Owned(m) && m.owner.Keys == mem.owner.Keys
  {
    var base := mem.regs[from];
    forall pg: nat | pg in m.owner
      ensures pg in mem.owner
      ensures m.owner[pg] < |m.regs| && InUse(m, m.owner[pg]) && Covers(m.regs[m.owner[pg]], pg)
    {
      SplitPages(base.vaddr, len, base.len - len, pg);
      if InPages(base.vaddr, len, pg) {
        assert Covers(base, pg);
      }
    }
  }

  lemma MoveKeepsRegions(mem: Mem, m: Mem, id: Id, from: Id, len: nat)
    requires RegionsOk(mem) && Moves(mem, m, id, from, len) && Aligned(len)
    requires m.regs[id].offset.Some? && !m.regs[id].prot.ProtNone?
    ensures RegionsOk(m)
  {
    assert RegionOk(mem.regs[from]);
  }

  lemma MoveKeepsFiles(mem: Mem, m: Mem, id: Id, from: Id, len: nat)
    requires FilesOk(mem) && Moves(mem, m, id, from, len) && Aligned(len)
    requires m.regs[id].offset == Some(mem.tmpfileSize) && m.tmpfileSize == m.fileLen == mem.tmpfileSize + len
    ensures FilesOk(m)
  {
    assert forall x: Id :: FileBacked(m, x) && x != id ==> FileBacked(mem, x) && m.regs[x] == mem.regs[x];
  }

  lemma MmapKeepsContent(mem: Mem, len: nat, prot: Prot)
    requires MmapReady(mem, len, prot)
    ensures ContentOk(DoMmap(mem, len, prot)) && DoMmap(mem, len, prot).owner.Keys == mem.owner.Keys
  {
    var m, id, from := DoMmap(mem, len, prot), mem.free[0], mem.reserved[0];
    MmapMoves(mem, len, prot);
    MoveOwns(mem, m, id, from, len);
    MoveOwned(mem, m, id, from, len);
    MoveKeepsRegions(mem, m, id, from, len);
    MoveKeepsFiles(mem, m, id, from, len);
    HalfStays(mem, m);
  }

  /** No process has mapped the moved pages from the file yet, so no translation changes. */
  lemma MoveKeepsSpace(mem: Mem, m: Mem, id: Id, from: Id, len: nat, space: Space)
    requires OwnerOk(mem) && Moves(mem, m, id, from, len) && m.owner.Keys == mem.owner.Keys
    requires Agrees(mem.owner, space) && Translates(mem, space)
    ensures Agrees(m.owner, space) && Translates(m, space)
  {
    var base := mem.regs[from];
    forall pg | pg in space && space[pg].File? && pg !in mem.murk
      ensures pg in m.owner && m.owner[pg] == mem.owner[pg]
    {
      SplitPages(base.vaddr, len, base.len - len, pg);
      if InPages(base.vaddr, len, pg) {
        assert Covers(base, pg);
      }
    }
  }

  // ----- a range enters use

  /** `m` is `mem` with region `r`, whose pages nobody owned, put into use as `id`. */
  ghost predicate Adds(mem: Mem, m: Mem, id: Id, r: Region) {
    && |m.regs| == |mem.regs| && id < |m.regs| && m.regs[id] == r && !InUse(mem, id)
    && m.half == mem.half && m.murk == mem.murk && id !in mem.half
    && (forall x: Id :: x < |mem.regs| && x != id ==> m.regs[x] == mem.regs[x])
    && (forall x: Id :: InUse(m, x) <==> InUse(mem, x) || x == id)
    && (forall x: Id :: x in mem.active ==> x in m.active)
    && (forall pg :: pg in m.owner <==> pg in mem.owner || Covers(r, pg))
    && (forall pg :: pg in m.owner ==> m.owner[pg] == if Covers(r, pg) then id else mem.owner[pg])
    && (forall pg: nat :: pg in mem.owner ==> !Covers(r, pg))
  }

  lemma AddKeepsOwner(mem: Mem, m: Mem, id: Id, r: Region)
    requires OwnerOk(mem) && Adds(mem, m, id, r)
    ensures OwnerOk(m)
  {
    forall x: Id, pg: nat | x < |m.regs| && InUse(m, x) && Covers(m.regs[x], pg)
      ensures pg in m.owner && m.owner[pg] == x
    {
      if x != id {
        assert Covers(mem.regs[x], pg);
      }
    }
  }

  lemma AddKeepsTranslation(mem: Mem, m: Mem, id: Id, r: Region, space: Space)
    requires OwnerOk(mem) && Adds(mem, m, id, r) && Translates(mem, space)
    ensures Translates(m, space)
  {
    forall pg | pg in space && space[pg].File? && pg !in mem.murk
      ensures m.owner[pg] == mem.owner[pg] && m.regs[mem.owner[pg]] == mem.regs[mem.owner[pg]]
    {
    }
  }

  /** The process that brings the region in has mapped it. */
  lemma AddAgrees(mem: Mem, m: Mem, id: Id, r: Region, space: Space)
    requires OwnerOk(mem) && Adds(mem, m, id, r) && Agrees(mem.owner, space)
    requires forall pg: nat :: Covers(r, pg) ==> pg in space && !space[pg].Private?
    ensures Agrees(m.owner, space)
  {
  }

  // ----- placeholders and file maps

  /** Holding fresh pages disturbs nothing. */
  lemma HoldFresh(mem: Mem, space: Space, vaddr: nat, len: nat)
    requires Fresh(space, vaddr, len) && Agrees(mem.owner, space) && Translates(mem, space)
    ensures var space' := Hold(space, vaddr, len);
      && Agrees(mem.owner, space') && Translates(mem, space')
      && HeldApart(mem.owner, space', Range(vaddr, len))
      && forall pg :: pg in space ==> pg in space' && space'[pg] == space[pg]
  {
  }

  lemma HoldKeepsTranslation(mem: Mem, space: Space, vaddr: nat, len: nat)
    requires Translates(mem, space)
    ensures Translates(mem, Hold(space, vaddr, len))
    ensures Agrees(mem.owner, space) ==> Agrees(mem.owner, Hold(space, vaddr, len))
  {
  }

  /** Mapping a listed region shows its own pages and nothing else. */
  lemma MapListed(mem: Mem, space: Space, id: Id)
    requires OwnerOk(mem) && HalfOk(mem) && FileBacked(mem, id) && Translates(mem, space)
    ensures Translates(mem, MapRegion(space, mem.regs[id]))
    ensures Agrees(mem.owner, space) ==> Agrees(mem.owner, MapRegion(space, mem.regs[id]))
  {
    var space' := MapRegion(space, mem.regs[id]);
    forall pg | pg in space' && space'[pg].File? && pg !in mem.murk
      ensures && pg in mem.owner && FileBacked(mem, mem.owner[pg])
              && Covers(mem.regs[mem.owner[pg]], pg)
              && space'[pg].offset == FileOffset(mem.regs[mem.owner[pg]], pg)
    {
      if Covers(mem.regs[id], pg) {
        assert !Claims(mem, id, pg) && InUse(mem, id);
        assert mem.owner[pg] == id;
      }
    }
  }

  lemma {:induction false} MapAllKeeps(space: Space, regs: seq<Region>, ids: seq<Id>, pg: nat)
    requires Known(regs, ids) && MapAll(space, regs, ids).Some? && pg in space
    ensures pg in MapAll(space, regs, ids).value && MapAll(space, regs, ids).value[pg] == space[pg]
    decreases |ids|
  {
    if |ids| > 0 {
      MapAllKeeps(MapRegion(space, regs[ids[0]]), regs, ids[1..], pg);
    }
  }

  lemma {:induction false} MapAllCovers(space: Space, regs: seq<Region>, ids: seq<Id>, i: nat, pg: nat)
    requires Known(regs, ids) && MapAll(space, regs, ids).Some?
    requires i < |ids| && Covers(regs[ids[i]], pg)
    ensures pg in MapAll(space, regs, ids).value
    ensures MapAll(space, regs, ids).value[pg] == MappingOf(regs[ids[i]], pg)
    decreases |ids|
  {
    var next := MapRegion(space, regs[ids[0]]);
    if i == 0 {
      MapAllKeeps(next, regs, ids[1..], pg);
    } else {
      MapAllCovers(next, regs, ids[1..], i - 1, pg);
    }
  }

  lemma {:induction false} MapAllOnly(space: Space, regs: seq<Region>, ids: seq<Id>, pg: nat)
    requires Known(regs, ids) && MapAll(space, regs, ids).Some?
    requires pg in MapAll(space, regs, ids).value && pg !in space
    ensures exists i :: 0 <= i < |ids| && Covers(regs[ids[i]], pg)
    decreases |ids|
  {
    var next := MapRegion(space, regs[ids[0]]);
    if pg in next {
      assert Covers(regs[ids[0]], pg);
    } else {
      MapAllOnly(next, regs, ids[1..], pg);
      var i :| 0 <= i < |ids[1..]| && Covers(regs[ids[1..][i]], pg);
      assert Covers(regs[ids[i + 1]], pg);
    }
  }

  // ----- sc_import

  lemma SoleProcess(s: Sys, p: Pid)
    requires CI.Inv(s.log) && p in s.log.procs && s.log.procCount == 1
    ensures s.log.procs.Keys == {p}
  {
    CI.SubsetSize({p}, s.log.procs.Keys);
  }

  /** Private pages are no shared pages, and no pages that the process holds for a pending
      reservation. */
  lemma PrivateIsApart(owner: map<nat, Id>, space: Space, vaddr: nat, len: nat)
    requires AllPrivate(space, vaddr, len) && Agrees(owner, space)
    ensures forall pg: nat :: pg in owner ==> !InPages(vaddr, len, pg)
    ensures forall r: Range, pg: nat :: HeldApart(owner, space, r) && InPages(r.vaddr, r.len, pg) ==>
      !InPages(vaddr, len, pg)
  {
    forall pg: nat | InPages(vaddr, len, pg) ensures pg in space && space[pg].Private? {
      assert pg in PagesOf(vaddr, len);
    }
  }

  ghost predicate ImportReady(mem: Mem, vaddr: nat, len: nat) {
    && MemOk(mem) && HasFreeRegion(mem) && Aligned(vaddr) && Aligned(len)
    && forall pg: nat :: pg in mem.owner ==> !InPages(vaddr, len, pg)
  }

  lemma ImportAdds(mem: Mem, vaddr: nat, len: nat, prot: Prot, outcome: Outcome)
    requires ListsOk(mem) && HalfOk(mem) && HasFreeRegion(mem) && (outcome.Done? || len == 0)
    requires forall pg: nat :: pg in mem.owner ==> !InPages(vaddr, len, pg)
    ensures Adds(mem, DoImport(mem, vaddr, len, prot, outcome), mem.free[0],
                 Region(vaddr, len, prot, Some(mem.tmpfileSize)))
    ensures DoImport(mem, vaddr, len, prot, outcome).active == mem.active + [mem.free[0]]
  {
    var m, id := DoImport(mem, vaddr, len, prot, outcome), mem.free[0];
    Appended(mem, id);
    FreeIsUnused(mem);
    NotHalf(mem, id);
    ListedMore(mem, m, id);
    assert m.owner == Own(mem.owner, vaddr, len, id);
  }

  /** One more region on the active list is one more in use. */
  lemma ListedMore(mem: Mem, m: Mem, id: Id)
    requires m.half == mem.half && id !in mem.half && m.reserved == mem.reserved
    requires m.active == mem.active + [id]
    ensures forall x: Id :: InUse(m, x) <==> InUse(mem, x) || x == id
  {
  }

  lemma ImportKeepsLists(mem: Mem, vaddr: nat, len: nat, prot: Prot, outcome: Outcome)
    requires ListsOk(mem) && HasFreeRegion(mem)
    ensures ListsOk(DoImport(mem, vaddr, len, prot, outcome))
  {
    var m := DoImport(mem, vaddr, len, prot, outcome);
    Appended(mem, mem.free[0]);
    TakeFree(mem);
    assert Bag(m) == Bag(mem);
    assert Known(m.regs, m.active) && Known(m.regs, m.free);
  }

  lemma ImportKeepsFiles(mem: Mem, m: Mem, id: Id)
    requires RegionsOk(mem) && FilesOk(mem) && id < |mem.regs| && |m.regs| == |mem.regs|
    requires forall x: Id :: x < |mem.regs| && x != id ==> m.regs[x] == mem.regs[x]
    requires m.active == mem.active + [id] && m.reserved == mem.reserved && id !in mem.reserved
    requires RegionOk(m.regs[id]) && m.regs[id].offset == Some(mem.tmpfileSize) && !m.regs[id].prot.ProtNone?
    requires m.tmpfileSize == mem.tmpfileSize + m.regs[id].len && mem.half <= m.half
    requires m.fileLen == m.tmpfileSize || (m.fileLen == mem.fileLen && (id in m.half || m.regs[id].len == 0))
    ensures RegionsOk(m) && FilesOk(m)
  {
    assert forall x: Id :: FileBacked(m, x) && x != id ==> FileBacked(mem, x) && m.regs[x] == mem.regs[x];
  }

  lemma ImportKeepsMem(mem: Mem, vaddr: nat, len: nat, prot: Prot, outcome: Outcome)
    requires ImportReady(mem, vaddr, len) && !prot.ProtNone? && (outcome.Done? || len == 0)
    ensures MemOk(DoImport(mem, vaddr, len, prot, outcome))
  {
    var m, id := DoImport(mem, vaddr, len, prot, outcome), mem.free[0];
    ImportKeepsLists(mem, vaddr, len, prot, outcome);
    ImportAdds(mem, vaddr, len, prot, outcome);
    AddKeepsOwner(mem, m, id, m.regs[id]);
    FreeIsUnused(mem);
    ImportKeepsFiles(mem, m, id);
    HalfStays(mem, m);
  }

  /** What an import leaves behind that was not done. */
  ghost predicate LeavesHalf(mem: Mem, m: Mem, id: Id) {
    && id < |mem.regs| && |m.regs| == |mem.regs| && !OnList(mem, id) && id !in mem.half
    && (forall x: Id :: x < |mem.regs| && x != id ==> m.regs[x] == mem.regs[x])
    && (forall x: Id :: x in m.active <==> x in mem.active || x == id)
    && m.reserved == mem.reserved && m.owner == mem.owner
    && m.half == mem.half + {id} && m.murk == mem.murk + PagesOf(m.regs[id].vaddr, m.regs[id].len)
  }

  lemma ImportLeavesHalf(mem: Mem, vaddr: nat, len: nat, prot: Prot, outcome: Outcome)
    requires ListsOk(mem) && HalfOk(mem) && HasFreeRegion(mem) && len > 0 && !outcome.Done?
    ensures LeavesHalf(mem, DoImport(mem, vaddr, len, prot, outcome), mem.free[0])
  {
    Appended(mem, mem.free[0]);
    FreeIsUnused(mem);
    NotHalf(mem, mem.free[0]);
  }

  lemma HalfJoins(mem: Mem, m: Mem, id: Id)
    requires HalfOk(mem) && LeavesHalf(mem, m, id)
    ensures HalfOk(m)
  {
    var r := m.regs[id];
    forall x | x in m.half ensures x < |m.regs| && x in m.active {
      assert x != id ==> x in mem.active;
    }
    forall x, pg: nat | Claims(m, x, pg) ensures pg in m.murk {
      if x == id {
        assert pg in PagesOf(r.vaddr, r.len);
      } else {
        assert x in mem.active && Claims(mem, x, pg);
      }
    }
    forall pg | pg in m.murk ensures exists x :: Claims(m, x, pg) {
      if pg in mem.murk {
        var x :| Claims(mem, x, pg);
        assert x in mem.active && Claims(m, x, pg);
      } else {
        assert Claims(m, id, pg);
      }
    }
  }

  lemma HalfKeepsOwner(mem: Mem, m: Mem, id: Id)
    requires OwnerOk(mem) && LeavesHalf(mem, m, id)
    ensures OwnerOk(m)
  {
    assert forall x: Id :: InUse(m, x) <==> InUse(mem, x);
  }

  lemma HalfKeepsMem(mem: Mem, vaddr: nat, len: nat, prot: Prot, outcome: Outcome)
    requires MemOk(mem) && HasFreeRegion(mem) && Aligned(vaddr) && Aligned(len) && len > 0 && !prot.ProtNone?
    requires !outcome.Done?
    ensures MemOk(DoImport(mem, vaddr, len, prot, outcome))
    ensures LeavesHalf(mem, DoImport(mem, vaddr, len, prot, outcome), mem.free[0])
  {
    var m, id := DoImport(mem, vaddr, len, prot, outcome), mem.free[0];
    ImportKeepsLists(mem, vaddr, len, prot, outcome);
    ImportLeavesHalf(mem, vaddr, len, prot, outcome);
    Appended(mem, id);
    HalfJoins(mem, m, id);
    HalfKeepsOwner(mem, m, id);
    ImportKeepsFiles(mem, m, id);
  }

  lemma HalfKeepsTranslation(mem: Mem, m: Mem, id: Id, space: Space)
    requires OwnerOk(mem) && LeavesHalf(mem, m, id) && Translates(mem, space)
    ensures Translates(m, space)
  {
    forall pg | pg in space && space[pg].File? && pg !in m.murk
      ensures m.regs[mem.owner[pg]] == mem.regs[mem.owner[pg]] && FileBacked(m, mem.owner[pg])
    {
      assert FileBacked(mem, mem.owner[pg]);
    }
  }

  lemma ImportNoneAdds(mem: Mem, vaddr: nat, len: nat, mapped: bool)
    requires ListsOk(mem) && HalfOk(mem) && HasFreeRegion(mem) && (mapped || len == 0)
    requires forall pg: nat :: pg in mem.owner ==> !InPages(vaddr, len, pg)
    ensures Adds(mem, DoImportNone(mem, vaddr, len, mapped), mem.free[0], Region(vaddr, len, ProtNone, None))
  {
    var m, id := DoImportNone(mem, vaddr, len, mapped), mem.free[0];
    Inserted(mem, id);
    FreeIsUnused(mem);
    NotHalf(mem, id);
    assert m.owner == Own(mem.owner, vaddr, len, id);
  }

  lemma ImportNoneLeavesHalf(mem: Mem, vaddr: nat, len: nat)
    requires ListsOk(mem) && HalfOk(mem) && HasFreeRegion(mem) && len > 0
    ensures LeavesHalf(mem, DoImportNone(mem, vaddr, len, false), mem.free[0])
  {
    Inserted(mem, mem.free[0]);
    FreeIsUnused(mem);
    NotHalf(mem, mem.free[0]);
  }

  lemma ImportNoneKeepsLists(mem: Mem, vaddr: nat, len: nat, mapped: bool)
    requires ListsOk(mem) && HasFreeRegion(mem)
    ensures ListsOk(DoImportNone(mem, vaddr, len, mapped))
  {
    var m := DoImportNone(mem, vaddr, len, mapped);
    InsertKeepsBag(mem, m);
    forall i | 0 <= i < |m.active| ensures m.active[i] < |m.regs| {
      assert m.active[i] == if i == 0 then mem.active[0] else if i == 1 then mem.free[0] else mem.active[i - 1];
    }
    assert Known(m.regs, m.free);
  }

  lemma InsertKeepsBag(mem: Mem, m: Mem)
    requires |mem.free| > 0 && |mem.active| > 0
    requires m.active == InsertAfterHead(mem, mem.free[0]).active && m.free == mem.free[1..]
    requires m.reserved == mem.reserved && m.pending == mem.pending && m.leaked == mem.leaked
    ensures Bag(m) == Bag(mem)
  {
    Inserted(mem, mem.free[0]);
    TakeFree(mem);
  }

  lemma ImportNoneKeepsFiles(mem: Mem, m: Mem, id: Id)
    requires RegionsOk(mem) && FilesOk(mem) && id < |mem.regs| && |m.regs| == |mem.regs| && !OnList(mem, id)
    requires forall x: Id :: x < |mem.regs| && x != id ==> m.regs[x] == mem.regs[x]
    requires (forall x: Id :: x in m.active <==> x in mem.active || x == id) && m.reserved == mem.reserved
    requires RegionOk(m.regs[id]) && m.regs[id].offset == None && m.regs[id].prot.ProtNone?
    requires m.tmpfileSize == mem.tmpfileSize && m.fileLen == mem.fileLen && mem.half <= m.half
    ensures RegionsOk(m) && FilesOk(m)
  {
    assert forall x: Id :: FileBacked(m, x) ==> FileBacked(mem, x) && m.regs[x] == mem.regs[x];
  }

  lemma ImportNoneKeepsMem(mem: Mem, vaddr: nat, len: nat, mapped: bool)
    requires ImportReady(mem, vaddr, len)
    ensures MemOk(DoImportNone(mem, vaddr, len, mapped))
  {
    var m, id := DoImportNone(mem, vaddr, len, mapped), mem.free[0];
    ImportNoneKeepsLists(mem, vaddr, len, mapped);
    FreeIsUnused(mem);
    Inserted(mem, id);
    ImportNoneKeepsFiles(mem, m, id);
    if mapped || len == 0 {
      ImportNoneAdds(mem, vaddr, len, mapped);
      AddKeepsOwner(mem, m, id, m.regs[id]);
      HalfStays(mem, m);
    } else {
      ImportNoneLeavesHalf(mem, vaddr, len);
      HalfJoins(mem, m, id);
      HalfKeepsOwner(mem, m, id);
    }
  }

  lemma MapKeepsAgreement(mem: Mem, m: Mem, id: Id, r: Region, space: Space)
    requires OwnerOk(mem) && Adds(mem, m, id, r) && Agrees(mem.owner, space)
    ensures Agrees(m.owner, MapRegion(space, r))
    ensures Agrees(m.owner, Hold(space, r.vaddr, r.len))
  {
  }

  /** One address space, before and after the process imports region `r`. */
  lemma ImportedSpace(mem: Mem, m: Mem, id: Id, r: Region, space: Space)
    requires OwnerOk(mem) && Adds(mem, m, id, r) && OwnerOk(m) && HalfOk(m)
    requires Agrees(mem.owner, space) && Translates(mem, space)
    ensures FileBacked(m, id) ==> Agrees(m.owner, MapRegion(space, r)) && Translates(m, MapRegion(space, r))
    ensures Agrees(m.owner, Hold(space, r.vaddr, r.len)) && Translates(m, Hold(space, r.vaddr, r.len))
    ensures r.len == 0 ==> Agrees(m.owner, space) && Translates(m, space)
  {
    AddKeepsTranslation(mem, m, id, r, space);
    MapKeepsAgreement(mem, m, id, r, space);
    HoldKeepsTranslation(m, space, r.vaddr, r.len);
    if FileBacked(m, id) {
      MapListed(m, space, id);
    }
  }

  lemma ImportKeepsSpaces(s: Sys, e: Event)
    requires MemOk(s.mem) && SpacesOk(s) && Can(s, e) && e.Import? && s.space.Keys == {e.p}
    requires e.outcome.Done? || e.len == 0
    ensures MemOk(Next(s, e).mem) && SpacesOk(Next(s, e))
  {
    var t, sp, id := Next(s, e), s.space[e.p], s.mem.free[0];
    PrivateIsApart(s.mem.owner, sp, e.vaddr, e.len);
    ImportAdds(s.mem, e.vaddr, e.len, e.prot, e.outcome);
    ImportKeepsMem(s.mem, e.vaddr, e.len, e.prot, e.outcome);
    ImportedSpace(s.mem, t.mem, id, t.mem.regs[id], sp);
  }

  lemma HalfKeepsSpaces(s: Sys, e: Event)
    requires MemOk(s.mem) && SpacesOk(s) && Can(s, e) && e.Import? && s.space.Keys == {e.p}
    requires !e.outcome.Done? && e.len > 0
    ensures MemOk(Next(s, e).mem) && SpacesOk(Next(s, e))
  {
    HalfKeepsMem(s.mem, e.vaddr, e.len, e.prot, e.outcome);
    HalfKeepsTranslation(s.mem, Next(s, e).mem, s.mem.free[0], s.space[e.p]);
  }

  lemma ImportNoneKeepsSpaces(s: Sys, e: Event)
    requires MemOk(s.mem) && SpacesOk(s) && Can(s, e) && e.ImportNone? && s.space.Keys == {e.p}
    requires e.mapped || e.len == 0
    ensures MemOk(Next(s, e).mem) && SpacesOk(Next(s, e))
  {
    var t, sp, id := Next(s, e), s.space[e.p], s.mem.free[0];
    PrivateIsApart(s.mem.owner, sp, e.vaddr, e.len);
    ImportNoneAdds(s.mem, e.vaddr, e.len, e.mapped);
    ImportNoneKeepsMem(s.mem, e.vaddr, e.len, e.mapped);
    ImportedSpace(s.mem, t.mem, id, Region(e.vaddr, e.len, ProtNone, None), sp);
  }

  lemma HalfNoneKeepsSpaces(s: Sys, e: Event)
    requires MemOk(s.mem) && SpacesOk(s) && Can(s, e) && e.ImportNone? && s.space.Keys == {e.p}
    requires !e.mapped && e.len > 0
    ensures MemOk(Next(s, e).mem) && SpacesOk(Next(s, e))
  {
    PrivateIsApart(s.mem.owner, s.space[e.p], e.vaddr, e.len);
    ImportNoneKeepsMem(s.mem, e.vaddr, e.len, e.mapped);
    ImportNoneLeavesHalf(s.mem, e.vaddr, e.len);
    HalfKeepsTranslation(s.mem, Next(s, e).mem, s.mem.free[0], s.space[e.p]);
  }

  lemma ImportKeepsHeld(s: Sys, e: Event, r: Range)
    requires Can(s, e) && (e.Import? || e.ImportNone?) && Agrees(s.mem.owner, s.space[e.p])
    requires HeldApart(s.mem.owner, s.space[e.p], r)
    ensures HeldApart(Next(s, e).mem.owner, Next(s, e).space[e.p], r)
  {
    PrivateIsApart(s.mem.owner, s.space[e.p], e.vaddr, e.len);
  }

  /** Nothing about the pending reservation has changed, and who held its range still does. */
  lemma PendingStays(s: Sys, t: Sys)
    requires PendOk(s) && t.log == s.log && t.mem.pending == s.mem.pending && |t.mem.regs| == |s.mem.regs|
    requires s.mem.pending.Some? && s.mem.pending.value < |s.mem.regs| ==>
      t.mem.regs[s.mem.pending.value] == s.mem.regs[s.mem.pending.value]
    requires forall p :: p in t.space ==> p in s.space
    requires s.log.pending.Some? ==>
      forall p :: p in t.space && HeldApart(s.mem.owner, s.space[p], s.log.pending.value) ==>
        HeldApart(t.mem.owner, t.space[p], s.log.pending.value)
    ensures PendOk(t)
  {
  }

  lemma ImportKeepsPending(s: Sys, e: Event)
    requires ListsOk(s.mem) && SpacesOk(s) && PendOk(s) && Can(s, e) && (e.Import? || e.ImportNone?)
    requires s.space.Keys == {e.p}
    ensures PendOk(Next(s, e))
  {
    FreeIsUnused(s.mem);
    if s.log.pending.Some? && HeldApart(s.mem.owner, s.space[e.p], s.log.pending.value) {
      ImportKeepsHeld(s, e, s.log.pending.value);
    }
    PendingStays(s, Next(s, e));
  }

  lemma ImportKeepsInv(s: Sys, e: Event)
    requires Inv(s) && Can(s, e) && (e.Import? || e.ImportNone?)
    ensures Inv(Next(s, e))
  {
    SoleProcess(s, e.p);
    if e.ImportNone? {
      AnyImportNoneKeepsSpaces(s, e);
    } else if Whole(e) {
      ImportKeepsSpaces(s, e);
    } else {
      HalfKeepsSpaces(s, e);
    }
    ImportKeepsPending(s, e);
  }

  lemma AnyImportNoneKeepsSpaces(s: Sys, e: Event)
    requires MemOk(s.mem) && SpacesOk(s) && Can(s, e) && e.ImportNone? && s.space.Keys == {e.p}
    ensures MemOk(Next(s, e).mem) && SpacesOk(Next(s, e))
  {
    if Whole(e) {
      ImportNoneKeepsSpaces(s, e);
    } else {
      HalfNoneKeepsSpaces(s, e);
    }
  }

  lemma MmapKeepsSpaces(s: Sys, e: Event)
    requires MemOk(s.mem) && SpacesOk(s) && Can(s, e) && e.Mmap?
    ensures MemOk(Next(s, e).mem) && SpacesOk(Next(s, e))
  {
    var mem, m := s.mem, Next(s, e).mem;
    MmapKeepsLists(mem, e.len, e.prot);
    MmapKeepsContent(mem, e.len, e.prot);
    MmapMoves(mem, e.len, e.prot);
    forall p | p in s.space
      ensures Agrees(m.owner, s.space[p]) && Translates(m, s.space[p])
    {
      MoveKeepsSpace(mem, m, mem.free[0], mem.reserved[0], e.len, s.space[p]);
    }
  }

  lemma MmapKeepsInv(s: Sys, e: Event)
    requires Inv(s) && Can(s, e) && e.Mmap?
    ensures Inv(Next(s, e))
  {
    MmapKeepsSpaces(s, e);
    assert s.log.pending.None?;
  }

  // ----- joining

  lemma JoinCovers(mem: Mem, private: set<nat>, id: Id, pg: nat)
    requires Listed(mem) && JoinSpace(mem, private).Some?
    requires id < |mem.regs| && OnList(mem, id) && Covers(mem.regs[id], pg)
    ensures pg in JoinSpace(mem, private).value
    ensures JoinSpace(mem, private).value[pg] == MappingOf(mem.regs[id], pg)
  {
    var start := StartSpace(private);
    var mid := MapAll(start, mem.regs, mem.active).value;
    if id in mem.active {
      var i :| 0 <= i < |mem.active| && mem.active[i] == id;
      MapAllCovers(start, mem.regs, mem.active, i, pg);
      MapAllKeeps(mid, mem.regs, mem.reserved, pg);
    } else {
      var i :| 0 <= i < |mem.reserved| && mem.reserved[i] == id;
      MapAllCovers(mid, mem.regs, mem.reserved, i, pg);
    }
  }

  lemma JoinMapsOnly(mem: Mem, private: set<nat>, pg: nat) returns (id: Id)
    requires Listed(mem) && JoinSpace(mem, private).Some?
    requires pg in JoinSpace(mem, private).value && !JoinSpace(mem, private).value[pg].Private?
    ensures id < |mem.regs| && OnList(mem, id) && Covers(mem.regs[id], pg)
  {
    var start := StartSpace(private);
    var mid := MapAll(start, mem.regs, mem.active).value;
    if pg in mid {
      if pg in start {
        MapAllKeeps(start, mem.regs, mem.active, pg);
        MapAllKeeps(mid, mem.regs, mem.reserved, pg);
        assert false;
      }
      MapAllOnly(start, mem.regs, mem.active, pg);
      var i :| 0 <= i < |mem.active| && Covers(mem.regs[mem.active[i]], pg);
      id := mem.active[i];
    } else {
      MapAllOnly(mid, mem.regs, mem.reserved, pg);
      var i :| 0 <= i < |mem.reserved| && Covers(mem.regs[mem.reserved[i]], pg);
      id := mem.reserved[i];
    }
  }

  lemma JoinedAgrees(mem: Mem, private: set<nat>)
    requires Listed(mem) && OwnerOk(mem) && JoinSpace(mem, private).Some?
    ensures Agrees(mem.owner, JoinSpace(mem, private).value)
  {
    var space := JoinSpace(mem, private).value;
    forall pg | pg in mem.owner ensures pg in space && !space[pg].Private? {
      JoinCovers(mem, private, mem.owner[pg], pg);
    }
  }

  lemma JoinedTranslates(mem: Mem, private: set<nat>)
    requires Listed(mem) && ContentOk(mem) && JoinSpace(mem, private).Some?
    ensures Translates(mem, JoinSpace(mem, private).value)
  {
    var space := JoinSpace(mem, private).value;
    forall pg | pg in space && space[pg].File? && pg !in mem.murk
      ensures && pg in mem.owner && FileBacked(mem, mem.owner[pg])
              && Covers(mem.regs[mem.owner[pg]], pg)
              && space[pg].offset == FileOffset(mem.regs[mem.owner[pg]], pg)
    {
      var id := JoinMapsOnly(mem, private, pg);
      JoinCovers(mem, private, id, pg);
      assert !Claims(mem, id, pg) && InUse(mem, id);
    }
  }

  lemma PreallocKeepsMem(mem: Mem, prealloc: bool, newcomers: set<Pid>)
    requires MemOk(mem)
    ensures var m := mem.(prealloc := prealloc, newcomers := newcomers); MemOk(m) && SameListed(mem, m)
  {
    var m := mem.(prealloc := prealloc, newcomers := newcomers);
    assert Bag(m) == Bag(mem);
    SameListedKeepsContent(mem, m);
  }

  /** A joiner ends up with every shared page, and with the same file behind each. */
  lemma JoinKeepsSpaces(s: Sys, e: Event)
    requires MemOk(s.mem) && SpacesOk(s) && PendOk(s) && Can(s, e) && e.JoinAt?
    ensures var t := Next(s, e); MemOk(t.mem) && SpacesOk(t) && PendOk(t)
  {
    var t := Next(s, e);
    JoinedAgrees(s.mem, e.private);
    JoinedTranslates(s.mem, e.private);
    PreallocKeepsMem(s.mem, false, s.mem.newcomers + {e.p});
    assert t.mem == s.mem.(prealloc := false, newcomers := s.mem.newcomers + {e.p});
    forall p | p in t.space ensures Agrees(t.mem.owner, t.space[p]) && Translates(t.mem, t.space[p]) {
      SameListedTranslates(s.mem, t.mem, t.space[p]);
    }
  }

  lemma JoinKeepsInv(s: Sys, e: Event)
    requires Inv(s) && Can(s, e) && e.JoinAt?
    ensures Inv(Next(s, e))
  {
    JoinKeepsSpaces(s, e);
    CI.StepKeepsInv(s.log, Join(e.p));
  }

  // ----- faults and private memory

  /** Where no half-done import interferes the handler finds the one region that owns the page. */
  lemma FaultFindsOwner(mem: Mem, vaddr: nat)
    requires MemOk(mem) && vaddr / PAGE in mem.owner && vaddr / PAGE !in mem.murk
    ensures Find(mem.regs, mem.active, vaddr) ==
            if mem.owner[vaddr / PAGE] in mem.active then Some(mem.owner[vaddr / PAGE]) else None
  {
    var pg := vaddr / PAGE;
    var id := mem.owner[pg];
    InRegion(mem.regs[id], vaddr);
    var found := Find(mem.regs, mem.active, vaddr);
    if found.Some? {
      assert found.value in mem.active;
      InRegion(mem.regs[found.value], vaddr);
      assert !Claims(mem, found.value, pg) && InUse(mem, found.value);
    }
  }

  lemma InRegion(r: Region, vaddr: nat)
    requires RegionOk(r)
    ensures Covers(r, vaddr / PAGE) <==> r.vaddr <= vaddr < r.vaddr + r.len
  {
  }

  lemma FaultKeepsInv(s: Sys, e: Event)
    requires Inv(s) && Can(s, e) && e.Fault?
    ensures Inv(Next(s, e))
  {
    FaultKeepsSpaces(s, e);
  }

  lemma MapKeepsHeld(owner: map<nat, Id>, space: Space, region: Region, r: Range)
    requires HeldApart(owner, space, r)
    ensures HeldApart(owner, MapRegion(space, region), r)
  {
  }

  lemma FaultNext(s: Sys, e: Event) returns (id: Id)
    requires RegionsOk(s.mem) && Can(s, e) && e.Fault?
    ensures FileBacked(s.mem, id)
    ensures Next(s, e) == s.(space := s.space[e.p := MapRegion(s.space[e.p], s.mem.regs[id])])
  {
    id := Find(s.mem.regs, s.mem.active, e.vaddr).value;
  }

  lemma FaultKeepsSpaces(s: Sys, e: Event)
    requires MemOk(s.mem) && SpacesOk(s) && PendOk(s) && Can(s, e) && e.Fault?
    ensures SpacesOk(Next(s, e)) && PendOk(Next(s, e))
  {
    var id := FaultNext(s, e);
    MappedIn(s, Next(s, e), e.p, id);
  }

  /** One process maps a listed region. */
  lemma MappedIn(s: Sys, t: Sys, p: Pid, id: Id)
    requires MemOk(s.mem) && SpacesOk(s) && PendOk(s) && p in s.space && FileBacked(s.mem, id)
    requires t == s.(space := s.space[p := MapRegion(s.space[p], s.mem.regs[id])])
    ensures SpacesOk(t) && PendOk(t)
  {
    MapListed(s.mem, s.space[p], id);
    if s.log.pending.Some? && HeldApart(s.mem.owner, s.space[p], s.log.pending.value) {
      MapKeepsHeld(s.mem.owner, s.space[p], s.mem.regs[id], s.log.pending.value);
    }
    PendingStays(s, t);
  }

  /** The two spaces differ in private pages only. */
  ghost predicate SameShared(before: Space, after: Space) {
    && (forall pg :: pg in before && !before[pg].Private? ==> pg in after && after[pg] == before[pg])
    && (forall pg :: pg in after && !after[pg].Private? ==> pg in before && after[pg] == before[pg])
  }

  lemma PrivateChange(mem: Mem, before: Space, after: Space)
    requires Agrees(mem.owner, before) && Translates(mem, before) && SameShared(before, after)
    ensures Agrees(mem.owner, after) && Translates(mem, after)
    ensures forall r: Range :: HeldApart(mem.owner, before, r) ==> HeldApart(mem.owner, after, r)
  {
  }

  lemma PrivateKeepsSpaces(s: Sys, e: Event)
    requires SpacesOk(s) && PendOk(s) && Can(s, e) && (e.MapPrivate? || e.UnmapPrivate?)
    ensures SpacesOk(Next(s, e)) && PendOk(Next(s, e))
  {
    var before, after := s.space[e.p], Next(s, e).space[e.p];
    assert SameShared(before, after);
    PrivateChange(s.mem, before, after);
  }

  lemma GrowKeepsMem(mem: Mem, len: nat)
    requires MemOk(mem) && Aligned(len)
    ensures var m := mem.(tmpfileSize := mem.tmpfileSize + len); MemOk(m) && SameListed(mem, m)
  {
    var m := mem.(tmpfileSize := mem.tmpfileSize + len);
    assert Bag(m) == Bag(mem);
    SameListedKeepsContent(mem, m);
  }

  // ----- steps of the log

  lemma ProposeKeepsLists(mem: Mem, r: Range)
    requires ListsOk(mem) && HasFreeRegion(mem) && mem.pending.None?
    ensures ListsOk(DoPropose(mem, r))
  {
    TakeFree(mem);
    assert Bag(DoPropose(mem, r)) == Bag(mem);
  }

  lemma ProposeKeepsMem(mem: Mem, r: Range)
    requires MemOk(mem) && HasFreeRegion(mem) && mem.pending.None?
    ensures MemOk(DoPropose(mem, r)) && SameListed(mem, DoPropose(mem, r))
  {
    FreeIsUnused(mem);
    ProposeKeepsLists(mem, r);
    SameListedKeepsContent(mem, DoPropose(mem, r));
  }

  lemma AbandonKeepsMem(mem: Mem)
    requires MemOk(mem) && HasFreeRegion(mem)
    ensures var m := mem.(free := mem.free[1..], leaked := mem.leaked + multiset{mem.free[0]});
      MemOk(m) && SameListed(mem, m)
  {
    var m := mem.(free := mem.free[1..], leaked := mem.leaked + multiset{mem.free[0]});
    TakeFree(mem);
    assert Bag(m) == Bag(mem);
    SameListedKeepsContent(mem, m);
  }

  /** Once everybody has acknowledged, the pending range goes into use. */
  lemma AdoptAdds(mem: Mem, r: Region)
    requires ListsOk(mem) && HalfOk(mem) && mem.pending.Some? && mem.regs[mem.pending.value] == r
    requires forall pg: nat :: pg in mem.owner ==> !Covers(r, pg)
    ensures Adds(mem, DoAdopt(mem), mem.pending.value, r) && !OnList(mem, mem.pending.value)
  {
    var m, id := DoAdopt(mem), mem.pending.value;
    OnePlace(mem, id);
    NotHalf(mem, id);
    assert forall x: Id :: x in m.reserved <==> x in mem.reserved || x == id;
  }

  lemma AdoptKeepsLists(mem: Mem)
    requires ListsOk(mem) && mem.pending.Some?
    ensures ListsOk(DoAdopt(mem))
  {
    assert Bag(DoAdopt(mem)) == Bag(mem);
  }

  lemma AdoptKeepsMem(mem: Mem, r: Region)
    requires MemOk(mem) && mem.pending.Some? && mem.regs[mem.pending.value] == r
    requires RegionOk(r) && r.offset.None?
    requires forall pg: nat :: pg in mem.owner ==> !Covers(r, pg)
    ensures MemOk(DoAdopt(mem)) && Adds(mem, DoAdopt(mem), mem.pending.value, r)
  {
    var m, id := DoAdopt(mem), mem.pending.value;
    AdoptAdds(mem, r);
    AdoptKeepsLists(mem);
    AddKeepsOwner(mem, m, id, r);
    HalfStays(mem, m);
    assert forall x: Id :: FileBacked(m, x) <==> FileBacked(mem, x);
    assert RegionsOk(m);
  }

  lemma ProposeKeepsSpaces(s: Sys, p: Pid, r: Range)
    requires CI.Shape(s.log) && CI.ProcsOk(s.log)
    requires MemOk(s.mem) && SpacesOk(s) && PendOk(s) && Can(s, Log(PostCommit(p, Reserve(r))))
    ensures var t := Next(s, Log(PostCommit(p, Reserve(r)))); MemOk(t.mem) && SpacesOk(t) && PendOk(t)
  {
    var t := Next(s, Log(PostCommit(p, Reserve(r))));
    ProposeKeepsMem(s.mem, r);
    HoldFresh(s.mem, s.space[p], r.vaddr, r.len);
    assert forall q :: q in s.log.procs ==> CI.ProcOk(s.log.lastSeq, |s.log.log|, s.log.procs[q]);
    forall q | q in t.space ensures Agrees(t.mem.owner, t.space[q]) && Translates(t.mem, t.space[q]) {
      assert q != p ==> t.space[q] == s.space[q];
      SameListedTranslates(s.mem, t.mem, t.space[q]);
    }
  }

  /** A process that acknowledges a RESERVE step holds its range from then on. */
  lemma AckKeepsSpaces(s: Sys, p: Pid)
    requires CI.Shape(s.log) && CI.PendingOk(s.log)
    requires SpacesOk(s) && PendOk(s) && Can(s, Log(Ack(p)))
    ensures var t := Next(s, Log(Ack(p))); SpacesOk(t) && PendOk(t)
  {
    var t := Next(s, Log(Ack(p)));
    var at := s.log.procs[p].scan.at;
    var op := StepAt(s.log.log, at).op;
    assert t.log.procs.Keys == s.log.procs.Keys;
    if op.Reserve? {
      HoldFresh(s.mem, s.space[p], op.range.vaddr, op.range.len);
      assert at == s.log.obs.reserveSeq;
    } else {
      assert s.log.pending.Some? ==> at != s.log.obs.reserveSeq;
    }
    assert forall q :: q in t.space && q != p ==> t.space[q] == s.space[q];
  }

  lemma AdoptedAgrees(s: Sys, q: Pid)
    requires MemOk(s.mem) && SpacesOk(s) && PendOk(s) && s.mem.pending.Some?
    requires q in s.space && s.log.procs[q].flush >= s.log.obs.reserveSeq
    requires Adds(s.mem, DoAdopt(s.mem), s.mem.pending.value, s.mem.regs[s.mem.pending.value])
    ensures Agrees(DoAdopt(s.mem).owner, s.space[q]) && Translates(DoAdopt(s.mem), s.space[q])
  {
    var id := s.mem.pending.value;
    assert HeldApart(s.mem.owner, s.space[q], s.log.pending.value);
    AddAgrees(s.mem, DoAdopt(s.mem), id, s.mem.regs[id], s.space[q]);
    AddKeepsTranslation(s.mem, DoAdopt(s.mem), id, s.mem.regs[id], s.space[q]);
  }

  lemma AdoptedMem(s: Sys, p: Pid)
    requires MemOk(s.mem) && PendOk(s) && s.mem.pending.Some? && s.log.pending.Some?
    requires p in s.space && p in s.log.procs && s.log.procs[p].flush >= s.log.obs.reserveSeq
    ensures MemOk(DoAdopt(s.mem))
    ensures Adds(s.mem, DoAdopt(s.mem), s.mem.pending.value, s.mem.regs[s.mem.pending.value])
  {
    assert HeldApart(s.mem.owner, s.space[p], s.log.pending.value);
    AdoptKeepsMem(s.mem, s.mem.regs[s.mem.pending.value]);
  }

  /** When the head is freed every registered process holds its range, apart from all regions
      in use. */
  lemma AdoptedSpaces(s: Sys)
    requires MemOk(s.mem) && SpacesOk(s) && PendOk(s) && s.mem.pending.Some? && |s.space| > 0
    requires forall q :: q in s.log.procs ==> s.log.procs[q].flush >= s.log.obs.reserveSeq
    ensures MemOk(DoAdopt(s.mem))
    ensures forall q :: q in s.space ==>
      Agrees(DoAdopt(s.mem).owner, s.space[q]) && Translates(DoAdopt(s.mem), s.space[q])
  {
    var p :| p in s.space;
    AdoptedMem(s, p);
    forall q | q in s.space
      ensures Agrees(DoAdopt(s.mem).owner, s.space[q]) && Translates(DoAdopt(s.mem), s.space[q])
    {
      AdoptedAgrees(s, q);
    }
  }

  lemma AdoptNext(s: Sys, p: Pid)
    requires Can(s, Log(FreeHead(p))) && s.log.log[0].op.Reserve?
    ensures var t := Next(s, Log(FreeHead(p)));
      && t.mem == DoAdopt(s.mem) && t.space == s.space && t.log.pending.None?
      && t.log.procs.Keys == s.log.procs.Keys && p in s.log.procs
  {
  }

  lemma AdoptKeepsSpaces(s: Sys, t: Sys, p: Pid)
    requires MemOk(s.mem) && SpacesOk(s) && PendOk(s) && s.mem.pending.Some? && p in s.log.procs
    requires forall q :: q in s.log.procs ==> s.log.procs[q].flush >= s.log.obs.reserveSeq
    requires t.mem == DoAdopt(s.mem) && t.space == s.space && t.log.pending.None?
    requires t.log.procs.Keys == s.log.procs.Keys
    ensures MemOk(t.mem) && SpacesOk(t) && PendOk(t)
  {
    assert p in s.space;
    AdoptedSpaces(s);
  }

  lemma EveryoneHolds(s: Sys, p: Pid)
    requires CI.Shape(s.log) && CI.PendingOk(s.log) && CI.Books(s.log) && CI.CleanerOk(s.log)
    requires Enabled(s.log, FreeHead(p)) && s.log.log[0].op.Reserve?
    ensures s.log.pending.Some?
    ensures forall q :: q in s.log.procs ==> s.log.procs[q].flush >= s.log.obs.reserveSeq
  {
    assert Flagged(s.log.procs[p]);
    var head := s.log.log[0];
    assert CI.BookOk(s.log.procs, head, s.log.obs.ledger[head.seqNum]);
    CI.DoneLeavesNobodyBehind(s.log.procs, head, s.log.obs.ledger[head.seqNum]);
  }

  lemma DepartKeepsSpaces(s: Sys, p: Pid)
    requires MemOk(s.mem) && SpacesOk(s) && PendOk(s) && Can(s, Log(Depart(p)))
    ensures var t := Next(s, Log(Depart(p))); MemOk(t.mem) && SpacesOk(t) && PendOk(t)
  {
    var t := Next(s, Log(Depart(p)));
    PreallocKeepsMem(s.mem, s.mem.prealloc, s.mem.newcomers - {p});
    assert t.mem == s.mem.(prealloc := s.mem.prealloc, newcomers := s.mem.newcomers - {p});
    SameListedKeepsSpaces(s, t);
  }

  lemma RefusedKeepsSpaces(s: Sys)
    requires MemOk(s.mem) && SpacesOk(s) && PendOk(s) && Can(s, Log(JoinRefused))
    ensures var t := Next(s, Log(JoinRefused)); MemOk(t.mem) && SpacesOk(t) && PendOk(t)
  {
    var t := Next(s, Log(JoinRefused));
    PreallocKeepsMem(s.mem, false, s.mem.newcomers);
    assert t.mem == s.mem.(prealloc := false, newcomers := s.mem.newcomers);
    SameListedKeepsSpaces(s, t);
  }

  lemma AbandonKeepsSpaces(s: Sys, p: Pid)
    requires MemOk(s.mem) && SpacesOk(s) && PendOk(s) && Can(s, Log(PostAbandon(p)))
    ensures var t := Next(s, Log(PostAbandon(p))); MemOk(t.mem) && SpacesOk(t) && PendOk(t)
  {
    var t := Next(s, Log(PostAbandon(p)));
    AbandonKeepsMem(s.mem);
    assert t.log.procs.Keys == s.log.procs.Keys;
    SameListedKeepsSpaces(s, t);
  }

  /** Labels that move one thread or bump a counter. */
  predicate Silent(s: State, l: Label) {
    match l
    case Join(_) => false
    case JoinRefused => false
    case PostCommit(_, op) => op.Abort?
    case PostAbandon(_) => false
    case Ack(_) => false
    case FreeHead(_) => |s.log| > 0 && s.log[0].op.Abort?
    case Depart(_) => false
    case _ => true
  }

  lemma SilentKeepsSpaces(s: Sys, l: Label)
    requires CI.Shape(s.log) && CI.PendingOk(s.log)
    requires SpacesOk(s) && PendOk(s) && Can(s, Log(l)) && Silent(s.log, l)
    ensures var t := Next(s, Log(l)); t.mem == s.mem && SpacesOk(t) && PendOk(t)
  {
    var t := Next(s, Log(l));
    SilentFlush(s.log, l);
    assert t.mem == s.mem && t.space == s.space;
  }

  lemma SilentFlush(s: State, l: Label)
    requires CI.Shape(s) && CI.PendingOk(s) && Enabled(s, l) && Silent(s, l)
    ensures var t := Apply(s, l);
      && t.procs.Keys == s.procs.Keys && t.pending == s.pending
      && (s.pending.Some? ==> t.obs.reserveSeq == s.obs.reserveSeq)
      && forall p :: p in s.procs && t.procs[p].flush >= s.obs.reserveSeq ==>
           s.pending.Some? ==> s.procs[p].flush >= s.obs.reserveSeq
  {
    match l
    case PostCommit(p, _) =>
      assert s.pending.Some? ==> s.obs.reserveSeq <= s.lastSeq == s.procs[p].flush;
    case _ =>
  }

  lemma PostsKeepInv(s: Sys, l: Label)
    requires Inv(s) && Can(s, Log(l)) && !Silent(s.log, l) && (l.PostCommit? || l.PostAbandon?)
    ensures Inv(Next(s, Log(l)))
  {
    if l.PostCommit? {
      ProposeKeepsSpaces(s, l.p, l.op.range);
    } else {
      AbandonKeepsSpaces(s, l.p);
    }
    CI.StepKeepsInv(s.log, l);
  }

  lemma AdoptKeepsInv(s: Sys, l: Label)
    requires Inv(s) && Can(s, Log(l)) && !Silent(s.log, l) && l.FreeHead?
    ensures Inv(Next(s, Log(l)))
  {
    EveryoneHolds(s, l.p);
    AdoptNext(s, l.p);
    AdoptKeepsSpaces(s, Next(s, Log(l)), l.p);
    CI.StepKeepsInv(s.log, l);
  }

  lemma AckKeepsInv(s: Sys, l: Label)
    requires Inv(s) && Can(s, Log(l)) && l.Ack?
    ensures Inv(Next(s, Log(l)))
  {
    AckKeepsSpaces(s, l.p);
    CI.StepKeepsInv(s.log, l);
  }

  lemma ComingAndGoingKeepsInv(s: Sys, l: Label)
    requires Inv(s) && Can(s, Log(l)) && (l.Depart? || l.JoinRefused?)
    ensures Inv(Next(s, Log(l)))
  {
    if l.Depart? {
      DepartKeepsSpaces(s, l.p);
    } else {
      RefusedKeepsSpaces(s);
    }
    CI.StepKeepsInv(s.log, l);
  }

  lemma SilentKeepsInv(s: Sys, l: Label)
    requires Inv(s) && Can(s, Log(l)) && Silent(s.log, l)
    ensures Inv(Next(s, Log(l)))
  {
    SilentKeepsSpaces(s, l);
    CI.StepKeepsInv(s.log, l);
  }

  lemma LogKeepsInv(s: Sys, l: Label)
    requires Inv(s) && Can(s, Log(l))
    ensures Inv(Next(s, Log(l)))
  {
    if Silent(s.log, l) {
      SilentKeepsInv(s, l);
    } else if l.Ack? {
      AckKeepsInv(s, l);
    } else if l.Depart? || l.JoinRefused? {
      ComingAndGoingKeepsInv(s, l);
    } else if l.FreeHead? {
      AdoptKeepsInv(s, l);
    } else {
      PostsKeepInv(s, l);
    }
  }

  // ----- every event, every run

  /** The log moves by its own labels only. */
  lemma LogFollows(s: Sys, e: Event)
    requires Can(s, e)
    ensures match e
      case Log(l) => Next(s, e).log == Apply(s.log, l)
      case JoinAt(p, _) => Enabled(s.log, Join(p)) && Next(s, e).log == Apply(s.log, Join(p))
      case _ => Next(s, e).log == s.log
  {
  }

  lemma PlainKeepsInv(s: Sys, e: Event)
    requires Inv(s) && Can(s, e) && (e.Prealloc? || e.MmapNoSpace? || e.JoinFails?)
    ensures Inv(Next(s, e))
  {
    PlainKeepsSpaces(s, e);
  }

  lemma PlainKeepsMem(s: Sys, e: Event)
    requires MemOk(s.mem) && Can(s, e) && (e.Prealloc? || e.MmapNoSpace? || e.JoinFails?)
    ensures MemOk(Next(s, e).mem) && SameListed(s.mem, Next(s, e).mem)
  {
    match e
    case Prealloc(p) => PreallocKeepsMem(s.mem, true, s.mem.newcomers - {p});
    case JoinFails(_) => PreallocKeepsMem(s.mem, false, s.mem.newcomers);
    case MmapNoSpace(_, len) => GrowKeepsMem(s.mem, len);
  }

  lemma PlainKeepsSpaces(s: Sys, e: Event)
    requires MemOk(s.mem) && SpacesOk(s) && PendOk(s) && Can(s, e) && (e.Prealloc? || e.MmapNoSpace? || e.JoinFails?)
    ensures var t := Next(s, e); MemOk(t.mem) && SpacesOk(t) && PendOk(t)
  {
    PlainKeepsMem(s, e);
    SameListedKeepsSpaces(s, Next(s, e));
  }

  lemma PrivateKeepsInv(s: Sys, e: Event)
    requires Inv(s) && Can(s, e) && (e.MapPrivate? || e.UnmapPrivate?)
    ensures Inv(Next(s, e))
  {
    PrivateKeepsSpaces(s, e);
  }

  lemma LocalKeepsInv(s: Sys, e: Event)
    requires Inv(s) && Can(s, e)
    requires e.Prealloc? || e.MmapNoSpace? || e.JoinFails? || e.MapPrivate? || e.UnmapPrivate? || e.Fault?
    ensures Inv(Next(s, e))
  {
    if e.Fault? {
      FaultKeepsInv(s, e);
    } else if e.Prealloc? || e.MmapNoSpace? || e.JoinFails? {
      PlainKeepsInv(s, e);
    } else {
      PrivateKeepsInv(s, e);
    }
  }

  lemma SharedKeepsInv(s: Sys, e: Event)
    requires Inv(s) && Can(s, e)
    requires e.Mmap? || e.Import? || e.ImportNone? || e.JoinAt?
    ensures Inv(Next(s, e))
  {
    if e.Mmap? {
      MmapKeepsInv(s, e);
    } else if e.JoinAt? {
      JoinKeepsInv(s, e);
    } else {
      ImportKeepsInv(s, e);
    }
  }

  lemma EventKeepsInv(s: Sys, e: Event)
    requires Inv(s) && Can(s, e)
    ensures Inv(Next(s, e))
  {
    if e.Log? {
      LogKeepsInv(s, e.l);
    } else if e.Mmap? || e.Import? || e.ImportNone? || e.JoinAt? {
      SharedKeepsInv(s, e);
    } else {
      LocalKeepsInv(s, e);
    }
  }
}
