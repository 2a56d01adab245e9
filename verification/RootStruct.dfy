/**
  Lists threaded through the region structs of page 0: each struct has a `next`, and the root
  struct has the heads and one tail.
*/
module StructLists {
  import opened Basics
  import opened CleanupLog
  import opened Regions

  type Links = seq<Option<Id>>

  function NthOf(ids: seq<Id>, i: nat): Option<Id> {
    if i < |ids| then Some(ids[i]) else None
  }

  /** Following `next` from `head` passes through `ids` and ends. */
  ghost predicate IsList(next: Links, head: Option<Id>, ids: seq<Id>) {
    && head == NthOf(ids, 0)
    && (forall i :: 0 <= i < |ids| ==> ids[i] < |next|)
    && (forall i {:trigger next[ids[i]]} :: 0 <= i < |ids| ==> next[ids[i]] == NthOf(ids, i + 1))
  }

  ghost predicate Apart(a: seq<Id>, b: seq<Id>) {
    forall x :: x in a ==> x !in b
  }

  lemma {:induction false} SameStart(next: Links, head: Option<Id>, a: seq<Id>, b: seq<Id>, i: nat)
    requires IsList(next, head, a) && IsList(next, head, b) && i <= |a|
    ensures NthOf(a, i) == NthOf(b, i) && i <= |b|
  {
    if i > 0 {
      SameStart(next, head, a, b, i - 1);
      assert next[a[i - 1]] == NthOf(a, i) && next[b[i - 1]] == NthOf(b, i);
    }
  }

  /** The pointers determine the list. */
  lemma ListIsUnique(next: Links, head: Option<Id>, a: seq<Id>, b: seq<Id>)
    requires IsList(next, head, a) && IsList(next, head, b)
    ensures a == b
  {
    SameStart(next, head, a, b, |a|);
    SameStart(next, head, b, a, |b|);
    forall i | 0 <= i < |a| ensures a[i] == b[i] {
      SameStart(next, head, a, b, i);
    }
  }

  /** A list whose pointers are untouched stays. */
  lemma OtherList(next: Links, next': Links, head: Option<Id>, ids: seq<Id>)
    requires IsList(next, head, ids) && |next'| == |next|
    requires forall x :: x in ids && x < |next| ==> next'[x] == next[x]
    ensures IsList(next', head, ids)
  {
    forall i | 0 <= i < |ids| ensures next'[ids[i]] == NthOf(ids, i + 1) {
      assert ids[i] in ids;
    }
  }

  lemma PopList(next: Links, head: Option<Id>, ids: seq<Id>)
    requires IsList(next, head, ids) && |ids| > 0 && Distinct(ids)
    ensures IsList(next[ids[0] := None], next[ids[0]], ids[1..])
  {
  }

  lemma PushList(next: Links, head: Option<Id>, ids: seq<Id>, id: Id)
    requires IsList(next, head, ids) && id < |next| && id !in ids
    ensures IsList(next[id := head], Some(id), [id] + ids)
  {
    var longer := [id] + ids;
    forall i | 0 <= i < |longer| ensures longer[i] < |next| && next[id := head][longer[i]] == NthOf(longer, i + 1) {
      assert i > 0 ==> longer[i] == ids[i - 1] && ids[i - 1] in ids;
    }
  }

  /** Hanging a struct behind the tail drops whatever followed the tail. */
  function AppendLinks(next: Links, tail: Id, id: Id): Links
    requires tail < |next| && id < |next|
  {
    next[tail := Some(id)][id := None]
  }

  lemma AppendList(next: Links, head: Option<Id>, ids: seq<Id>, t: nat, id: Id)
    requires IsList(next, head, ids) && t < |ids| && Distinct(ids) && id < |next| && id !in ids
    ensures IsList(AppendLinks(next, ids[t], id), head, ids[..t + 1] + [id])
  {
    var after, longer := AppendLinks(next, ids[t], id), ids[..t + 1] + [id];
    forall i | 0 <= i < |longer| ensures longer[i] < |next| && after[longer[i]] == NthOf(longer, i + 1) {
      assert i <= t ==> longer[i] == ids[i] && ids[i] in ids;
    }
  }

  function InsertLinks(next: Links, head: Id, id: Id): Links
    requires head < |next| && id < |next|
  {
    next[id := next[head]][head := Some(id)]
  }

  lemma InsertList(next: Links, head: Option<Id>, ids: seq<Id>, id: Id)
    requires IsList(next, head, ids) && |ids| > 0 && Distinct(ids) && id < |next| && id !in ids
    ensures IsList(InsertLinks(next, ids[0], id), head, [ids[0], id] + ids[1..])
  {
    var after, longer := InsertLinks(next, ids[0], id), [ids[0], id] + ids[1..];
    forall i | 0 <= i < |longer| ensures longer[i] < |next| && after[longer[i]] == NthOf(longer, i + 1) {
      assert i > 1 ==> longer[i] == ids[i - 1] && ids[i - 1] in ids;
    }
  }

  /** Inserting behind the head does not move the tail pointer.  So an append right after it keeps
      both structs exactly if the list had a second node; on a list of one the inserted struct is
      lost. */
  lemma InsertNeedsTwoNodes(next: Links, head: Option<Id>, ids: seq<Id>, a: Id, b: Id)
    requires IsList(next, head, ids) && |ids| > 0 && Distinct(ids)
    requires a < |next| && b < |next| && a != b && a !in ids && b !in ids
    ensures var tail := ids[|ids| - 1]; var after := AppendLinks(InsertLinks(next, ids[0], a), tail, b);
      IsList(after, head, [ids[0], a] + ids[1..] + [b]) <==> |ids| >= 2
  {
    var n, tail, inserted := |ids|, ids[|ids| - 1], [ids[0], a] + ids[1..];
    var links := InsertLinks(next, ids[0], a);
    InsertList(next, head, ids, a);
    if n >= 2 {
      assert inserted[n] == tail && inserted[..n + 1] == inserted;
      InsertedIsDistinct(ids, a);
      assert b !in inserted;
      AppendList(links, head, inserted, n, b);
    } else {
      assert AppendLinks(links, tail, b)[ids[0]] == Some(b);
      assert NthOf(inserted + [b], 1) == Some(a);
      assert (inserted + [b])[0] == ids[0];
    }
  }

  lemma InsertedIsDistinct(ids: seq<Id>, a: Id)
    requires |ids| > 0 && Distinct(ids) && a !in ids
    ensures Distinct([ids[0], a] + ids[1..]) && forall x :: x in [ids[0], a] + ids[1..] <==> x in ids || x == a
  {
    var longer := [ids[0], a] + ids[1..];
    assert ids == [ids[0]] + ids[1..];
    forall i, j | 0 <= i < j < |longer| ensures longer[i] != longer[j] {
      assert longer[j] == (if j == 1 then a else ids[j - 1]);
      assert longer[i] == (if i == 0 then ids[0] else if i == 1 then a else ids[i - 1]);
    }
  }
}

/**
  The root struct as the code changes it: statement by statement, under the exclusive root
  lock, with every list threaded through the structs.  Each method is proved to be the step that
  the runs of module Regions are made of.
*/
module RootStructs {
  import opened Basics
  import opened CleanupLog
  import opened Regions
  import opened StructLists

  /** The structs on the lists, and the pending one, with multiplicity. */
  function Placed(mem: Mem): multiset<Id> {
    multiset(mem.active) + multiset(mem.reserved) + multiset(mem.free) +
    (if mem.pending.Some? then multiset{mem.pending.value} else multiset{})
  }

  ghost predicate Once(mem: Mem) {
    forall id: Id :: Placed(mem)[id] <= 1
  }

  /** The struct is in nobody's hands but the caller's. */
  ghost predicate Loose(mem: Mem, id: Id) {
    id < |mem.regs| && Placed(mem)[id] == 0
  }

  lemma LooseIsOff(mem: Mem, id: Id)
    requires Loose(mem, id)
    ensures id !in mem.active && id !in mem.reserved && id !in mem.free
  {
    assert id in mem.active ==> multiset(mem.active)[id] > 0;
    assert id in mem.reserved ==> multiset(mem.reserved)[id] > 0;
    assert id in mem.free ==> multiset(mem.free)[id] > 0;
  }

  lemma OnceIsApart(mem: Mem)
    requires Once(mem)
    ensures Distinct(mem.active) && Distinct(mem.reserved) && Distinct(mem.free)
    ensures Apart(mem.active, mem.reserved) && Apart(mem.active, mem.free) && Apart(mem.reserved, mem.free)
  {
    forall id: Id ensures multiset(mem.active)[id] + multiset(mem.reserved)[id] + multiset(mem.free)[id] <= 1 {
      assert Placed(mem)[id] <= 1;
    }
    OnceIsDistinct(mem.active);
    OnceIsDistinct(mem.reserved);
    OnceIsDistinct(mem.free);
    forall id | id in mem.active ensures id !in mem.reserved && id !in mem.free {
      assert multiset(mem.active)[id] > 0;
      assert id in mem.reserved ==> multiset(mem.reserved)[id] > 0;
      assert id in mem.free ==> multiset(mem.free)[id] > 0;
    }
    forall id | id in mem.reserved ensures id !in mem.free {
      assert multiset(mem.reserved)[id] > 0;
      assert id in mem.free ==> multiset(mem.free)[id] > 0;
    }
  }

  /** The pointers spell out the lists. */
  ghost predicate Threads(next: Links, active: Option<Id>, tail: Option<Id>, reserved: Option<Id>, free: Option<Id>,
      mem: Mem)
  {
    && |next| == |mem.regs|
    && IsList(next, active, mem.active) && IsList(next, reserved, mem.reserved) && IsList(next, free, mem.free)
    && mem.tail < |mem.active| && tail == Some(mem.active[mem.tail])
  }

  ghost predicate Sound(next: Links, active: Option<Id>, tail: Option<Id>, reserved: Option<Id>, free: Option<Id>,
      mem: Mem)
  {
    Listed(mem) && Once(mem) && Threads(next, active, tail, reserved, free, mem)
  }

  // ----- each step of the code, on values

  lemma TakenIsLoose(mem: Mem)
    requires Once(mem) && |mem.free| > 0 && mem.free[0] < |mem.regs|
    ensures var m := mem.(free := mem.free[1..]); Once(m) && Loose(m, mem.free[0])
  {
    var id, m := mem.free[0], mem.(free := mem.free[1..]);
    assert mem.free == [id] + mem.free[1..];
    assert Placed(mem) == Placed(m) + multiset{id};
    forall x: Id ensures Placed(m)[x] <= 1 {
      assert Placed(mem)[x] <= 1;
    }
    assert Placed(mem)[id] <= 1;
  }

  lemma PopStep(next: Links, a: Option<Id>, t: Option<Id>, r: Option<Id>, f: Option<Id>, mem: Mem)
    requires Sound(next, a, t, r, f, mem) && |mem.free| > 0
    ensures var (id, m) := (mem.free[0], mem.(free := mem.free[1..]));
      f == Some(id) && Loose(m, id) && Sound(next[id := None], a, t, r, next[id], m)
  {
    var id := mem.free[0];
    TakenIsLoose(mem);
    OnceIsApart(mem);
    PopList(next, f, mem.free);
    assert id in mem.free;
    OtherList(next, next[id := None], a, mem.active);
    OtherList(next, next[id := None], r, mem.reserved);
  }

  /** One struct more, whatever else is lost, leaves every struct in one place. */
  lemma OneMore(mem: Mem, m: Mem, id: Id)
    requires Once(mem) && Loose(mem, id) && Placed(m) <= Placed(mem) + multiset{id}
    ensures Once(m)
  {
    forall x: Id ensures Placed(m)[x] <= 1 {
      assert Placed(m)[x] <= (Placed(mem) + multiset{id})[x] && Placed(mem)[x] <= 1;
    }
  }

  lemma AppendedOnce(mem: Mem, id: Id)
    requires Once(mem) && Loose(mem, id) && mem.tail < |mem.active|
    ensures Once(AppendActive(mem, id))
  {
    var m, cut := AppendActive(mem, id), mem.tail + 1;
    assert mem.active == mem.active[..cut] + mem.active[cut..];
    assert multiset(m.active) == multiset(mem.active[..cut]) + multiset{id};
    OneMore(mem, m, id);
  }

  lemma AppendStep(next: Links, a: Option<Id>, t: Option<Id>, r: Option<Id>, f: Option<Id>, mem: Mem, id: Id)
    requires Sound(next, a, t, r, f, mem) && Loose(mem, id)
    ensures t.Some? && t.value < |next|
    ensures Sound(AppendLinks(next, t.value, id), a, Some(id), r, f, AppendActive(mem, id))
  {
    var last := mem.active[mem.tail];
    assert last in mem.active;
    OnceIsApart(mem);
    LooseIsOff(mem, id);
    AppendedOnce(mem, id);
    AppendList(next, a, mem.active, mem.tail, id);
    OtherList(next, AppendLinks(next, last, id), r, mem.reserved);
    OtherList(next, AppendLinks(next, last, id), f, mem.free);
  }

  lemma InsertedOnce(mem: Mem, id: Id)
    requires Once(mem) && Loose(mem, id) && |mem.active| > 0
    ensures Once(InsertAfterHead(mem, id))
  {
    var m := InsertAfterHead(mem, id);
    assert mem.active == [mem.active[0]] + mem.active[1..];
    assert m.active == [mem.active[0]] + [id] + mem.active[1..];
    OneMore(mem, m, id);
  }

  lemma InsertedListed(regs: seq<Region>, ids: seq<Id>, id: Id)
    requires Known(regs, ids) && |ids| > 0 && id < |regs|
    ensures Known(regs, [ids[0], id] + ids[1..])
  {
    var longer := [ids[0], id] + ids[1..];
    forall i | 0 <= i < |longer| ensures longer[i] < |regs| {
      assert i > 1 ==> longer[i] == ids[i - 1];
    }
  }

  /** The tail pointer is not written, yet the position it names moves. */
  lemma InsertStep(next: Links, a: Option<Id>, t: Option<Id>, r: Option<Id>, f: Option<Id>, mem: Mem, id: Id)
    requires Sound(next, a, t, r, f, mem) && Loose(mem, id)
    ensures a.Some? && a.value < |next| && Sound(InsertLinks(next, a.value, id), a, t, r, f, InsertAfterHead(mem, id))
  {
    var head := mem.active[0];
    assert head in mem.active;
    OnceIsApart(mem);
    LooseIsOff(mem, id);
    InsertedOnce(mem, id);
    InsertedListed(mem.regs, mem.active, id);
    InsertList(next, a, mem.active, id);
    OtherList(next, InsertLinks(next, head, id), r, mem.reserved);
    OtherList(next, InsertLinks(next, head, id), f, mem.free);
  }

  lemma PushStep(next: Links, a: Option<Id>, t: Option<Id>, r: Option<Id>, f: Option<Id>, mem: Mem, id: Id)
    requires Sound(next, a, t, r, f, mem) && Loose(mem, id)
    ensures Sound(next[id := r], a, t, Some(id), f, mem.(reserved := [id] + mem.reserved))
  {
    OnceIsApart(mem);
    LooseIsOff(mem, id);
    OneMore(mem, mem.(reserved := [id] + mem.reserved), id);
    PushList(next, r, mem.reserved, id);
    OtherList(next, next[id := r], a, mem.active);
    OtherList(next, next[id := r], f, mem.free);
  }

  ghost predicate SameLists(mem: Mem, m: Mem) {
    && m.active == mem.active && m.tail == mem.tail && m.reserved == mem.reserved && m.free == mem.free
    && |m.regs| == |mem.regs| && m.pending == mem.pending
  }

  /** What the structs say besides `next` does not matter to the lists. */
  lemma ContentStep(next: Links, a: Option<Id>, t: Option<Id>, r: Option<Id>, f: Option<Id>, mem: Mem, m: Mem)
    requires Sound(next, a, t, r, f, mem) && SameLists(mem, m)
    ensures Sound(next, a, t, r, f, m) && forall id :: Loose(mem, id) ==> Loose(m, id)
  {
    assert Placed(m) == Placed(mem);
  }

  /** A loose struct becomes the pending one. */
  lemma ProposeStep(next: Links, a: Option<Id>, t: Option<Id>, r: Option<Id>, f: Option<Id>, mem: Mem, id: Id)
    requires Sound(next, a, t, r, f, mem) && Loose(mem, id) && mem.pending == None
    ensures Sound(next, a, t, r, f, mem.(pending := Some(id)))
  {
    OneMore(mem, mem.(pending := Some(id)), id);
  }

  /** The pending struct becomes loose. */
  lemma AdoptStep(next: Links, a: Option<Id>, t: Option<Id>, r: Option<Id>, f: Option<Id>, mem: Mem)
    requires Sound(next, a, t, r, f, mem) && mem.pending.Some?
    ensures var m := mem.(pending := None); Sound(next, a, t, r, f, m) && Loose(m, mem.pending.value)
  {
    var id, m := mem.pending.value, mem.(pending := None);
    assert Placed(mem) == Placed(m) + multiset{id};
    assert Placed(mem)[id] <= 1;
    forall x: Id ensures Placed(m)[x] <= 1 {
      assert Placed(mem)[x] <= 1;
    }
  }

  /** The struct that is about to be used is not the one it takes its range from. */
  lemma FirstsDiffer(mem: Mem)
    requires Once(mem) && |mem.free| > 0 && |mem.reserved| > 0
    ensures mem.free[0] != mem.reserved[0]
  {
    OnceIsApart(mem);
    assert mem.free[0] in mem.free && mem.reserved[0] in mem.reserved;
  }

  /** The contents of struct `id` and of the first reserved one after a cut. */
  ghost function Cut(mem: Mem, id: Id, len: nat, prot: Prot): Mem
    requires id < |mem.regs| && |mem.reserved| > 0 && mem.reserved[0] < |mem.regs|
    requires mem.regs[mem.reserved[0]].len >= len && mem.tmpfileSize >= len
  {
    var from := mem.reserved[0];
    var base := mem.regs[from];
    mem.(regs := mem.regs[id := Region(base.vaddr, len, prot, Some(mem.tmpfileSize - len))]
                         [from := base.(vaddr := base.vaddr + len, len := base.len - len)],
         fileLen := mem.tmpfileSize,
         owner := Own(mem.owner, base.vaddr, len, id))
  }

  /** Whenever the event can happen with this root struct, the other one is what it leaves. */
  ghost predicate Leaves(before: Mem, e: Event, after: Mem) {
    forall s: Sys {:trigger Next(s, e)} :: s.mem == before && Can(s, e) ==> Next(s, e).mem == after
  }

  lemma MmapLeaves(mem: Mem, p: Pid, len: nat, prot: Prot)
    requires HasFreeRegion(mem) && mem.tail < |mem.active| && |mem.reserved| > 0 && mem.reserved[0] < |mem.regs|
    requires mem.regs[mem.reserved[0]].len >= len
    ensures Leaves(mem, Mmap(p, len, prot), DoMmap(mem, len, prot))
    ensures Leaves(mem, MmapNoSpace(p, len), mem.(tmpfileSize := mem.tmpfileSize + len))
  {
  }

  lemma ImportLeaves(mem: Mem, p: Pid, vaddr: nat, len: nat, prot: Prot, outcome: Outcome)
    requires HasFreeRegion(mem) && mem.tail < |mem.active|
    ensures Leaves(mem, Import(p, vaddr, len, prot, outcome), DoImport(mem, vaddr, len, prot, outcome))
  {
  }

  lemma ImportNoneLeaves(mem: Mem, p: Pid, vaddr: nat, len: nat, mapped: bool)
    requires HasFreeRegion(mem) && |mem.active| > 0
    ensures Leaves(mem, ImportNone(p, vaddr, len, mapped), DoImportNone(mem, vaddr, len, mapped))
  {
  }

  lemma PostLeaves(mem: Mem, p: Pid, range: Range)
    requires HasFreeRegion(mem)
    ensures Leaves(mem, Log(PostCommit(p, Reserve(range))), DoPropose(mem, range))
  {
  }

  /** The cleaner frees a RESERVE step. */
  ghost predicate AdoptLeaves(before: Mem, p: Pid, after: Mem) {
    forall s: Sys {:trigger Next(s, Log(FreeHead(p)))} ::
      s.mem == before && Can(s, Log(FreeHead(p))) && s.log.log[0].op.Reserve? ==>
        Next(s, Log(FreeHead(p))).mem == after
  }

  lemma AdoptIsLeft(mem: Mem, p: Pid)
    requires mem.pending.Some? && mem.pending.value < |mem.regs|
    ensures AdoptLeaves(mem, p, DoAdopt(mem))
  {
  }

  /** What the codes say, in terms of the state they leave. */
  lemma ImportCodes(mem: Mem, vaddr: nat, len: nat, prot: Prot, outcome: Outcome)
    requires HasFreeRegion(mem) && mem.tail < |mem.active| && len > 0
    requires mem.free[0] !in mem.half && mem.fileLen <= mem.tmpfileSize
    ensures var m := DoImport(mem, vaddr, len, prot, outcome);
      && mem.free[0] in m.active
      && (outcome.Done? <==> m.half == mem.half)
      && (outcome.NotExtended? <==> m.fileLen == mem.fileLen)
      && (!outcome.NotExtended? <==> m.fileLen == mem.tmpfileSize + len)
  {
    var m := DoImport(mem, vaddr, len, prot, outcome);
    assert m.active[mem.tail + 1] == mem.free[0];
    assert !outcome.Done? ==> mem.free[0] in m.half;
  }

  lemma MmapInSteps(mem: Mem, len: nat, prot: Prot)
    requires Listed(mem) && HasFreeRegion(mem) && |mem.reserved| > 0 && mem.free[0] != mem.reserved[0]
    requires mem.regs[mem.reserved[0]].len > len && mem.tmpfileSize >= len
    ensures DoMmap(mem.(tmpfileSize := mem.tmpfileSize - len), len, prot) ==
            Cut(AppendActive(mem.(free := mem.free[1..]), mem.free[0]), mem.free[0], len, prot)
  {
  }

  /** The first free struct is on no other list. */
  lemma FreeIsNotActive(mem: Mem)
    requires Once(mem) && |mem.free| > 0
    ensures mem.free[0] !in mem.active
  {
    OnceIsApart(mem);
    assert mem.free[0] in mem.free;
  }

  /** 0: listed, and nothing left half done.  3: listed, and the file no longer than before.  4, 5:
      listed and left half done, with the file extended. */
  ghost predicate CodeFits(before: Mem, after: Mem, len: nat, rc: nat)
    requires |before.free| > 0
  {
    var lists := before.free[0] in after.active;
    && (rc == 1 <==> !lists)
    && (rc == 0 <==> lists && after.half == before.half)
    && (rc == 3 <==> lists && after.fileLen == before.fileLen)
    && (rc == 4 || rc == 5 <==> lists && after.half != before.half && after.fileLen == before.tmpfileSize + len)
  }

  class RootStruct {
    var regs: seq<Region>
    var next: Links
    var activeRegions: Option<Id>
    var activeTail: Option<Id>
    var reservedRegions: Option<Id>
    var freeStructs: Option<Id>
    var pending: Option<Id>
    var tmpfileSize: nat
    var fileLen: nat
    var prealloc: bool
    var newcomers: set<Pid>
    ghost var view: Mem

    /** The fields say what `view` says, and the pointers spell out its lists. */
    ghost predicate Valid()
      reads this
    {
      && regs == view.regs && pending == view.pending && tmpfileSize == view.tmpfileSize
      && fileLen == view.fileLen && prealloc == view.prealloc && newcomers == view.newcomers
      && Sound(next, activeRegions, activeTail, reservedRegions, freeStructs, view)
    }

    /** sc_init up to its first unlock: page 0 and the first reservation.  The file is zero where
        nothing was written, so every `next` is null at first. */
    constructor Format(g: Grant)
      requires GoodGrant(g)
      ensures view == Formatted(g) && Valid()
    {
      var first := Region(g.root, PAGE, ProtRW, Some(0));
      var second := Region(g.reserve, FIRST_RESERVE, ProtNone, None);
      regs := [first, second] + seq(g.structs - 2, _ => Region(0, 0, ProtNone, None));
      activeRegions, activeTail, reservedRegions, pending := Some(0), Some(0), Some(1), None;
      tmpfileSize, fileLen, prealloc, newcomers := PAGE, PAGE, false, {g.creator};
      freeStructs := Some(2);
      var links: Links := seq(g.structs, _ => None);
      var i := 3;
      while i < g.structs
        invariant 3 <= i <= g.structs && |links| == g.structs
        invariant forall k :: 0 <= k < |links| ==> links[k] == if 2 <= k < i - 1 then Some(k + 1) else None
      {
        links := links[i - 1 := Some(i)];
        i := i + 1;
      }
      FormattedIsSound(g, links);
      next := links;
      view := Formatted(g);
    }

    /** Pop the first free struct; the list keeps at least one. */
    method GetFreeRegion() returns (id: Id)
      requires Valid() && HasFreeRegion(view)
      modifies this`freeStructs, this`next, this`view
      ensures Valid() && id == old(view).free[0] && view == old(view).(free := old(view).free[1..])
      ensures Loose(view, id)
    {
      PopStep(next, activeRegions, activeTail, reservedRegions, freeStructs, view);
      id := freeStructs.value;
      freeStructs := next[id];
      next := next[id := None];
      view := view.(free := view.free[1..]);
    }

    /** Hang a struct behind the tail. */
    method AppendTail(id: Id)
      requires Valid() && Loose(view, id)
      modifies this`next, this`activeTail, this`view
      ensures Valid() && view == AppendActive(old(view), id)
    {
      ghost var m := AppendActive(view, id);
      AppendStep(next, activeRegions, activeTail, reservedRegions, freeStructs, view, id);
      var oldTail := activeTail.value;
      HangBehind(oldTail, id);
      activeTail := Some(id);
      view := m;
    }

    method HangBehind(tail: Id, id: Id)
      requires tail < |next| && id < |next|
      modifies this`next
      ensures next == AppendLinks(old(next), tail, id)
    {
      next := next[tail := Some(id)];
      next := next[id := None];
    }

    /** Hang a struct behind the head; the tail pointer stays on its struct. */
    method InsertBehindHead(id: Id)
      requires Valid() && Loose(view, id)
      modifies this`next, this`view
      ensures Valid() && view == InsertAfterHead(old(view), id)
    {
      InsertStep(next, activeRegions, activeTail, reservedRegions, freeStructs, view, id);
      var head := activeRegions.value;
      next := next[id := next[head]];
      next := next[head := Some(id)];
      view := InsertAfterHead(view, id);
    }

    /** Put a struct at the front of the reserved list. */
    method PushReserved(id: Id)
      requires Valid() && Loose(view, id)
      modifies this`next, this`reservedRegions, this`view
      ensures Valid() && view == old(view).(reserved := [id] + old(view).reserved)
    {
      PushStep(next, activeRegions, activeTail, reservedRegions, freeStructs, view, id);
      next := next[id := reservedRegions];
      reservedRegions := Some(id);
      view := view.(reserved := [id] + view.reserved);
    }

    /** `grown` is the outcome of ftruncate; the size is bumped before it is known. */
    method Mmap(length: nat, prot: Prot, grown: bool) returns (vaddr: Option<nat>)
      requires Valid() && HasFreeRegion(view) && |view.reserved| > 0 && view.regs[view.reserved[0]].len > length
      modifies this
      ensures Valid()
      ensures grown ==> view == DoMmap(old(view), length, prot)
      ensures grown ==> forall p :: Leaves(old(view), Event.Mmap(p, length, prot), view)
      ensures !grown ==> forall p :: Leaves(old(view), MmapNoSpace(p, length), view)
      ensures grown ==> vaddr == Some(old(view).regs[old(view).reserved[0]].vaddr)
      ensures !grown ==> vaddr == None
      ensures !grown ==> view == old(view).(tmpfileSize := old(tmpfileSize) + length)
    {
      forall p {
        MmapLeaves(view, p, length, prot);
      }
      ghost var m := view.(tmpfileSize := tmpfileSize + length);
      ContentStep(next, activeRegions, activeTail, reservedRegions, freeStructs, view, m);
      tmpfileSize := tmpfileSize + length;
      view := m;
      if !grown {
        return None;
      }
      vaddr := TakeRange(length, prot);
    }

    /** The file has been extended: take a struct, cut the range from the front of the first reserved
        region, and hang the struct behind the tail. */
    method TakeRange(length: nat, prot: Prot) returns (vaddr: Option<nat>)
      requires Valid() && HasFreeRegion(view) && |view.reserved| > 0 && view.regs[view.reserved[0]].len > length
      requires tmpfileSize >= length
      modifies this
      ensures Valid() && view == DoMmap(old(view).(tmpfileSize := old(tmpfileSize) - length), length, prot)
      ensures vaddr == Some(old(view).regs[old(view).reserved[0]].vaddr)
    {
      FirstsDiffer(view);
      MmapInSteps(view, length, prot);
      var id := GetFreeRegion();
      AppendTail(id);
      var base := CutReserved(id, length, prot);
      return Some(base);
    }

    /** Fill in the new region and take its bytes from the front of the first reserved one. */
    method CutReserved(id: Id, length: nat, prot: Prot) returns (base: nat)
      requires Valid() && |view.reserved| > 0 && id < |view.regs| && id != view.reserved[0]
      requires view.regs[view.reserved[0]].len > length && tmpfileSize >= length
      modifies this`regs, this`fileLen, this`view
      ensures Valid() && base == old(view).regs[old(view).reserved[0]].vaddr
      ensures view == Cut(old(view), id, length, prot)
    {
      ghost var m := Cut(view, id, length, prot);
      ContentStep(next, activeRegions, activeTail, reservedRegions, freeStructs, view, m);
      var from := reservedRegions.value;
      base := regs[from].vaddr;
      regs := regs[id := Region(base, length, prot, Some(tmpfileSize - length))];
      var rest := regs[from];
      regs := regs[from := rest.(vaddr := rest.vaddr + length, len := rest.len - length)];
      fileLen := tmpfileSize;
      view := m;
    }

    /** sc_import's scan of the active list. */
    method Overlaps(vaddr: nat, len: nat) returns (found: bool)
      requires Valid()
      ensures found == OverlapsActive(view, vaddr, len)
    {
      found := OverlapsFrom(vaddr, len, activeRegions, view.active);
    }

    method OverlapsFrom(vaddr: nat, len: nat, head: Option<Id>, ghost ids: seq<Id>) returns (found: bool)
      requires |next| == |regs| && IsList(next, head, ids)
      ensures Known(regs, ids)
      ensures found == exists id :: id in ids && vaddr < regs[id].vaddr + regs[id].len && regs[id].vaddr < vaddr + len
    {
      var cur := head;
      ghost var i := 0;
      while cur.Some?
        invariant 0 <= i <= |ids| && cur == NthOf(ids, i)
        invariant forall k :: 0 <= k < i ==>
          !(vaddr < regs[ids[k]].vaddr + regs[ids[k]].len && regs[ids[k]].vaddr < vaddr + len)
        decreases |ids| - i
      {
        var r := regs[cur.value];
        if vaddr < r.vaddr + r.len && r.vaddr < vaddr + len {
          assert ids[i] in ids;
          return true;
        }
        cur := next[cur.value];
        i := i + 1;
      }
      return false;
    }

    /** In every outcome the return code tells what state the import leaves. */
    method Import(vaddr: nat, len: nat, prot: Prot, outcome: Outcome) returns (rc: nat)
      requires Valid() && HasFreeRegion(view)
      modifies this
      ensures Valid()
      ensures rc == 1 <==> OverlapsActive(old(view), vaddr, len)
      ensures rc == 1 ==> view == old(view)
      ensures rc != 1 ==> view == DoImport(old(view), vaddr, len, prot, outcome)
      ensures rc != 1 ==> forall p :: Leaves(old(view), Event.Import(p, vaddr, len, prot, outcome), view)
      ensures rc == 0 <==> rc != 1 && outcome.Done?
      ensures rc == 3 <==> rc != 1 && outcome.NotExtended?
      ensures rc == 4 <==> rc != 1 && outcome.NotCopied?
      ensures rc == 5 <==> rc != 1 && outcome.NotMapped?
      ensures rc == 0 || rc == 1 || rc == 3 || rc == 4 || rc == 5
      ensures len > 0 && old(view).free[0] !in old(view).half && old(fileLen) <= old(tmpfileSize) ==>
        CodeFits(old(view), view, len, rc)
    {
      var duplicate := Overlaps(vaddr, len);
      if duplicate {
        FreeIsNotActive(view);
        return 1;
      }
      forall p {
        ImportLeaves(view, p, vaddr, len, prot, outcome);
      }
      if len > 0 && view.free[0] !in view.half && fileLen <= tmpfileSize {
        ImportCodes(view, vaddr, len, prot, outcome);
      }
      rc := ListImport(vaddr, len, prot, outcome);
    }

    /** The range is no duplicate: list it, then try to extend the file, copy and replace. */
    method ListImport(vaddr: nat, len: nat, prot: Prot, outcome: Outcome) returns (rc: nat)
      requires Valid() && HasFreeRegion(view)
      modifies this
      ensures Valid()
      ensures rc == match outcome case Done => 0 case NotExtended => 3 case NotCopied => 4 case NotMapped => 5
      ensures view == DoImport(old(view), vaddr, len, prot, outcome)
    {
      ghost var m := DoImport(view, vaddr, len, prot, outcome);
      var id := GetFreeRegion();
      AppendTail(id);
      ContentStep(next, activeRegions, activeTail, reservedRegions, freeStructs, view, m);
      regs := regs[id := Region(vaddr, len, prot, Some(tmpfileSize))];
      tmpfileSize := tmpfileSize + len;
      view := m;
      if outcome.NotExtended? {
        return 3;
      }
      fileLen := tmpfileSize;
      rc := if outcome.NotCopied? then 4 else if outcome.NotMapped? then 5 else 0;
    }

    method ImportProtNone(vaddr: nat, len: nat, mapped: bool) returns (rc: nat)
      requires Valid() && HasFreeRegion(view)
      modifies this
      ensures Valid() && view == DoImportNone(old(view), vaddr, len, mapped) && rc == if mapped then 0 else 5
      ensures forall p :: Leaves(old(view), ImportNone(p, vaddr, len, mapped), view)
    {
      forall p {
        ImportNoneLeaves(view, p, vaddr, len, mapped);
      }
      ghost var m := DoImportNone(view, vaddr, len, mapped);
      var id := GetFreeRegion();
      InsertBehindHead(id);
      ContentStep(next, activeRegions, activeTail, reservedRegions, freeStructs, view, m);
      regs := regs[id := Region(vaddr, len, ProtNone, None)];
      view := m;
      rc := if mapped then 0 else 5;
    }

    /** The part of posting a reservation that touches regions. */
    method Propose(range: Range)
      requires Valid() && HasFreeRegion(view) && pending.None?
      modifies this
      ensures Valid() && view == DoPropose(old(view), range)
      ensures forall p :: Leaves(old(view), Log(PostCommit(p, Reserve(range))), view)
    {
      forall p {
        PostLeaves(view, p, range);
      }
      ghost var m := DoPropose(view, range);
      var id := GetFreeRegion();
      ProposeStep(next, activeRegions, activeTail, reservedRegions, freeStructs, view, id);
      ContentStep(next, activeRegions, activeTail, reservedRegions, freeStructs, view.(pending := Some(id)), m);
      regs := regs[id := Region(range.vaddr, range.len, ProtNone, None)];
      pending := Some(id);
      view := m;
    }

    /** The cleaner's action for a RESERVE step. */
    method Adopt()
      requires Valid() && pending.Some?
      modifies this
      ensures Valid() && view == DoAdopt(old(view))
      ensures forall p :: AdoptLeaves(old(view), p, view)
    {
      forall p {
        AdoptIsLeft(view, p);
      }
      ghost var m := DoAdopt(view);
      AdoptStep(next, activeRegions, activeTail, reservedRegions, freeStructs, view);
      var id := pending.value;
      pending := None;
      view := view.(pending := None);
      PushReserved(id);
      ContentStep(next, activeRegions, activeTail, reservedRegions, freeStructs, view, m);
      view := m;
    }

    /** The fault handler's walk. */
    method FindRegion(vaddr: nat) returns (found: Option<Id>)
      requires Valid()
      ensures found == Find(view.regs, view.active, vaddr)
    {
      found := FindFrom(vaddr, activeRegions, view.active);
    }

    method FindFrom(vaddr: nat, head: Option<Id>, ghost ids: seq<Id>) returns (found: Option<Id>)
      requires |next| == |regs| && IsList(next, head, ids)
      ensures Known(regs, ids) && found == Find(regs, ids, vaddr)
    {
      var cur := head;
      ghost var i := 0;
      assert ids[0..] == ids;
      while cur.Some?
        invariant 0 <= i <= |ids| && cur == NthOf(ids, i)
        invariant Find(regs, ids, vaddr) == Find(regs, ids[i..], vaddr)
        decreases |ids| - i
      {
        var r := regs[cur.value];
        if r.vaddr <= vaddr < r.vaddr + r.len {
          return cur;
        }
        cur := next[cur.value];
        assert ids[i..][1..] == ids[i + 1..];
        i := i + 1;
      }
      return None;
    }

    /** One walk of sc_join over a list, from struct `head` on. */
    method MapList(start: Space, head: Option<Id>, ghost ids: seq<Id>) returns (space: Option<Space>)
      requires |next| == |regs| && IsList(next, head, ids)
      ensures Known(regs, ids) && space == MapAll(start, regs, ids)
    {
      var here, cur := start, head;
      ghost var i := 0;
      assert ids[0..] == ids;
      while cur.Some?
        invariant 0 <= i <= |ids| && cur == NthOf(ids, i)
        invariant MapAll(start, regs, ids) == MapAll(here, regs, ids[i..])
        decreases |ids| - i
      {
        var r := regs[cur.value];
        if !Fresh(here, r.vaddr, r.len) {
          return None;
        }
        here := MapRegion(here, r);
        assert ids[i..][1..] == ids[i + 1..];
        cur := next[cur.value];
        i := i + 1;
      }
      return Some(here);
    }

    /** sc_join up to registration.  The root page is mapped first; only then is the process struct
        taken, and the two walks follow, the first from the second active region on. */
    method MapForJoin(private: set<nat>) returns (space: Option<Space>)
      requires Valid()
      modifies this`prealloc, this`view
      ensures Valid()
      ensures RootTaken(old(view), private) || !old(prealloc) ==> space == None && view == old(view)
      ensures !RootTaken(old(view), private) && old(prealloc) ==>
        view == old(view).(prealloc := false) && space == JoinSpace(old(view), private)
    {
      ghost var m := view.(prealloc := false);
      ContentStep(next, activeRegions, activeTail, reservedRegions, freeStructs, view, m);
      RestIsList(next, activeRegions, view.active);
      var root := activeRegions.value;
      var here := StartSpace(private);
      if !Fresh(here, regs[root].vaddr, regs[root].len) {
        return None;
      }
      here := MapRegion(here, regs[root]);
      if !prealloc {
        return None;
      }
      prealloc := false;
      view := m;
      space := MapList(here, next[root], view.active[1..]);
      if space.Some? {
        space := MapList(space.value, reservedRegions, view.reserved);
      }
    }
  }

  lemma RestIsList(next: Links, head: Option<Id>, ids: seq<Id>)
    requires IsList(next, head, ids) && |ids| > 0
    ensures IsList(next, next[ids[0]], ids[1..])
  {
    var rest := ids[1..];
    assert next[ids[0]] == NthOf(ids, 1);
    forall i | 0 <= i < |rest| ensures rest[i] < |next| && next[rest[i]] == NthOf(rest, i + 1) {
      assert rest[i] == ids[i + 1];
    }
  }

  lemma FormattedIsSound(g: Grant, links: Links)
    requires GoodGrant(g) && |links| == g.structs
    requires forall k :: 0 <= k < |links| ==> links[k] == if 2 <= k < g.structs - 1 then Some(k + 1) else None
    ensures Sound(links, Some(0), Some(0), Some(1), Some(2), Formatted(g))
  {
    var mem := Formatted(g);
    FormattedOnce(g);
    assert IsList(links, Some(2), mem.free);
  }

  lemma FormattedOnce(g: Grant)
    requires GoodGrant(g)
    ensures Once(Formatted(g))
  {
    var mem := Formatted(g);
    forall id: Id ensures Placed(mem)[id] <= 1 {
      DistinctIsOnce(mem.free, id);
      assert multiset(mem.active) == multiset{0} && multiset(mem.reserved) == multiset{1};
    }
  }

  lemma {:induction false} DistinctIsOnce(ids: seq<Id>, id: Id)
    requires Distinct(ids)
    ensures multiset(ids)[id] == if id in ids then 1 else 0
  {
    if |ids| > 0 {
      assert ids == [ids[0]] + ids[1..];
      DistinctIsOnce(ids[1..], id);
    }
  }
}
