/**
  Mappings between subcontexts and the lists that record which mapping was derived from which.
  An indirect mapping has two list elements, one in the dependency list of each parent.
*/
module Mappings {
  import opened Basics

  type Id = nat

  datatype Kind = Read | Write | ReadWrite

  datatype Mapping = Mapping(direct: bool, from: nat, to: nat, kind: Kind)

  datatype Which = First | Second

  /** dependency_list_elem1 or 2 of a mapping. */
  datatype Elem = Elem(mapping: Id, which: Which)

  /** All mapping structs and their dependency lists. */
  datatype Net = Net(table: map<Id, Mapping>, deps: map<Id, seq<Elem>>)

  // ----- lists

  /** list_del: take one element off the list, if it is there. */
  function Without(s: seq<Elem>, e: Elem): (t: seq<Elem>)
    ensures forall x :: x in t <==> x in s && x != e
  {
    if |s| == 0 then []
    else if s[0] == e then Without(s[1..], e)
    else [s[0]] + Without(s[1..], e)
  }

  /** The elements whose mappings are not in `gone`, in order. */
  function Survive(s: seq<Elem>, gone: set<Id>): (t: seq<Elem>)
    ensures forall x :: x in t <==> x in s && x.mapping !in gone
  {
    if |s| == 0 then []
    else if s[0].mapping in gone then Survive(s[1..], gone)
    else [s[0]] + Survive(s[1..], gone)
  }

  lemma SurviveCons(e: Elem, s: seq<Elem>, gone: set<Id>)
    ensures Survive([e] + s, gone) == if e.mapping in gone then Survive(s, gone) else [e] + Survive(s, gone)
  {
    assert ([e] + s)[1..] == s;
  }

  lemma WithoutCons(e: Elem, s: seq<Elem>, x: Elem)
    ensures Without([e] + s, x) == if e == x then Without(s, x) else [e] + Without(s, x)
  {
    assert ([e] + s)[1..] == s;
  }

  lemma {:induction false} TwoDeletes(s: seq<Elem>, m: Id)
    ensures Without(Without(s, Elem(m, First)), Elem(m, Second)) == Survive(s, {m})
  {
    if |s| > 0 {
      var e, t := s[0], Without(s[1..], Elem(m, First));
      TwoDeletes(s[1..], m);
      WithoutCons(e, t, Elem(m, Second));
      if e.mapping == m {
        assert e == match e.which { case First => Elem(m, First) case Second => Elem(m, Second) };
      }
    }
  }

  lemma {:induction false} SurviveAgain(s: seq<Elem>, a: set<Id>, b: set<Id>)
    ensures Survive(Survive(s, a), b) == Survive(s, a + b)
  {
    if |s| > 0 {
      SurviveAgain(s[1..], a, b);
      SurviveCons(s[0], Survive(s[1..], a), b);
    }
  }

  lemma {:induction false} SurviveNobody(s: seq<Elem>)
    ensures Survive(s, {}) == s
  {
    if |s| > 0 {
      SurviveNobody(s[1..]);
    }
  }

  /** Deleting keeps order and distinctness. */
  lemma {:induction false} SurviveDistinct(s: seq<Elem>, gone: set<Id>)
    requires Distinct(s)
    ensures Distinct(Survive(s, gone))
  {
    if |s| > 0 {
      SurviveDistinct(s[1..], gone);
      assert s[0] !in s[1..];
    }
  }

  // ----- dependency

  predicate DependsDirectly(n: Net, x: Id, y: Id) {
    x in n.deps && (Elem(y, First) in n.deps[x] || Elem(y, Second) in n.deps[x])
  }

  /** Each mapping on the path was derived with the help of the one before. */
  ghost predicate IsPath(n: Net, path: seq<Id>) {
    |path| > 0 && forall i :: 0 <= i < |path| - 1 ==> DependsDirectly(n, path[i], path[i + 1])
  }

  ghost predicate IsPathTo(n: Net, root: Id, x: Id, path: seq<Id>) {
    IsPath(n, path) && path[0] == root && path[|path| - 1] == x
  }

  /** `x` is `root` or was derived from it in one or more steps. */
  ghost predicate Dependent(n: Net, root: Id, x: Id) {
    exists path :: IsPathTo(n, root, x, path)
  }

  // ----- well-formed nets

  /** `parent` says which list each element is on. */
  ghost predicate Wf(n: Net, parent: map<Elem, Id>) {
    && n.deps.Keys == n.table.Keys
    && (forall x, e :: x in n.deps && e in n.deps[x] ==> e in parent && parent[e] == x)
    && (forall e :: e in parent ==> parent[e] in n.deps && e in n.deps[parent[e]])
    && (forall x :: x in n.deps ==> Distinct(n.deps[x]))
    && (forall e :: e in parent <==> e.mapping in n.table && !n.table[e.mapping].direct)
  }

  /** What is left of the net when the mappings in `gone` are taken out. */
  function Rest(n: Net, gone: set<Id>): Net {
    Net(n.table - gone, map x | x in n.deps && x !in gone :: Survive(n.deps[x], gone))
  }

  function RestParent(parent: map<Elem, Id>, gone: set<Id>): map<Elem, Id> {
    map e | e in parent && e.mapping !in gone :: parent[e]
  }

  /** Nothing that remains was derived from something that is gone. */
  ghost predicate Closed(parent: map<Elem, Id>, gone: set<Id>) {
    forall e :: e in parent && parent[e] in gone ==> e.mapping in gone
  }

  lemma RestLists(n: Net, parent: map<Elem, Id>, gone: set<Id>, x: Id)
    requires Wf(n, parent) && x in n.deps && x !in gone
    ensures var r, p := Rest(n, gone), RestParent(parent, gone);
      && x in r.deps && Distinct(r.deps[x])
      && forall e :: e in r.deps[x] <==> e in p && p[e] == x
  {
    SurviveDistinct(n.deps[x], gone);
  }

  lemma RestKeys(n: Net, gone: set<Id>)
    requires n.deps.Keys == n.table.Keys
    ensures Rest(n, gone).deps.Keys == Rest(n, gone).table.Keys == n.deps.Keys - gone
  {
  }

  lemma RestIsWf(n: Net, parent: map<Elem, Id>, gone: set<Id>)
    requires Wf(n, parent) && Closed(parent, gone)
    ensures Wf(Rest(n, gone), RestParent(parent, gone))
  {
    var r, p := Rest(n, gone), RestParent(parent, gone);
    RestKeys(n, gone);
    forall x | x in r.deps
      ensures Distinct(r.deps[x]) && forall e :: e in r.deps[x] <==> e in p && p[e] == x
    {
      assert x in n.deps.Keys - gone;
      RestLists(n, parent, gone, x);
    }
    forall e | e in p ensures p[e] in r.deps {
      assert p[e] in n.deps.Keys - gone;
    }
  }

  // ----- derivations

  predicate Derives(a: Mapping, b: Mapping, m: Mapping) {
    DerivesInOrder(a, b, m) || DerivesInOrder(b, a, m)
  }

  /** Rule A joins a read and a write mapping; rule B goes through another subcontext. */
  predicate DerivesInOrder(a: Mapping, b: Mapping, m: Mapping) {
    || (&& a.from == b.from == m.from && a.to == b.to == m.to
        && a.kind == Read && b.kind == Write && m.kind == ReadWrite)
    || (a.from == m.from && a.to == b.from && b.to == m.to && m.kind == b.kind)
  }

  /** `m` is a direct mapping or follows from its two recorded parents in at most `height` steps,
      all within the table. */
  ghost predicate Derivable(table: map<Id, Mapping>, parent: map<Elem, Id>, m: Id, height: nat)
    decreases height
  {
    m in table &&
    (table[m].direct ||
     (&& height > 0 && Elem(m, First) in parent && Elem(m, Second) in parent
      && var a, b := parent[Elem(m, First)], parent[Elem(m, Second)];
         && Derivable(table, parent, a, height - 1) && Derivable(table, parent, b, height - 1)
         && Derives(table[a], table[b], table[m])))
  }

  /** Revocation is sound: whatever survives has both its parents, and follows as before, but now
      from surviving direct mappings alone. */
  lemma {:induction false} SurvivorsAreDerivable(
      n: Net, parent: map<Elem, Id>, gone: set<Id>, m: Id, height: nat)
    requires Wf(n, parent) && Closed(parent, gone)
    requires Derivable(n.table, parent, m, height) && m !in gone
    ensures Derivable(Rest(n, gone).table, RestParent(parent, gone), m, height)
    decreases height
  {
    if !n.table[m].direct {
      SurvivorsAreDerivable(n, parent, gone, parent[Elem(m, First)], height - 1);
      SurvivorsAreDerivable(n, parent, gone, parent[Elem(m, Second)], height - 1);
    }
  }

  // ----- dependence is underivability

  lemma DependsThroughParent(n: Net, parent: map<Elem, Id>, root: Id, e: Elem)
    requires Wf(n, parent) && e in parent && Dependent(n, root, parent[e])
    ensures Dependent(n, root, e.mapping)
  {
    var path :| IsPathTo(n, root, parent[e], path);
    assert e == match e.which { case First => Elem(e.mapping, First) case Second => Elem(e.mapping, Second) };
    assert IsPathTo(n, root, e.mapping, path + [e.mapping]);
  }

  lemma DependsOnlyThroughParents(n: Net, parent: map<Elem, Id>, root: Id, m: Id)
    requires Wf(n, parent) && Dependent(n, root, m) && m != root
    ensures exists e :: e in parent && e.mapping == m && Dependent(n, root, parent[e])
  {
    var path :| IsPathTo(n, root, m, path);
    var k := |path| - 1;
    assert DependsDirectly(n, path[k - 1], path[k]);
    assert IsPathTo(n, root, path[k - 1], path[..k]);
    var e := if Elem(m, First) in n.deps[path[k - 1]] then Elem(m, First) else Elem(m, Second);
    assert e in parent && parent[e] == path[k - 1];
  }

  /** A mapping depends on `root` exactly if its derivation fails without `root`.  So removing the
      dependents removes exactly what can no longer be derived. */
  lemma {:induction false} DependentIffUnderivable(n: Net, parent: map<Elem, Id>, root: Id, m: Id, height: nat)
    requires Wf(n, parent) && Derivable(n.table, parent, m, height)
    ensures Dependent(n, root, m) <==> !Derivable(n.table - {root}, parent, m, height)
    decreases height
  {
    if m == root {
      assert IsPathTo(n, root, root, [root]);
    } else if n.table[m].direct {
      if Dependent(n, root, m) {
        DependsOnlyThroughParents(n, parent, root, m);
      }
    } else {
      var a, b := parent[Elem(m, First)], parent[Elem(m, Second)];
      DependentIffUnderivable(n, parent, root, a, height - 1);
      DependentIffUnderivable(n, parent, root, b, height - 1);
      if Dependent(n, root, a) {
        DependsThroughParent(n, parent, root, Elem(m, First));
      }
      if Dependent(n, root, b) {
        DependsThroughParent(n, parent, root, Elem(m, Second));
      }
      if Dependent(n, root, m) {
        DependsOnlyThroughParents(n, parent, root, m);
        var e :| e in parent && e.mapping == m && Dependent(n, root, parent[e]);
        assert e == match e.which { case First => Elem(m, First) case Second => Elem(m, Second) };
      }
    }
  }

  // ----- what a derivation is worth

  /** Direct mappings that lead from one subcontext to another, each starting where the one before
      ends. */
  ghost predicate Chain(table: map<Id, Mapping>, from: nat, to: nat, chain: seq<Id>) {
    && |chain| > 0
    && (forall i :: 0 <= i < |chain| ==> chain[i] in table && table[chain[i]].direct)
    && table[chain[0]].from == from && table[chain[|chain| - 1]].to == to
    && forall i :: 0 <= i < |chain| - 1 ==> table[chain[i]].to == table[chain[i + 1]].from
  }

  predicate Grants(kind: Kind, reading: bool) {
    kind == ReadWrite || (reading <==> kind == Read)
  }

  /** A chain of direct mappings whose last one grants the access. */
  ghost predicate Grounded(table: map<Id, Mapping>, from: nat, to: nat, reading: bool) {
    exists chain :: GroundedBy(table, from, to, reading, chain)
  }

  ghost predicate GroundedBy(table: map<Id, Mapping>, from: nat, to: nat, reading: bool, chain: seq<Id>) {
    Chain(table, from, to, chain) && Grants(table[chain[|chain| - 1]].kind, reading)
  }

  lemma ChainsJoin(table: map<Id, Mapping>, from: nat, mid: nat, to: nat, reading: bool, a: seq<Id>, b: seq<Id>)
    requires Chain(table, from, mid, a) && GroundedBy(table, mid, to, reading, b)
    ensures GroundedBy(table, from, to, reading, a + b)
  {
    var both := a + b;
    assert both[|both| - 1] == b[|b| - 1];
    forall i | 0 <= i < |both| - 1 ensures table[both[i]].to == table[both[i + 1]].from {
      if i < |a| - 1 {
        assert both[i] == a[i] && both[i + 1] == a[i + 1];
      } else if i >= |a| {
        assert both[i] == b[i - |a|] && both[i + 1] == b[i + 1 - |a|];
      }
    }
  }

  /** Whatever a derivable mapping allows is granted by direct mappings: a chain of them leads from its
      subcontext to its target, and the last one grants the access.  A mapping for both is grounded
      for each. */
  lemma {:induction false} DerivableIsGrounded(
      table: map<Id, Mapping>, parent: map<Elem, Id>, m: Id, height: nat, reading: bool)
    requires Derivable(table, parent, m, height) && Grants(table[m].kind, reading)
    ensures Grounded(table, table[m].from, table[m].to, reading)
    decreases height
  {
    if table[m].direct {
      assert GroundedBy(table, table[m].from, table[m].to, reading, [m]);
    } else {
      var a, b := parent[Elem(m, First)], parent[Elem(m, Second)];
      if DerivesInOrder(table[a], table[b], table[m]) {
        ParentsGround(table, parent, m, a, b, height, reading);
      } else {
        ParentsGround(table, parent, m, b, a, height, reading);
      }
    }
  }

  lemma {:induction false} ParentsGround(
      table: map<Id, Mapping>, parent: map<Elem, Id>, m: Id, a: Id, b: Id, height: nat, reading: bool)
    requires height > 0 && m in table && Grants(table[m].kind, reading)
    requires Derivable(table, parent, a, height - 1) && Derivable(table, parent, b, height - 1)
    requires DerivesInOrder(table[a], table[b], table[m])
    ensures Grounded(table, table[m].from, table[m].to, reading)
    decreases height, 0
  {
    if table[a].from == table[b].from && table[a].to == table[b].to && table[a].kind == Read && table[b].kind == Write
        && table[m].from == table[a].from && table[m].to == table[a].to {
      DerivableIsGrounded(table, parent, if reading then a else b, height - 1, reading);
    } else {
      DerivableIsGrounded(table, parent, b, height - 1, reading);
      var second :| GroundedBy(table, table[b].from, table[b].to, reading, second);
      DerivableIsGrounded(table, parent, a, height - 1, table[a].kind != Write);
      var first :| GroundedBy(table, table[a].from, table[a].to, table[a].kind != Write, first);
      ChainsJoin(table, table[a].from, table[a].to, table[b].to, reading, first, second);
    }
  }

  /** After a revocation every survivor is granted by direct mappings that survive. */
  lemma SurvivorsAreGrounded(
      n: Net, parent: map<Elem, Id>, gone: set<Id>, m: Id, height: nat, reading: bool)
    requires Wf(n, parent) && Closed(parent, gone) && m !in gone
    requires Derivable(n.table, parent, m, height) && Grants(n.table[m].kind, reading)
    ensures Grounded(Rest(n, gone).table, n.table[m].from, n.table[m].to, reading)
  {
    SurvivorsAreDerivable(n, parent, gone, m, height);
    DerivableIsGrounded(Rest(n, gone).table, RestParent(parent, gone), m, height, reading);
  }
}
