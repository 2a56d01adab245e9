/** sc_remove_mapping_recursive: take a mapping and all that was derived from it out of the net. */
module Revocation {
  import opened Basics
  import opened Mappings

  ghost function Gone(order: seq<Id>): set<Id> {
    set x | x in order
  }

  // ----- what the worklist loop keeps true

  /** Lists of survivors have lost exactly the elements of removed mappings. */
  ghost predicate ListsOk(n: Net, root: Id, gone: set<Id>, deps: map<Id, seq<Elem>>) {
    && (forall x :: x in deps <==> x in n.deps && (x !in gone || x == root))
    && (forall x :: x in deps && x !in gone ==> deps[x] == Survive(n.deps[x], gone))
  }

  /** The worklist holds exactly the elements, of mappings still there, that hung on removed ones. */
  ghost predicate WorkOk(parent: map<Elem, Id>, gone: set<Id>, work: seq<Elem>) {
    && Distinct(work)
    && forall e :: e in work <==> e in parent && e.mapping !in gone && parent[e] in gone
  }

  ghost predicate OrderOk(n: Net, root: Id, order: seq<Id>) {
    && Distinct(order) && |order| > 0 && order[0] == root
    && forall x :: x in order ==> x in n.table
  }

  /** Each removed mapping has a path of its level's length, and no edge skips a level. */
  ghost predicate LevelsOk(n: Net, parent: map<Elem, Id>, root: Id, gone: set<Id>, level: map<Id, nat>) {
    && level.Keys == gone && root in level && level[root] == 0
    && (forall x :: x in level ==> HasPath(n, root, x, level[x]))
    && (forall e :: e in parent && parent[e] in level && e.mapping in level ==>
          level[e.mapping] <= level[parent[e]] + 1)
  }

  ghost predicate HasPath(n: Net, root: Id, x: Id, length: nat) {
    exists path :: IsPathTo(n, root, x, path) && |path| == length + 1
  }

  ghost predicate Ascending(parent: map<Elem, Id>, level: map<Id, nat>, s: seq<Elem>)
    requires forall e :: e in s ==> e in parent && parent[e] in level
  {
    forall i, j :: 0 <= i < j < |s| ==> level[parent[s[i]]] <= level[parent[s[j]]]
  }

  /** Removed in order of level; the worklist continues that order and spans one level. */
  ghost predicate Sorted(parent: map<Elem, Id>, order: seq<Id>, level: map<Id, nat>, work: seq<Elem>)
    requires |order| > 0 && Gone(order) <= level.Keys
    requires forall e :: e in work ==> e in parent && parent[e] in level
  {
    var last := level[order[|order| - 1]];
    && (forall i, j :: 0 <= i < j < |order| ==> level[order[i]] <= level[order[j]])
    && Ascending(parent, level, work)
    && (forall e :: e in work ==> level[parent[e]] <= last <= level[parent[e]] + 1)
  }

  ghost predicate Progress(
      n: Net, parent: map<Elem, Id>, root: Id, work: seq<Elem>, order: seq<Id>, level: map<Id, nat>)
  {
    && OrderOk(n, root, order) && WorkOk(parent, Gone(order), work)
    && LevelsOk(n, parent, root, Gone(order), level) && Sorted(parent, order, level, work)
  }

  // ----- one round

  /** The worklist after removing the mapping of its first element. */
  function NextWork(n: Net, gone: set<Id>, work: seq<Elem>): seq<Elem>
    requires |work| > 0 && work[0].mapping in n.deps
  {
    var cur := work[0].mapping;
    Survive(work, {cur}) + Survive(n.deps[cur], gone + {cur})
  }

  lemma NextWorkOk(n: Net, parent: map<Elem, Id>, gone: set<Id>, work: seq<Elem>)
    requires Wf(n, parent) && WorkOk(parent, gone, work) && |work| > 0
    ensures work[0].mapping in n.deps && work[0].mapping !in gone
    ensures WorkOk(parent, gone + {work[0].mapping}, NextWork(n, gone, work))
  {
    var cur := work[0].mapping;
    assert work[0] in work;
    var a, b := Survive(work, {cur}), Survive(n.deps[cur], gone + {cur});
    SurviveDistinct(work, {cur});
    SurviveDistinct(n.deps[cur], gone + {cur});
    forall e ensures e in a + b <==> e in parent && e.mapping !in gone + {cur} && parent[e] in gone + {cur} {
      assert e in a + b <==> e in a || e in b;
    }
    forall i, j | 0 <= i < |a| && 0 <= j < |b| ensures a[i] != b[j] {
      assert a[i] in a && b[j] in b;
    }
  }

  lemma NextOrderOk(n: Net, parent: map<Elem, Id>, root: Id, order: seq<Id>, work: seq<Elem>)
    requires Wf(n, parent) && OrderOk(n, root, order) && WorkOk(parent, Gone(order), work) && |work| > 0
    ensures OrderOk(n, root, order + [work[0].mapping])
    ensures Gone(order + [work[0].mapping]) == Gone(order) + {work[0].mapping}
  {
    assert work[0] in work;
  }

  lemma ExtendPath(n: Net, parent: map<Elem, Id>, root: Id, e: Elem, length: nat)
    requires Wf(n, parent) && e in parent && HasPath(n, root, parent[e], length)
    ensures HasPath(n, root, e.mapping, length + 1)
  {
    var path :| IsPathTo(n, root, parent[e], path) && |path| == length + 1;
    var longer := path + [e.mapping];
    assert e == match e.which { case First => Elem(e.mapping, First) case Second => Elem(e.mapping, Second) };
    assert IsPathTo(n, root, e.mapping, longer);
  }

  /** No edge to or from the newly removed mapping skips a level. */
  lemma NextEdge(parent: map<Elem, Id>, gone: set<Id>, work: seq<Elem>, order: seq<Id>, level: map<Id, nat>, d: Elem)
    requires WorkOk(parent, gone, work) && |work| > 0 && level.Keys == gone == Gone(order) && |order| > 0
    requires Sorted(parent, order, level, work) && work[0] in work
    requires var cur := work[0].mapping;
      d in parent && (d.mapping == cur || parent[d] == cur) && parent[d] in gone + {cur} && d.mapping in gone + {cur}
    ensures var level' := level[work[0].mapping := level[parent[work[0]]] + 1];
      level'[d.mapping] <= level'[parent[d]] + 1
  {
    var cur := work[0].mapping;
    if d.mapping == cur && parent[d] != cur {
      assert d in work;
      var i :| 0 <= i < |work| && work[i] == d;
    } else if parent[d] == cur && d.mapping != cur {
      assert d.mapping in Gone(order);
      var i :| 0 <= i < |order| && order[i] == d.mapping;
      assert level[order[i]] <= level[order[|order| - 1]];
    }
  }

  lemma NextLevelsOk(
      n: Net, parent: map<Elem, Id>, root: Id, work: seq<Elem>, order: seq<Id>, level: map<Id, nat>)
    requires Wf(n, parent) && Progress(n, parent, root, work, order, level) && |work| > 0
    ensures work[0] in parent && parent[work[0]] in level
    ensures LevelsOk(n, parent, root, Gone(order) + {work[0].mapping},
                     level[work[0].mapping := level[parent[work[0]]] + 1])
  {
    var e, cur := work[0], work[0].mapping;
    assert e in work;
    ExtendPath(n, parent, root, e, level[parent[e]]);
    var level' := level[cur := level[parent[e]] + 1];
    forall d | d in parent && parent[d] in level' && d.mapping in level'
      ensures level'[d.mapping] <= level'[parent[d]] + 1
    {
      if d.mapping == cur || parent[d] == cur {
        NextEdge(parent, Gone(order), work, order, level, d);
      }
    }
  }

  lemma {:induction false} SurviveAscending(parent: map<Elem, Id>, level: map<Id, nat>, s: seq<Elem>, gone: set<Id>)
    requires (forall e :: e in s ==> e in parent && parent[e] in level) && Ascending(parent, level, s)
    ensures Ascending(parent, level, Survive(s, gone))
  {
    if |s| > 0 {
      SurviveAscending(parent, level, s[1..], gone);
      var t := Survive(s[1..], gone);
      forall j | 0 <= j < |t| ensures level[parent[s[0]]] <= level[parent[t[j]]] {
        assert t[j] in t;
        var i :| 0 <= i < |s[1..]| && s[1..][i] == t[j];
        assert s[i + 1] == t[j];
      }
    }
  }

  /** Elements hung on a mapping of the highest level may follow. */
  lemma AppendAscending(parent: map<Elem, Id>, level: map<Id, nat>, a: seq<Elem>, b: seq<Elem>, top: nat)
    requires forall e :: e in a || e in b ==> e in parent && parent[e] in level
    requires Ascending(parent, level, a)
    requires forall e :: e in a ==> level[parent[e]] <= top
    requires forall e :: e in b ==> level[parent[e]] == top
    ensures forall e :: e in a + b ==> e in parent && parent[e] in level
    ensures Ascending(parent, level, a + b)
  {
    var s := a + b;
    forall i, j | 0 <= i < j < |s| ensures level[parent[s[i]]] <= level[parent[s[j]]] {
      assert if i < |a| then s[i] in a else s[i] in b;
      assert if j < |a| then s[j] in a else s[j] in b;
    }
  }

  lemma RestAscending(parent: map<Elem, Id>, level: map<Id, nat>, work: seq<Elem>, cur: Id, l: nat)
    requires (forall e :: e in work ==> e in parent && parent[e] in level) && cur !in level
    requires Ascending(parent, level, work)
    ensures var a := Survive(work, {cur});
      && (forall e :: e in a ==> e in parent && parent[e] in level[cur := l])
      && Ascending(parent, level[cur := l], a)
  {
    SurviveAscending(parent, level, work, {cur});
    var a := Survive(work, {cur});
    forall i, j | 0 <= i < j < |a|
      ensures level[cur := l][parent[a[i]]] <= level[cur := l][parent[a[j]]]
    {
      assert a[i] in a && a[j] in a;
    }
  }

  lemma NextSorted(
      n: Net, parent: map<Elem, Id>, root: Id, work: seq<Elem>, order: seq<Id>, level: map<Id, nat>)
    requires Wf(n, parent) && Progress(n, parent, root, work, order, level) && |work| > 0
    requires work[0].mapping in n.deps && work[0] in parent && parent[work[0]] in level && work[0].mapping !in level
    requires Gone(order + [work[0].mapping]) == Gone(order) + {work[0].mapping}
    requires WorkOk(parent, Gone(order) + {work[0].mapping}, NextWork(n, Gone(order), work))
    ensures Sorted(parent, order + [work[0].mapping], level[work[0].mapping := level[parent[work[0]]] + 1],
                   NextWork(n, Gone(order), work))
  {
    var cur, l := work[0].mapping, level[parent[work[0]]] + 1;
    var level' := level[cur := l];
    var a, b := Survive(work, {cur}), Survive(n.deps[cur], Gone(order) + {cur});
    assert work[0] in work;
    RestAscending(parent, level, work, cur, l);
    forall e | e in a ensures level'[parent[e]] <= l <= level'[parent[e]] + 1 {
      var i :| 0 <= i < |work| && work[i] == e;
    }
    AppendAscending(parent, level', a, b, l);
    OrderAscending(order, level, cur, l);
  }

  lemma OrderAscending(order: seq<Id>, level: map<Id, nat>, cur: Id, l: nat)
    requires |order| > 0 && Gone(order) <= level.Keys && cur !in level && level[order[|order| - 1]] <= l
    requires forall i, j :: 0 <= i < j < |order| ==> level[order[i]] <= level[order[j]]
    ensures var o := order + [cur];
      && Gone(o) <= level[cur := l].Keys
      && forall i, j :: 0 <= i < j < |o| ==> level[cur := l][o[i]] <= level[cur := l][o[j]]
  {
    var o := order + [cur];
    forall i | 0 <= i < |o| ensures o[i] in level[cur := l] {
      assert i < |order| ==> order[i] in Gone(order);
    }
    forall i, j | 0 <= i < j < |o| ensures level[cur := l][o[i]] <= level[cur := l][o[j]] {
      assert order[i] in Gone(order);
      assert level[order[i]] <= level[order[|order| - 1]];
      assert j < |order| ==> order[j] in Gone(order);
    }
  }

  /** One round of the loop keeps all of it. */
  lemma RoundKeepsProgress(
      n: Net, parent: map<Elem, Id>, root: Id, work: seq<Elem>, order: seq<Id>, level: map<Id, nat>)
    requires Wf(n, parent) && Progress(n, parent, root, work, order, level) && |work| > 0
    ensures work[0].mapping in n.deps && work[0].mapping !in Gone(order)
    ensures work[0] in parent && parent[work[0]] in level
    ensures Progress(n, parent, root, NextWork(n, Gone(order), work), order + [work[0].mapping],
                     level[work[0].mapping := level[parent[work[0]]] + 1])
  {
    NextWorkOk(n, parent, Gone(order), work);
    NextOrderOk(n, parent, root, order, work);
    NextLevelsOk(n, parent, root, work, order, level);
    NextSorted(n, parent, root, work, order, level);
  }

  /** Removing the given mapping itself starts it off. */
  lemma ProgressStarts(n: Net, parent: map<Elem, Id>, root: Id)
    requires Wf(n, parent) && root in n.table
    ensures Progress(n, parent, root, Survive(n.deps[root], {root}), [root], map[root := 0])
  {
    assert Gone([root]) == {root};
    var work := Survive(n.deps[root], {root});
    SurviveDistinct(n.deps[root], {root});
    assert IsPathTo(n, root, root, [root]) && |[root]| == 1;
    assert HasPath(n, root, root, 0);
    assert forall e :: e in work ==> parent[e] == root;
    forall i, j | 0 <= i < j < |work|
      ensures parent[work[i]] == root && parent[work[j]] == root
    {
      assert work[i] in work && work[j] in work;
    }
  }

  // ----- what an empty worklist means

  lemma {:induction false} PathStaysInside(n: Net, parent: map<Elem, Id>, root: Id, level: map<Id, nat>, path: seq<Id>)
    requires Wf(n, parent) && LevelsOk(n, parent, root, level.Keys, level) && Closed(parent, level.Keys)
    requires IsPath(n, path) && path[0] == root
    ensures path[|path| - 1] in level && level[path[|path| - 1]] <= |path| - 1
    decreases |path|
  {
    if |path| > 1 {
      var k := |path| - 1;
      PathStaysInside(n, parent, root, level, path[..k]);
      assert DependsDirectly(n, path[k - 1], path[k]);
      var e := if Elem(path[k], First) in n.deps[path[k - 1]] then Elem(path[k], First) else Elem(path[k], Second);
      assert e in parent && parent[e] == path[k - 1];
    }
  }

  /** The length of the shortest derivation of `x` from `root`. */
  ghost predicate IsDistance(n: Net, root: Id, x: Id, d: nat) {
    HasPath(n, root, x, d) && forall path :: IsPathTo(n, root, x, path) ==> d < |path|
  }

  /** The removed mappings are the dependents, all of them and nothing else, and the level of each
      is its distance. */
  lemma DoneIsExact(n: Net, parent: map<Elem, Id>, root: Id, order: seq<Id>, level: map<Id, nat>)
    requires Wf(n, parent) && Progress(n, parent, root, [], order, level)
    ensures Closed(parent, Gone(order))
    ensures forall x :: x in order <==> Dependent(n, root, x)
    ensures forall x :: x in order ==> IsDistance(n, root, x, level[x])
  {
    var gone := Gone(order);
    forall e | e in parent && parent[e] in gone ensures e.mapping in gone {
      assert e !in [];
    }
    forall x ensures x in order <==> Dependent(n, root, x) {
      if x in order {
        var path :| IsPathTo(n, root, x, path) && |path| == level[x] + 1;
      }
      if Dependent(n, root, x) {
        var path :| IsPathTo(n, root, x, path);
        PathStaysInside(n, parent, root, level, path);
      }
    }
    forall x | x in order ensures IsDistance(n, root, x, level[x]) {
      forall path | IsPathTo(n, root, x, path) ensures level[x] < |path| {
        PathStaysInside(n, parent, root, level, path);
      }
    }
  }

  ghost predicate LoopOk(n: Net, parent: map<Elem, Id>, root: Id, work: seq<Elem>, order: seq<Id>,
                         level: map<Id, nat>, deps: map<Id, seq<Elem>>, table: map<Id, Mapping>) {
    && Progress(n, parent, root, work, order, level)
    && ListsOk(n, root, Gone(order), deps) && Remaining(n, root, Gone(order), table)
  }

  /** One round of the loop, in all its effects. */
  lemma RoundKeepsLoop(n: Net, parent: map<Elem, Id>, root: Id, work: seq<Elem>, order: seq<Id>,
                       level: map<Id, nat>, deps: map<Id, seq<Elem>>, table: map<Id, Mapping>)
    requires Wf(n, parent) && LoopOk(n, parent, root, work, order, level, deps, table) && |work| > 0
    ensures work[0].mapping in deps && work[0].mapping in table
    ensures work[0] in parent && parent[work[0]] in level
    ensures var cur := work[0].mapping;
      && LoopOk(n, parent, root, Survive(work, {cur}) + Survive(deps[cur], {cur}), order + [cur],
                level[cur := level[parent[work[0]]] + 1], Detached(deps, cur)[cur := []] - {cur}, table - {cur})
      && |n.table.Keys - Gone(order + [cur])| < |n.table.Keys - Gone(order)|
      && (order + [cur])[1..] == order[1..] + [cur]
  {
    RoundKeepsProgress(n, parent, root, work, order, level);
    RoundKeepsLists(n, parent, root, Gone(order), deps, work[0].mapping);
    RoundShrinks(n, parent, root, order, work, table);
  }

  // ----- the code

  /** All lists with both elements of `m` deleted. */
  function Detached(deps: map<Id, seq<Elem>>, m: Id): map<Id, seq<Elem>> {
    map x | x in deps :: Survive(deps[x], {m})
  }

  class MappingNet {
    var table: map<Id, Mapping>
    var deps: map<Id, seq<Elem>>
    ghost var parent: map<Elem, Id>

    ghost function View(): Net
      reads this
    {
      Net(table, deps)
    }

    ghost predicate Valid()
      reads this
    {
      Wf(View(), parent)
    }

    /** list_del: the element leaves whatever list it is on, a dependency list or the worklist. */
    method ListDel(e: Elem, work: seq<Elem>) returns (rest: seq<Elem>)
      modifies this`deps
      ensures deps == map x | x in old(deps) :: Without(old(deps)[x], e)
      ensures rest == Without(work, e)
    {
      deps := map x | x in deps :: Without(deps[x], e);
      rest := Without(work, e);
    }

    /** Both elements of a mapping leave their lists. */
    method Detach(m: Id, work: seq<Elem>) returns (rest: seq<Elem>)
      modifies this`deps
      ensures deps == Detached(old(deps), m)
      ensures rest == Survive(work, {m})
    {
      ghost var before := deps;
      rest := ListDel(Elem(m, First), work);
      rest := ListDel(Elem(m, Second), rest);
      TwoDeletes(work, m);
      forall x | x in deps ensures deps[x] == Survive(before[x], {m}) {
        TwoDeletes(before[x], m);
      }
    }

    /** The elements of `m` are gone from everywhere; hand its own list over and empty it. */
    method Splice(m: Id, work: seq<Elem>) returns (longer: seq<Elem>)
      requires m in deps
      modifies this`deps
      ensures deps == old(deps)[m := []] && longer == work + old(deps)[m]
    {
      longer := work;
      if |deps[m]| > 0 {
        longer := work + deps[m];
      }
      deps := deps[m := []];
    }

    /** Take the given mapping itself out, but do not free it yet. */
    method TakeOutRoot(m: Id) returns (work: seq<Elem>)
      requires Valid() && m in table
      modifies this`deps
      ensures deps == Detached(old(deps), m)[m := []] && work == Survive(old(deps)[m], {m})
    {
      ghost var n := View();
      work := [];
      if !table[m].direct {
        work := Detach(m, work);
      } else {
        DirectHasNoElements(n, parent, m);
      }
      work := Splice(m, work);
    }

    /** The body of the loop: take out and free the mapping of the worklist's first element. */
    method TakeOutNext(work: seq<Elem>) returns (cur: Id, rest: seq<Elem>)
      requires |work| > 0 && work[0].mapping in deps && work[0].mapping in table
      modifies this`deps, this`table
      ensures cur == work[0].mapping && table == old(table) - {cur}
      ensures deps == Detached(old(deps), cur)[cur := []] - {cur}
      ensures rest == Survive(work, {cur}) + Survive(old(deps)[cur], {cur})
    {
      cur := work[0].mapping;
      rest := Detach(cur, work);
      rest := Splice(cur, rest);
      table := table - {cur};
      deps := deps - {cur};
    }

    /** The worklist loop.  `removed` and `freed` record the calls of sc_remove_mapping and vfree. */
    method Drain(ghost n: Net, ghost par: map<Elem, Id>, m: Id, start: seq<Elem>)
        returns (removed: seq<Id>, freed: seq<Id>, ghost level: map<Id, nat>)
      requires Wf(n, par) && LoopOk(n, par, m, start, [m], map[m := 0], deps, table)
      modifies this`deps, this`table
      ensures LoopOk(n, par, m, [], removed, level, deps, table) && freed == removed[1..]
    {
      var work := start;
      removed, freed, level := [m], [], map[m := 0];
      while |work| > 0
        invariant LoopOk(n, par, m, work, removed, level, deps, table) && freed == removed[1..]
        decreases |n.table.Keys - Gone(removed)|
      {
        RoundKeepsLoop(n, par, m, work, removed, level, deps, table);
        level := level[work[0].mapping := level[par[work[0]]] + 1];
        var cur;
        cur, work := TakeOutNext(work);
        removed := removed + [cur];
        freed := freed + [cur];
      }
    }

    /** Removes and frees each dependent of `m` exactly once, nearest first, and nothing else; the
        given mapping is removed first and freed last. */
    method RemoveRecursive(m: Id) returns (removed: seq<Id>, freed: seq<Id>)
      requires Valid() && m in table
      modifies this
      ensures Valid() && Exact(old(View()), m, removed) && freed == removed[1..] + [m]
      ensures View() == Rest(old(View()), Gone(removed)) && Closed(old(parent), Gone(removed))
      ensures parent == RestParent(old(parent), Gone(removed))
      ensures KeepsDerivable(old(View()), old(parent), m, removed, View(), parent)
    {
      ghost var n, par := View(), parent;
      LoopStarts(n, par, m);
      var work := TakeOutRoot(m);
      ghost var level;
      removed, freed, level := Drain(n, par, m, work);
      LoopEnds(n, par, m, removed, level, deps, table);
      DerivableIsKept(n, par, m, removed);
      Release(m, Rest(n, Gone(removed)), RestParent(par, Gone(removed)));
      freed := freed + [m];
    }

    /** Free the given mapping, last of all. */
    method Release(m: Id, ghost rest: Net, ghost par: map<Elem, Id>)
      requires rest == Net(table - {m}, deps - {m})
      modifies this
      ensures View() == rest && parent == par
    {
      table := table - {m};
      deps := deps - {m};
      parent := par;
    }
  }

  /** Exactly the dependents of `root`, each once, `root` first and nearest first. */
  ghost predicate Exact(n: Net, root: Id, removed: seq<Id>) {
    && Distinct(removed) && (forall x :: x in removed <==> Dependent(n, root, x))
    && |removed| > 0 && removed[0] == root && NearestFirst(n, root, removed)
  }

  /** Of the mappings that were derivable, exactly those are removed whose derivation fails without
      `root`, and all others are derivable from what is left. */
  ghost predicate KeepsDerivable(
      n: Net, parent: map<Elem, Id>, root: Id, removed: seq<Id>, rest: Net, restParent: map<Elem, Id>)
  {
    forall x, height {:trigger Derivable(n.table, parent, x, height)} :: Derivable(n.table, parent, x, height) ==>
      && (x in removed <==> !Derivable(n.table - {root}, parent, x, height))
      && (x !in removed ==> Derivable(rest.table, restParent, x, height))
  }

  lemma DerivableIsKept(n: Net, parent: map<Elem, Id>, root: Id, removed: seq<Id>)
    requires Wf(n, parent) && Exact(n, root, removed) && Closed(parent, Gone(removed))
    ensures KeepsDerivable(n, parent, root, removed, Rest(n, Gone(removed)), RestParent(parent, Gone(removed)))
  {
    forall x, height | Derivable(n.table, parent, x, height)
      ensures x in removed <==> !Derivable(n.table - {root}, parent, x, height)
      ensures x !in removed ==> Derivable(Rest(n, Gone(removed)).table, RestParent(parent, Gone(removed)), x, height)
    {
      DependentIffUnderivable(n, parent, root, x, height);
      if x !in removed {
        SurvivorsAreDerivable(n, parent, Gone(removed), x, height);
      }
    }
  }

  lemma LoopStarts(n: Net, parent: map<Elem, Id>, m: Id)
    requires Wf(n, parent) && m in n.table
    ensures LoopOk(n, parent, m, Survive(n.deps[m], {m}), [m], map[m := 0], Detached(n.deps, m)[m := []], n.table)
  {
    ProgressStarts(n, parent, m);
    StartLists(n, parent, m);
    StartRemaining(n, m);
  }

  lemma LoopEnds(n: Net, parent: map<Elem, Id>, root: Id, order: seq<Id>,
                 level: map<Id, nat>, deps: map<Id, seq<Elem>>, table: map<Id, Mapping>)
    requires Wf(n, parent) && LoopOk(n, parent, root, [], order, level, deps, table)
    ensures Exact(n, root, order) && Closed(parent, Gone(order))
    ensures Rest(n, Gone(order)) == Net(table - {root}, deps - {root})
    ensures Wf(Rest(n, Gone(order)), RestParent(parent, Gone(order)))
  {
    DoneIsExact(n, parent, root, order, level);
    DoneIsSorted(n, parent, root, order, level);
    RestIsWf(n, parent, Gone(order));
    DoneIsRest(n, parent, root, Gone(order), deps, table);
  }

  /** Shorter derivations go first. */
  ghost predicate NearestFirst(n: Net, root: Id, order: seq<Id>) {
    forall i, j, c, d :: 0 <= i < j < |order| ==>
      IsDistance(n, root, order[i], c) && IsDistance(n, root, order[j], d) ==> c <= d
  }

  /** The root stays allocated until the end. */
  ghost predicate Remaining(n: Net, root: Id, gone: set<Id>, table: map<Id, Mapping>) {
    root in n.table && table == n.table - (gone - {root})
  }

  lemma StartRemaining(n: Net, root: Id)
    requires root in n.table
    ensures Gone([root]) == {root} && Remaining(n, root, Gone([root]), n.table)
  {
    assert Gone([root]) - {root} == {};
  }

  lemma RoundShrinks(n: Net, parent: map<Elem, Id>, root: Id, order: seq<Id>, work: seq<Elem>, table: map<Id, Mapping>)
    requires Wf(n, parent) && OrderOk(n, root, order) && |work| > 0 && work[0].mapping in n.deps
    requires work[0].mapping !in Gone(order) && Remaining(n, root, Gone(order), table)
    ensures var cur := work[0].mapping;
      && cur in table && Gone(order + [cur]) == Gone(order) + {cur}
      && Remaining(n, root, Gone(order) + {cur}, table - {cur})
      && |n.table.Keys - (Gone(order) + {cur})| < |n.table.Keys - Gone(order)|
      && (order + [cur])[1..] == order[1..] + [cur]
  {
    var cur := work[0].mapping;
    var before, after := n.table.Keys - Gone(order), n.table.Keys - (Gone(order) + {cur});
    assert before == after + {cur};
  }

  lemma DistanceIsUnique(n: Net, root: Id, x: Id, c: nat, d: nat)
    requires IsDistance(n, root, x, c) && IsDistance(n, root, x, d)
    ensures c == d
  {
    var p :| IsPathTo(n, root, x, p) && |p| == c + 1;
    var q :| IsPathTo(n, root, x, q) && |q| == d + 1;
  }

  lemma DoneIsSorted(n: Net, parent: map<Elem, Id>, root: Id, order: seq<Id>, level: map<Id, nat>)
    requires Progress(n, parent, root, [], order, level)
    requires forall x :: x in order ==> IsDistance(n, root, x, level[x])
    ensures NearestFirst(n, root, order)
  {
    forall i, j, c, d | 0 <= i < j < |order| && IsDistance(n, root, order[i], c) && IsDistance(n, root, order[j], d)
      ensures c <= d
    {
      assert order[i] in order && order[j] in order;
      DistanceIsUnique(n, root, order[i], c, level[order[i]]);
      DistanceIsUnique(n, root, order[j], d, level[order[j]]);
    }
  }

  lemma DoneIsRest(
      n: Net, parent: map<Elem, Id>, root: Id, gone: set<Id>, deps: map<Id, seq<Elem>>, table: map<Id, Mapping>)
    requires Wf(n, parent) && root in gone && Remaining(n, root, gone, table) && ListsOk(n, root, gone, deps)
    ensures Rest(n, gone) == Net(table - {root}, deps - {root})
  {
    var r := Rest(n, gone);
    assert r.table.Keys == (table - {root}).Keys;
    assert r.deps.Keys == (deps - {root}).Keys;
  }

  lemma DirectHasNoElements(n: Net, parent: map<Elem, Id>, m: Id)
    requires Wf(n, parent) && m in n.table && n.table[m].direct
    ensures Detached(n.deps, m) == n.deps
  {
    forall x | x in n.deps ensures Survive(n.deps[x], {m}) == n.deps[x] {
      SurviveAll(n.deps[x], {m});
    }
  }

  lemma {:induction false} SurviveAll(s: seq<Elem>, gone: set<Id>)
    requires forall e :: e in s ==> e.mapping !in gone
    ensures Survive(s, gone) == s
  {
    if |s| > 0 {
      SurviveAll(s[1..], gone);
    }
  }

  lemma StartLists(n: Net, parent: map<Elem, Id>, m: Id)
    requires Wf(n, parent) && m in n.table
    ensures Gone([m]) == {m}
    ensures ListsOk(n, m, {m}, Detached(n.deps, m)[m := []])
  {
  }

  lemma RoundKeepsLists(n: Net, parent: map<Elem, Id>, root: Id, gone: set<Id>, deps: map<Id, seq<Elem>>, cur: Id)
    requires Wf(n, parent) && ListsOk(n, root, gone, deps) && root in gone && cur in n.deps && cur !in gone
    ensures cur in deps && Survive(deps[cur], {cur}) == Survive(n.deps[cur], gone + {cur})
    ensures ListsOk(n, root, gone + {cur}, Detached(deps, cur)[cur := []] - {cur})
  {
    forall x | x in deps && x !in gone ensures Survive(deps[x], {cur}) == Survive(n.deps[x], gone + {cur}) {
      SurviveAgain(n.deps[x], gone, {cur});
    }
  }
}
