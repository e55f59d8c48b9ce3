/** The groups of interdependent endpoints: a depth-first walk along both
    directions of the dependencies finds the connected components. */
module EndpointGroups {
  import opened Text
  import opened Names
  import opened Endpoints
  import opened EndpointOrder

  /** One of x and y depends on the other. */
  predicate Linked(deps: Deps, x: string, y: string) {
    x in deps && y in deps && (y in deps[x] || x in deps[y])
  }

  ghost predicate Path(deps: Deps, path: seq<string>) {
    path != [] && path[0] in deps && forall i | 0 <= i < |path| - 1 :: Linked(deps, path[i], path[i + 1])
  }

  ghost predicate PathBetween(deps: Deps, path: seq<string>, x: string, y: string) {
    Path(deps, path) && path[0] == x && path[|path| - 1] == y
  }

  ghost predicate Connected(deps: Deps, x: string, y: string) {
    exists path :: PathBetween(deps, path, x, y)
  }

  lemma ConnectedSelf(deps: Deps, x: string)
    requires x in deps
    ensures Connected(deps, x, x)
  {
    assert PathBetween(deps, [x], x, x);
  }

  lemma PathReversed(deps: Deps, path: seq<string>, x: string, y: string) returns (back: seq<string>)
    requires PathBetween(deps, path, x, y)
    ensures PathBetween(deps, back, y, x)
  {
    var n := |path|;
    back := seq(n, i requires 0 <= i < n => path[n - 1 - i]);
    if n > 1 { assert Linked(deps, path[n - 2], path[n - 2 + 1]); }
    forall i | 0 <= i < n - 1 ensures Linked(deps, back[i], back[i + 1]) {
      assert Linked(deps, path[n - 2 - i], path[n - 2 - i + 1]);
    }
  }

  lemma PathJoined(
    deps: Deps, p: seq<string>, q: seq<string>, x: string, y: string, z: string) returns (path: seq<string>)
    requires PathBetween(deps, p, x, y) && PathBetween(deps, q, y, z)
    ensures PathBetween(deps, path, x, z)
  {
    path := p + q[1..];
    var m := |p|;
    forall i | 0 <= i < |path| - 1 ensures Linked(deps, path[i], path[i + 1]) {
      if i < m - 1 { assert Linked(deps, p[i], p[i + 1]); }
      else {
        assert path[i] == q[i - m + 1] && path[i + 1] == q[i - m + 2];
        assert Linked(deps, q[i - m + 1], q[i - m + 1 + 1]);
      }
    }
  }

  lemma ConnectedSymmetric(deps: Deps, x: string, y: string)
    requires Connected(deps, x, y)
    ensures Connected(deps, y, x)
  {
    var p :| PathBetween(deps, p, x, y);
    var back := PathReversed(deps, p, x, y);
    hide PathBetween;
  }

  lemma ConnectedTransitive(deps: Deps, x: string, y: string, z: string)
    requires Connected(deps, x, y) && Connected(deps, y, z)
    ensures Connected(deps, x, z)
  {
    var p :| PathBetween(deps, p, x, y);
    var q :| PathBetween(deps, q, y, z);
    hide PathBetween;
    var path := PathJoined(deps, p, q, x, y, z);
  }

  lemma ConnectedStep(deps: Deps, x: string, y: string, z: string)
    requires Connected(deps, x, y) && Linked(deps, y, z)
    ensures Connected(deps, x, z)
  {
    assert PathBetween(deps, [y, z], y, z);
    ConnectedTransitive(deps, x, y, z);
  }

  /** Whoever y is linked to has been visited. */
  ghost predicate Explored(deps: Deps, y: string, visited: set<string>) {
    forall z | z in deps && Linked(deps, y, z) :: z in visited
  }

  /** A path from a closed set stays in it. */
  lemma {:induction false} PathStays(deps: Deps, path: seq<string>, inside: set<string>, n: nat)
    requires Path(deps, path) && n < |path| && path[0] in inside
    requires forall y | y in inside :: y in deps && Explored(deps, y, inside)
    ensures path[n] in inside
  {
    if n > 0 {
      PathStays(deps, path, inside, n - 1);
      assert Linked(deps, path[n - 1], path[n - 1 + 1]);
      assert Explored(deps, path[n - 1], inside);
    }
  }

  lemma ConnectedStays(deps: Deps, x: string, y: string, inside: set<string>)
    requires Connected(deps, x, y) && x in inside
    requires forall z | z in inside :: z in deps && Explored(deps, z, inside)
    ensures y in inside
  {
    hide Explored;
    var path :| PathBetween(deps, path, x, y);
    PathStays(deps, path, inside, |path| - 1);
  }

  // ----- the walk

  /** What one visit does: it adds some names to the group, all connected to
      where it started, and leaves nothing linked to them unvisited. */
  ghost predicate VisitAdds(
    deps: Deps, start: string, visited0: set<string>, visited: set<string>, group0: seq<string>, group: seq<string>)
  {
    && visited0 <= visited <= deps.Keys
    && GroupGrew(group0, group, visited - visited0)
    && (forall y | y in visited - visited0 :: Connected(deps, start, y))
  }

  ghost predicate GroupGrew(group0: seq<string>, group: seq<string>, added: set<string>) {
    group0 <= group && Lists(group[|group0|..], added)
  }

  ghost predicate AllExplored(deps: Deps, names: set<string>, visited: set<string>) {
    forall y | y in names :: Explored(deps, y, visited)
  }

  lemma GroupGrewMore(g0: seq<string>, g1: seq<string>, g2: seq<string>, a: set<string>, b: set<string>)
    requires GroupGrew(g0, g1, a) && GroupGrew(g1, g2, b) && a !! b
    ensures GroupGrew(g0, g2, a + b)
  {
    var x, y := g1[|g0|..], g2[|g1|..];
    assert g2[|g0|..] == x + y;
    forall i, j | 0 <= i < j < |x + y| ensures (x + y)[i] != (x + y)[j] {
      if i < |x| <= j {
        assert (x + y)[i] in SetOf(x) && (x + y)[j] in SetOf(y);
      }
    }
    assert SetOf(x + y) == SetOf(x) + SetOf(y);
  }

  /** One visit after another. */
  lemma VisitAddsMore(deps: Deps, start: string, next: string, v0: set<string>, v1: set<string>, v2: set<string>,
                      g0: seq<string>, g1: seq<string>, g2: seq<string>)
    requires VisitAdds(deps, start, v0, v1, g0, g1) && VisitAdds(deps, next, v1, v2, g1, g2)
    requires Connected(deps, start, next)
    ensures VisitAdds(deps, start, v0, v2, g0, g2)
  {
    hide Connected, GroupGrew;
    GroupGrewMore(g0, g1, g2, v1 - v0, v2 - v1);
    assert v2 - v0 == (v1 - v0) + (v2 - v1);
    forall y | y in v2 - v0 ensures Connected(deps, start, y) {
      if y in v2 - v1 { ConnectedTransitive(deps, start, next, y); }
    }
  }

  lemma ExploredMore(deps: Deps, start: string, v0: set<string>, v1: set<string>, v2: set<string>)
    requires v0 <= v1 <= v2 && start in v1
    requires AllExplored(deps, v1 - v0 - {start}, v1) && AllExplored(deps, v2 - v1, v2)
    ensures AllExplored(deps, v2 - v0 - {start}, v2)
  {
    forall y | y in v2 - v0 - {start} ensures Explored(deps, y, v2) {
      if y in v1 { assert Explored(deps, y, v1); }
    }
  }

  class GroupWalk {
    const deps: Deps
    const rev: Deps
    var visited: set<string>
    var group: seq<string>

    ghost predicate Valid() reads this {
      IsReverse(deps, rev, {}) && DepsClosed(deps) && visited <= deps.Keys
    }

    constructor (deps: Deps, rev: Deps)
      requires IsReverse(deps, rev, {}) && DepsClosed(deps)
      ensures Valid() && this.deps == deps && visited == {} && group == []
    {
      this.deps, this.rev := deps, rev;
      visited, group := {}, [];
    }

    method Visit(start: string)
      requires Valid() && start in deps
      modifies this`visited, this`group
      ensures Valid() && start in visited
      ensures VisitAdds(deps, start, old(visited), visited, old(group), group)
      ensures AllExplored(deps, visited - old(visited), visited)
      decreases deps.Keys - visited, 1
    {
      hide VisitAdds, AllExplored, IsReverse, DepsClosed;
      if start in visited {
        NothingAdded(deps, start, visited, group);
        return;
      }
      visited := visited + {start};
      group := group + [start];
      StartAdded(deps, start, old(visited), old(group));
      Links(start);
      VisitAll(start, deps[start], old(visited), old(group));
      VisitAll(start, rev[start], old(visited), old(group));
      StartExplored(start, old(visited));
    }

    /** Visits the names of a list, all linked to start. */
    method VisitAll(start: string, names: seq<string>, ghost visited0: set<string>, ghost group0: seq<string>)
      requires Valid() && start in visited && start in deps && start !in visited0
      requires forall z | z in names :: Linked(deps, start, z)
      requires VisitAdds(deps, start, visited0, visited, group0, group)
      requires AllExplored(deps, visited - visited0 - {start}, visited)
      modifies this`visited, this`group
      ensures Valid() && old(visited) <= visited && forall z | z in names :: z in visited
      ensures VisitAdds(deps, start, visited0, visited, group0, group)
      ensures AllExplored(deps, visited - visited0 - {start}, visited)
      decreases deps.Keys - visited0 - {start}, 2
    {
      hide AllExplored, IsReverse, DepsClosed, Connected, GroupGrew;
      for i := 0 to |names|
        invariant Valid() && old(visited) <= visited && start in visited
        invariant forall z | z in names[..i] :: z in visited
        invariant VisitAdds(deps, start, visited0, visited, group0, group)
        invariant AllExplored(deps, visited - visited0 - {start}, visited)
      {
        assert names[i] in names;
        assert names[..i + 1] == names[..i] + [names[i]];
        ghost var v1, g1 := visited, group;
        Visit(names[i]);
        ConnectedSelf(deps, start);
        ConnectedStep(deps, start, start, names[i]);
        VisitAddsMore(deps, start, names[i], visited0, v1, visited, group0, g1, group);
        ExploredMore(deps, start, visited0, v1, visited);
      }
      assert names[..|names|] == names;
    }

    lemma Links(start: string)
      requires Valid() && start in deps
      ensures start in rev
      ensures forall z | z in deps[start] :: Linked(deps, start, z)
      ensures forall z | z in rev[start] :: Linked(deps, start, z)
    {
      forall z | z in deps[start] ensures Linked(deps, start, z) { assert z in deps; }
      forall z | z in rev[start] ensures Linked(deps, start, z) {
        assert Lists(rev[start], Dependents(deps, start, {}));
        assert z in SetOf(rev[start]);
      }
    }

    lemma StartExplored(start: string, visited0: set<string>)
      requires Valid() && start in deps && start in rev && start in visited && visited0 <= visited && start !in visited0
      requires (forall z | z in deps[start] :: z in visited) && forall z | z in rev[start] :: z in visited
      requires AllExplored(deps, visited - visited0 - {start}, visited)
      ensures AllExplored(deps, visited - visited0, visited)
    {
      forall z | z in deps && Linked(deps, start, z) ensures z in visited {
        if z !in deps[start] {
          assert Lists(rev[start], Dependents(deps, start, {}));
          assert z in SetOf(rev[start]);
        }
      }
    }
  }

  lemma NothingAdded(deps: Deps, start: string, visited: set<string>, group: seq<string>)
    requires visited <= deps.Keys
    ensures VisitAdds(deps, start, visited, visited, group, group)
    ensures AllExplored(deps, visited - visited, visited)
  {
    assert group[|group|..] == [];
    assert SetOf([]) == {};
  }

  lemma StartAdded(deps: Deps, start: string, visited: set<string>, group: seq<string>)
    requires visited <= deps.Keys && start in deps && start !in visited
    ensures VisitAdds(deps, start, visited, visited + {start}, group, group + [start])
    ensures AllExplored(deps, (visited + {start}) - visited - {start}, visited + {start})
  {
    ConnectedSelf(deps, start);
    assert (group + [start])[|group|..] == [start];
    assert SetOf([start]) == {start};
    assert (visited + {start}) - visited == {start};
  }

  // ----- the groups

  ghost function Component(deps: Deps, x: string): set<string> {
    set y | y in deps && Connected(deps, x, y)
  }

  /** A sorted list of everything connected to any one of its members. */
  ghost predicate IsGroup(deps: Deps, group: seq<string>) {
    group != [] && Ascending(group) && forall x | x in SetOf(group) :: SetOf(group) == Component(deps, x)
  }

  ghost function Members(groups: seq<seq<string>>): set<string> {
    if groups == [] then {} else SetOf(groups[0]) + Members(groups[1..])
  }

  lemma {:induction false} MembersSnoc(groups: seq<seq<string>>, g: seq<string>)
    ensures Members(groups + [g]) == Members(groups) + SetOf(g)
  {
    if groups == [] {
      assert [] + [g] == [g];
    } else {
      assert (groups + [g])[1..] == groups[1..] + [g];
      MembersSnoc(groups[1..], g);
    }
  }

  lemma {:induction false} MembersHave(groups: seq<seq<string>>, i: nat)
    requires i < |groups|
    ensures SetOf(groups[i]) <= Members(groups)
  {
    if i > 0 { MembersHave(groups[1..], i - 1); }
  }

  lemma {:induction false} MembersIn(groups: seq<seq<string>>, x: string) returns (i: int)
    requires x in Members(groups)
    ensures 0 <= i < |groups| && x in groups[i]
  {
    if x in SetOf(groups[0]) {
      i := 0;
    } else {
      i := MembersIn(groups[1..], x);
      i := i + 1;
    }
  }

  /** Ordered by first name, no two groups alike. */
  ghost predicate HeadsAscend(groups: seq<seq<string>>) {
    (forall i | 0 <= i < |groups| :: groups[i] != [])
      && forall i, j | 0 <= i < j < |groups| :: Less(groups[i][0], groups[j][0])
  }

  ghost predicate InSomeGroup(groups: seq<seq<string>>, x: string) {
    exists i :: 0 <= i < |groups| && x in groups[i]
  }

  /** The groups cut the names into their connected components. */
  ghost predicate IsPartition(deps: Deps, groups: seq<seq<string>>) {
    && HeadsAscend(groups)
    && (forall i | 0 <= i < |groups| :: Ascending(groups[i]))
    && (forall x | x in deps :: InSomeGroup(groups, x))
    && (forall i, x, y | 0 <= i < |groups| && x in groups[i] :: y in groups[i] <==> Connected(deps, x, y))
  }

  /** No name is in two groups. */
  lemma PartitionDisjoint(deps: Deps, groups: seq<seq<string>>, i: nat, j: nat, x: string)
    requires IsPartition(deps, groups) && i < |groups| && j < |groups| && x in groups[i] && x in groups[j]
    ensures i == j
  {
    forall y ensures y in groups[i] <==> y in groups[j] {
      assert y in groups[i] <==> Connected(deps, x, y);
      assert y in groups[j] <==> Connected(deps, x, y);
    }
    hide Connected;
    AscendingUnique(groups[i], groups[j]);
    if i < j { LessTrichotomy(groups[i][0], groups[j][0]); }
    if j < i { LessTrichotomy(groups[j][0], groups[i][0]); }
  }

  lemma ConnectedKnown(deps: Deps, x: string, y: string)
    requires Connected(deps, x, y)
    ensures x in deps && y in deps
  {
    var path :| PathBetween(deps, path, x, y);
    if |path| > 1 { assert Linked(deps, path[|path| - 2], path[|path| - 2 + 1]); }
  }

  /** A visit from a name outside a closed set finds its whole component. */
  lemma VisitIsComponent(deps: Deps, start: string, visited0: set<string>, visited: set<string>)
    requires visited0 <= visited <= deps.Keys && start in visited - visited0
    requires AllExplored(deps, visited0, visited0) && AllExplored(deps, visited - visited0, visited)
    requires forall y | y in visited - visited0 :: Connected(deps, start, y)
    ensures AllExplored(deps, visited, visited)
    ensures visited - visited0 == Component(deps, start)
  {
    var reached := visited - visited0;
    forall y | y in visited ensures Explored(deps, y, visited) {
      if y in visited0 { assert Explored(deps, y, visited0); }
    }
    forall y | y in reached ensures y in deps && Explored(deps, y, reached) {
      assert Explored(deps, y, visited);
      forall z | z in deps && Linked(deps, y, z) ensures z in reached {
        assert z in visited0 ==> Explored(deps, z, visited0);
      }
    }
    hide Connected;
    forall y | Connected(deps, start, y) ensures y in reached { ConnectedStays(deps, start, y, reached); }
  }

  lemma ComponentIsGroup(deps: Deps, start: string, names: seq<string>)
    requires start in deps && Lists(names, Component(deps, start))
    ensures IsGroup(deps, SortNames(names)) && SetOf(SortNames(names)) == Component(deps, start)
  {
    hide Connected;
    var group := SortNames(names);
    forall x ensures x in SetOf(group) <==> x in SetOf(names) { SortMembers(names, x); }
    assert SetOf(group) == SetOf(names);
    ConnectedSelf(deps, start);
    SortSorts(names);
    SortNoRepeats(names);
    assert start in SetOf(group);
    forall x | x in SetOf(group) ensures Component(deps, x) == Component(deps, start) {
      forall y ensures y in Component(deps, x) <==> y in Component(deps, start) {
        ConnectedSymmetric(deps, start, x);
        if y in Component(deps, x) { ConnectedTransitive(deps, start, x, y); }
        if y in Component(deps, start) { ConnectedTransitive(deps, x, start, y); }
      }
    }
  }

  /** The groups found so far cover what was visited, which is closed. */
  ghost predicate GroupsSoFar(deps: Deps, groups: seq<seq<string>>, visited: set<string>) {
    && AllExplored(deps, visited, visited)
    && Members(groups) == visited
    && (forall i | 0 <= i < |groups| :: IsGroup(deps, groups[i]))
    && (forall i, j | 0 <= i < j < |groups| :: SetOf(groups[i]) !! SetOf(groups[j]))
  }

  lemma NoGroups(deps: Deps)
    ensures GroupsSoFar(deps, [], {})
  {
  }

  lemma AddGroup(
    deps: Deps, groups: seq<seq<string>>, start: string, visited0: set<string>, visited: set<string>,
    group: seq<string>)
    requires GroupsSoFar(deps, groups, visited0) && start in visited - visited0
    requires VisitAdds(deps, start, visited0, visited, [], group)
    requires AllExplored(deps, visited - visited0, visited)
    ensures GroupsSoFar(deps, groups + [SortNames(group)], visited)
  {
    hide Connected, Ascending, Explored;
    VisitIsComponent(deps, start, visited0, visited);
    assert group[0..] == group;
    ComponentIsGroup(deps, start, group);
    MembersSnoc(groups, SortNames(group));
    forall i | 0 <= i < |groups| ensures SetOf(groups[i]) !! SetOf(SortNames(group)) { MembersHave(groups, i); }
  }

  function InsertGroup(g: seq<string>, groups: seq<seq<string>>): (r: seq<seq<string>>)
    ensures multiset(r) == multiset(groups) + multiset{g}
  {
    if groups == [] || g == [] || groups[0] == [] || Less(g[0], groups[0][0]) then [g] + groups
    else
      assert groups == [groups[0]] + groups[1..];
      [groups[0]] + InsertGroup(g, groups[1..])
  }

  function SortGroups(groups: seq<seq<string>>): (r: seq<seq<string>>)
    ensures multiset(r) == multiset(groups)
  {
    if groups == [] then [] else
      assert groups == [groups[0]] + groups[1..];
      InsertGroup(groups[0], SortGroups(groups[1..]))
  }

  lemma InsertedGroups(g: seq<string>, groups: seq<seq<string>>, x: seq<string>)
    ensures x in InsertGroup(g, groups) <==> x == g || x in groups
  {
    assert x in InsertGroup(g, groups) <==> x in multiset(InsertGroup(g, groups));
    assert x in groups <==> x in multiset(groups);
  }

  lemma SortedGroups(groups: seq<seq<string>>, x: seq<string>)
    ensures x in SortGroups(groups) <==> x in groups
  {
    assert x in SortGroups(groups) <==> x in multiset(SortGroups(groups));
    assert x in groups <==> x in multiset(groups);
  }

  lemma {:induction false} InsertKeepsHeads(g: seq<string>, groups: seq<seq<string>>)
    requires g != [] && HeadsAscend(groups) && forall x | x in groups :: x != [] && x[0] != g[0]
    ensures HeadsAscend(InsertGroup(g, groups))
  {
    if groups == [] {
    } else if Less(g[0], groups[0][0]) {
      forall i | 0 <= i < |groups| ensures Less(g[0], groups[i][0]) {
        if i > 0 { LessTransitive(g[0], groups[0][0], groups[i][0]); }
      }
    } else {
      InsertKeepsHeads(g, groups[1..]);
      var r := InsertGroup(g, groups[1..]);
      assert groups[0] in groups;
      LessTrichotomy(g[0], groups[0][0]);
      forall i | 0 <= i < |r| ensures Less(groups[0][0], r[i][0]) {
        InsertedGroups(g, groups[1..], r[i]);
      }
    }
  }

  lemma {:induction false} SortHeads(groups: seq<seq<string>>)
    requires forall i | 0 <= i < |groups| :: groups[i] != []
    requires forall i, j | 0 <= i < j < |groups| :: groups[i][0] != groups[j][0]
    ensures HeadsAscend(SortGroups(groups))
  {
    if groups != [] {
      var rest := groups[1..];
      SortHeads(rest);
      forall x | x in SortGroups(rest) ensures x != [] && x[0] != groups[0][0] {
        SortedGroups(rest, x);
        var i :| 0 <= i < |rest| && rest[i] == x;
        assert groups[i + 1] == x;
      }
      InsertKeepsHeads(groups[0], SortGroups(rest));
    }
  }

  lemma GroupsArePartition(deps: Deps, groups: seq<seq<string>>)
    requires GroupsSoFar(deps, groups, deps.Keys)
    ensures IsPartition(deps, SortGroups(groups))
  {
    hide Connected, AllExplored, Ascending, SortGroups, Component;
    var sorted := SortGroups(groups);
    forall i, j | 0 <= i < j < |groups| ensures groups[i][0] != groups[j][0] {
      assert groups[i][0] in SetOf(groups[i]) && groups[j][0] in SetOf(groups[j]);
    }
    SortHeads(groups);
    forall i | 0 <= i < |sorted| ensures IsGroup(deps, sorted[i]) { SortedGroups(groups, sorted[i]); }
    GroupsCover(deps, groups);
    forall i, x, y | 0 <= i < |sorted| && x in sorted[i] ensures y in sorted[i] <==> Connected(deps, x, y) {
      GroupIs(deps, sorted[i], x, y);
    }
  }

  lemma GroupIs(deps: Deps, group: seq<string>, x: string, y: string)
    requires IsGroup(deps, group) && x in group
    ensures y in group <==> Connected(deps, x, y)
  {
    hide Connected, Ascending;
    assert x in SetOf(group) && SetOf(group) == Component(deps, x);
    assert y in group <==> y in SetOf(group);
    if Connected(deps, x, y) { ConnectedKnown(deps, x, y); }
  }

  lemma GroupsCover(deps: Deps, groups: seq<seq<string>>)
    requires Members(groups) == deps.Keys
    ensures forall x | x in deps :: InSomeGroup(SortGroups(groups), x)
  {
    hide SortGroups;
    forall x | x in deps ensures InSomeGroup(SortGroups(groups), x) {
      var i := MembersIn(groups, x);
      SortedGroups(groups, groups[i]);
      var k :| 0 <= k < |SortGroups(groups)| && SortGroups(groups)[k] == groups[i];
    }
  }

  /** The groups of a list of endpoints, by its one dependency map. */
  method DAG(eps: seq<Endpoint>) returns (groups: seq<seq<string>>)
    ensures exists deps :: IsDependencyMap(eps, deps) && IsPartition(deps, groups)
  {
    hide IsDependencyMap, IsPartition, IsReverse, DepsClosed, GroupsSoFar, VisitAdds, AllExplored;
    var d := BuildDependencyMap(eps);
    DependencyMapClosed(eps, d);
    var names := NamesOf(eps);
    ClosedDeps(names, d);
    var rev := Reverse(names, d);
    var walk := new GroupWalk(d, rev);
    groups := [];
    NoGroups(d);
    for i := 0 to |names|
      invariant walk.deps == d && walk.Valid()
      invariant GroupsSoFar(d, groups, walk.visited)
      invariant SetOf(names[..i]) <= walk.visited
    {
      assert names[i] in names;
      if names[i] !in walk.visited {
        ghost var visited0 := walk.visited;
        walk.group := [];
        walk.Visit(names[i]);
        VisitGrows(d, names[i], visited0, walk.visited, walk.group);
        AddGroup(d, groups, names[i], visited0, walk.visited, walk.group);
        groups := groups + [SortNames(walk.group)];
      }
      assert names[..i + 1] == names[..i] + [names[i]];
    }
    assert names[..|names|] == names;
    assert walk.visited == d.Keys;
    GroupsArePartition(d, groups);
    groups := SortGroups(groups);
  }

  lemma VisitGrows(deps: Deps, start: string, visited0: set<string>, visited: set<string>, group: seq<string>)
    requires VisitAdds(deps, start, visited0, visited, [], group)
    ensures visited0 <= visited
  {
  }
}
