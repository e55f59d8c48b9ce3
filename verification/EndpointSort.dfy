/** Sorting a list of endpoints: by name, and then so that producers of a queue
    come before its consumers. */
module EndpointSort {
  import opened Text
  import opened Names
  import opened Endpoints
  import opened EndpointOrder

  function InsertEndpoint(e: Endpoint, s: seq<Endpoint>): (r: seq<Endpoint>)
    ensures multiset(r) == multiset(s) + multiset{e}
  {
    if s == [] || Less(e.name, s[0].name) then [e] + s
    else
      assert s == [s[0]] + s[1..];
      [s[0]] + InsertEndpoint(e, s[1..])
  }

  function SortByName(s: seq<Endpoint>): (r: seq<Endpoint>)
    ensures multiset(r) == multiset(s)
  {
    if s == [] then [] else
      assert s == [s[0]] + s[1..];
      InsertEndpoint(s[0], SortByName(s[1..]))
  }

  lemma {:induction false} InsertNames(e: Endpoint, s: seq<Endpoint>)
    ensures NamesOf(InsertEndpoint(e, s)) == InsertName(e.name, NamesOf(s))
  {
    hide Less, NamesOf;
    if s == [] {
      NamesCons(e, s);
      assert InsertEndpoint(e, s) == [e] + s && InsertName(e.name, NamesOf(s)) == [e.name] + NamesOf(s) by {
        NoNames();
      }
    } else {
      NamesCons(s[0], s[1..]);
      assert s == [s[0]] + s[1..];
      if Less(e.name, s[0].name) {
        NamesCons(e, s);
      } else {
        InsertNames(e, s[1..]);
        NamesCons(s[0], InsertEndpoint(e, s[1..]));
      }
    }
  }

  lemma NoNames()
    ensures NamesOf([]) == []
  {
  }

  lemma NamesCons(e: Endpoint, s: seq<Endpoint>)
    ensures NamesOf([e] + s) == [e.name] + NamesOf(s)
    ensures ([e.name] + NamesOf(s))[1..] == NamesOf(s)
  {
  }

  lemma {:induction false} SortedNames(s: seq<Endpoint>)
    ensures NamesOf(SortByName(s)) == SortNames(NamesOf(s))
  {
    hide InsertEndpoint, InsertName, NamesOf;
    if s == [] {
      NoNames();
    } else {
      SortedNames(s[1..]);
      InsertNames(s[0], SortByName(s[1..]));
      NamesCons(s[0], s[1..]);
      assert s == [s[0]] + s[1..];
    }
  }

  lemma MembersKept(x: seq<Endpoint>, y: seq<Endpoint>, e: Endpoint)
    requires multiset(x) == multiset(y)
    ensures e in x <==> e in y
  {
    assert e in x <==> e in multiset(x);
    assert e in y <==> e in multiset(y);
  }

  /** With different names, a name tells the endpoint. */
  lemma FindIs(eps: seq<Endpoint>, e: Endpoint)
    requires NoRepeats(NamesOf(eps)) && e in eps
    ensures FindEndpoint(eps, e.name) < |eps| && eps[FindEndpoint(eps, e.name)] == e
  {
    hide FindEndpoint;
    var i :| 0 <= i < |eps| && eps[i] == e;
    var j := FindEndpoint(eps, e.name);
    assert j < |eps| && eps[j].name == e.name;
    NamesDiffer(eps, i, j);
  }

  lemma NamesDiffer(eps: seq<Endpoint>, i: nat, j: nat)
    requires NoRepeats(NamesOf(eps)) && i < |eps| && j < |eps| && eps[i].name == eps[j].name
    ensures i == j
  {
    var names := NamesOf(eps);
    assert names[i] == names[j];
  }

  lemma ConsumedKept(x: seq<Endpoint>, y: seq<Endpoint>, name: string)
    requires multiset(x) == multiset(y) && NoRepeats(NamesOf(x)) && NoRepeats(NamesOf(y))
    ensures ConsumedBy(x, name) == ConsumedBy(y, name)
  {
    var i, j := FindEndpoint(x, name), FindEndpoint(y, name);
    if i < |x| {
      MembersKept(x, y, x[i]);
      FindIs(y, x[i]);
    } else if j < |y| {
      MembersKept(x, y, y[j]);
      FindIs(x, y[j]);
    }
  }

  /** The order of the list does not matter to what depends on what. */
  lemma UpstreamKept(x: seq<Endpoint>, y: seq<Endpoint>, name: string, up: string)
    requires multiset(x) == multiset(y) && NoRepeats(NamesOf(x)) && NoRepeats(NamesOf(y))
    requires IsUpstream(x, name, up)
    ensures IsUpstream(y, name, up)
  {
    ConsumedKept(x, y, name);
    var i :| 0 <= i < |x| && x[i].name == up && Produces(x[i], ConsumedBy(x, name).value);
    MembersKept(x, y, x[i]);
    var j :| 0 <= j < |y| && y[j] == x[i];
  }

  lemma DependenciesKept(x: seq<Endpoint>, y: seq<Endpoint>, deps: Deps)
    requires multiset(x) == multiset(y) && NoRepeats(NamesOf(x)) && NoRepeats(NamesOf(y))
    requires IsDependencyMap(x, deps)
    ensures IsDependencyMap(y, deps)
  {
    hide IsUpstream, NoRepeats, Ascending;
    forall name ensures name in NamesOf(x) <==> name in NamesOf(y) {
      if i :| 0 <= i < |x| && x[i].name == name {
        MembersKept(x, y, x[i]); var j :| 0 <= j < |y| && y[j] == x[i]; assert NamesOf(y)[j] == name;
      }
      if i :| 0 <= i < |y| && y[i].name == name {
        MembersKept(x, y, y[i]); var j :| 0 <= j < |x| && x[j] == y[i]; assert NamesOf(x)[j] == name;
      }
    }
    forall name, up | name in deps ensures IsUpstream(x, name, up) <==> IsUpstream(y, name, up) {
      if IsUpstream(x, name, up) { UpstreamKept(x, y, name, up); }
      if IsUpstream(y, name, up) { UpstreamKept(y, x, name, up); }
    }
  }

  lemma {:induction false} LeftoverAscends(names: seq<string>, done: seq<string>)
    requires Ascending(names)
    ensures Ascending(Leftover(names, done))
  {
    if names != [] {
      LeftoverAscends(names[1..], done);
      AscendingNoRepeats(names);
      LeftoverIs(names[1..], done);
      var rest := Leftover(names[1..], done);
      forall i | 0 <= i < |rest| ensures Less(names[0], rest[i]) { assert rest[i] in rest; }
    }
  }

  lemma {:induction false} AtMostOnce(s: seq<Endpoint>, e: Endpoint)
    requires NoRepeats(NamesOf(s))
    ensures multiset(s)[e] == if e in s then 1 else 0
  {
    if s != [] {
      var rest := s[1..];
      assert s == [s[0]] + rest && NamesOf(s)[1..] == NamesOf(rest);
      AtMostOnce(rest, e);
      forall i | 0 <= i < |rest| ensures rest[i] != s[0] { assert NamesOf(s)[0] != NamesOf(s)[i + 1]; }
    }
  }

  /** Endpoints picked by name, in the order of the names. */
  method Pick(eps: seq<Endpoint>, names: seq<string>) returns (sorted: seq<Endpoint>)
    requires forall k | k in names :: k in NamesOf(eps)
    ensures NamesOf(sorted) == names && forall i | 0 <= i < |sorted| :: sorted[i] in eps
  {
    sorted := [];
    for i := 0 to |names|
      invariant NamesOf(sorted) == names[..i] && forall j | 0 <= j < |sorted| :: sorted[j] in eps
    {
      assert names[i] in names;
      var k :| 0 <= k < |NamesOf(eps)| && NamesOf(eps)[k] == names[i];
      var f := FindEndpoint(eps, names[i]);
      assert f < |eps|;
      assert names[..i + 1] == names[..i] + [names[i]];
      sorted := sorted + [eps[f]];
    }
    assert names[..|names|] == names;
  }

  lemma PickedAll(eps: seq<Endpoint>, sorted: seq<Endpoint>)
    requires NoRepeats(NamesOf(eps)) && NoRepeats(NamesOf(sorted))
    requires forall i | 0 <= i < |sorted| :: sorted[i] in eps
    requires forall k :: k in NamesOf(sorted) <==> k in NamesOf(eps)
    ensures multiset(sorted) == multiset(eps)
  {
    forall e ensures multiset(sorted)[e] == multiset(eps)[e] {
      AtMostOnce(sorted, e);
      AtMostOnce(eps, e);
      if e in eps {
        var i :| 0 <= i < |eps| && eps[i] == e;
        assert NamesOf(eps)[i] in NamesOf(sorted);
        var j :| 0 <= j < |sorted| && NamesOf(sorted)[j] == e.name;
        FindIs(eps, e);
        FindIs(eps, sorted[j]);
      }
    }
  }

  /** The sorted list has the same endpoints; the first done of them stand
      behind all producers they wait for, the others, which are there only if
      queues run in a circle, in the order of their names. */
  method Sort(eps: seq<Endpoint>) returns (sorted: seq<Endpoint>, ghost deps: Deps, ghost done: nat)
    requires NoRepeats(NamesOf(eps))
    ensures multiset(sorted) == multiset(eps) && done <= |sorted|
    ensures IsDependencyMap(eps, deps)
    ensures forall i, up | 0 <= i < done && IsUpstream(eps, sorted[i].name, up) :: up in NamesOf(sorted[..i])
    ensures Ascending(NamesOf(sorted)[done..])
    ensures done == |sorted| <==> Acyclic(deps)
  {
    hide Stuck, Acyclic, Closed, IsUpstream, NoRepeats, InOrder, Leftover, Ascending;
    var byName := SortByName(eps);
    SortedNames(eps);
    SortNoRepeats(NamesOf(eps));
    SortAscends(NamesOf(eps));
    var d := BuildDependencyMap(byName);
    DependencyMapClosed(byName, d);
    var result: seq<string>;
    result, done := TopologicalSort(NamesOf(byName), d);
    deps := d;
    LeftoverAscends(NamesOf(byName), result[..done]);
    sorted := Pick(byName, result);
    PickedAll(byName, sorted);
    DependenciesKept(byName, eps, d);
    hide IsDependencyMap;
    forall i, up | 0 <= i < done && IsUpstream(eps, sorted[i].name, up) ensures up in NamesOf(sorted[..i]) {
      UpstreamBefore(eps, d, result, done, sorted, i, up);
    }
  }

  lemma UpstreamBefore(
    eps: seq<Endpoint>, deps: Deps, result: seq<string>, done: nat, sorted: seq<Endpoint>, i: nat, up: string)
    requires IsDependencyMap(eps, deps) && i < done <= |result| && InOrder(result[..done], deps)
             && NamesOf(sorted) == result
    requires IsUpstream(eps, sorted[i].name, up) && multiset(sorted) == multiset(eps)
    ensures up in NamesOf(sorted[..i])
  {
    hide IsUpstream;
    var core := result[..done];
    assert core[i] == result[i] == sorted[i].name && core[..i] == NamesOf(sorted[..i]);
    MembersKept(sorted, eps, sorted[i]);
    var j :| 0 <= j < |eps| && eps[j] == sorted[i];
    assert NamesOf(eps)[j] == result[i];
    assert result[i] in deps && up in deps[result[i]];
    assert up in core[..i];
  }
}
