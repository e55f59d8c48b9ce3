/** API endpoints and the queues between them: an endpoint depends on the
    endpoints that produce the queue it iterates over. */
module Endpoints {
  import opened Text
  import opened Names

  /** over is the text of iterate.over, when it is one. */
  datatype Endpoint = Endpoint(name: string, over: Option<string>, outputs: seq<string>)

  const QUEUE := "queue."

  /** The queue a text names. */
  function QueueOf(s: string): Option<string> {
    if QUEUE <= s then Some(s[|QUEUE|..]) else None
  }

  /** A text names a queue exactly if it is `queue.` and the queue's name. */
  lemma QueueIs(s: string, queue: string)
    ensures QueueOf(s) == Some(queue) <==> s == "queue." + queue
  {
    if QueueOf(s) == Some(queue) { assert s == s[..|QUEUE|] + s[|QUEUE|..]; }
    if s == "queue." + queue { assert s[..|QUEUE|] == QUEUE; }
  }

  ghost predicate Produces(ep: Endpoint, queue: string) {
    exists i :: 0 <= i < |ep.outputs| && QueueOf(ep.outputs[i]) == Some(queue)
  }

  function NamesOf(eps: seq<Endpoint>): seq<string> {
    seq(|eps|, i requires 0 <= i < |eps| => eps[i].name)
  }

  /** The first endpoint with this name, or |eps|. */
  function FindEndpoint(eps: seq<Endpoint>, name: string): (i: nat)
    ensures i <= |eps| && (i < |eps| ==> eps[i].name == name)
    ensures forall j | 0 <= j < i :: eps[j].name != name
  {
    if eps == [] || eps[0].name == name then 0 else 1 + FindEndpoint(eps[1..], name)
  }

  /** The queue the endpoint with this name iterates over. */
  function ConsumedBy(eps: seq<Endpoint>, name: string): Option<string> {
    var i := FindEndpoint(eps, name);
    if i < |eps| && eps[i].over.Some? then QueueOf(eps[i].over.value) else None
  }

  /** up produces the queue that name iterates over, and is not name. */
  ghost predicate IsUpstream(eps: seq<Endpoint>, name: string, up: string) {
    up != name && ConsumedBy(eps, name).Some? &&
    exists i :: 0 <= i < |eps| && eps[i].name == up && Produces(eps[i], ConsumedBy(eps, name).value)
  }

  method HasUpstreams(eps: seq<Endpoint>, name: string) returns (upstreams: seq<string>)
    ensures Ascending(upstreams)
    ensures forall up :: up in upstreams <==> IsUpstream(eps, name, up)
  {
    upstreams := [];
    var t := FindEndpoint(eps, name);
    if t == |eps| || eps[t].over.None? || QueueOf(eps[t].over.value).None? {
      return;
    }
    var queue := QueueOf(eps[t].over.value).value;
    var producers: seq<string> := [];
    for i := 0 to |eps|
      invariant forall up :: up in producers <==>
                  up != name && exists j :: 0 <= j < i && eps[j].name == up && Produces(eps[j], queue)
    {
      ghost var before := producers;
      for j := 0 to |eps[i].outputs|
        invariant forall up :: up in producers <==>
                    (up in before
                     || (up == eps[i].name != name
                         && exists k :: 0 <= k < j && QueueOf(eps[i].outputs[k]) == Some(queue)))
      {
        if QueueOf(eps[i].outputs[j]) == Some(queue) && eps[i].name != name {
          producers := producers + [eps[i].name];
        }
      }
    }
    upstreams := Distinct(SortNames(producers), producers);
  }

  /** The names of a sorted list, each once. */
  method Distinct(sorted: seq<string>, ghost names: seq<string>) returns (unique: seq<string>)
    requires sorted == SortNames(names)
    ensures Ascending(unique)
    ensures forall x :: x in unique <==> x in names
  {
    SortSorts(names);
    hide SortNames, Ascending;
    EmptyAscends();
    unique := [];
    assert sorted[..0] == [];
    for i := 0 to |sorted|
      invariant Ascending(unique)
      invariant SetOf(unique) == SetOf(sorted[..i])
      invariant if i == 0 then unique == [] else unique != [] && unique[|unique| - 1] == sorted[i - 1]
    {
      SetOfSnoc(sorted[..i], sorted[i]);
      assert sorted[..i + 1] == sorted[..i] + [sorted[i]];
      assert SetOf(sorted[..i + 1]) == SetOf(sorted[..i]) + {sorted[i]};
      if i == 0 || sorted[i] != sorted[i - 1] {
        if i > 0 { AscendingSnoc(unique, sorted[i]); } else { OneAscends(sorted[i]); }
        SetOfSnoc(unique, sorted[i]);
        unique := unique + [sorted[i]];
      } else {
        assert sorted[..i][i - 1] == sorted[i];
        assert sorted[i] in SetOf(sorted[..i]);
      }
    }
    assert sorted[..|sorted|] == sorted;
    forall x ensures x in unique <==> x in names {
      SortMembers(names, x);
      assert x in unique <==> x in SetOf(unique);
    }
  }

  lemma EmptyAscends()
    ensures Ascending([])
  {
  }

  lemma OneAscends(x: string)
    ensures Ascending([] + [x])
  {
  }

  lemma AscendingSnoc(s: seq<string>, x: string)
    requires Ascending(s) && s != [] && Less(s[|s| - 1], x)
    ensures Ascending(s + [x])
  {
    forall i | 0 <= i < |s| - 1 ensures Less(s[i], x) { LessTransitive(s[i], s[|s| - 1], x); }
  }

  type Deps = map<string, seq<string>>

  /** deps lists the upstreams of every endpoint. */
  ghost predicate IsDependencyMap(eps: seq<Endpoint>, deps: Deps) {
    && (forall name :: name in deps <==> name in NamesOf(eps))
    && (forall name | name in deps ::
          Ascending(deps[name]) && forall up :: up in deps[name] <==> IsUpstream(eps, name, up))
  }

  method BuildDependencyMap(eps: seq<Endpoint>) returns (deps: Deps)
    ensures IsDependencyMap(eps, deps)
  {
    deps := map[];
    for i := 0 to |eps|
      invariant forall name :: name in deps <==> name in NamesOf(eps)[..i]
      invariant forall name | name in deps ::
                  Ascending(deps[name]) && forall up :: up in deps[name] <==> IsUpstream(eps, name, up)
    {
      var ups := HasUpstreams(eps, eps[i].name);
      assert NamesOf(eps)[..i + 1] == NamesOf(eps)[..i] + [eps[i].name];
      deps := deps[eps[i].name := ups];
    }
    assert NamesOf(eps)[..|eps|] == NamesOf(eps);
  }

  /** The map depends on the endpoints alone. */
  lemma DependencyMapUnique(eps: seq<Endpoint>, x: Deps, y: Deps)
    requires IsDependencyMap(eps, x) && IsDependencyMap(eps, y)
    ensures x == y
  {
    assert x.Keys == y.Keys;
    forall name | name in x ensures x[name] == y[name] { AscendingUnique(x[name], y[name]); }
  }

  /** What the sorts below need: dependencies are endpoints, none twice. */
  ghost predicate Closed(names: seq<string>, deps: Deps) {
    && (forall name :: name in deps <==> name in names)
    && (forall name | name in deps :: NoRepeats(deps[name]) && forall d | d in deps[name] :: d in deps)
  }

  lemma DependencyMapClosed(eps: seq<Endpoint>, deps: Deps)
    requires IsDependencyMap(eps, deps)
    ensures Closed(NamesOf(eps), deps)
  {
    forall name | name in deps ensures NoRepeats(deps[name]) && forall d | d in deps[name] :: d in deps {
      AscendingNoRepeats(deps[name]);
      forall d | d in deps[name] ensures d in deps {
        assert IsUpstream(eps, name, d);
        var i :| 0 <= i < |eps| && eps[i].name == d;
        assert NamesOf(eps)[i] == d;
      }
    }
  }
}
