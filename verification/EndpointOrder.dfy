/** The order endpoints run in: Kahn's queue over the dependency map, with the
    endpoints of a cycle, if any, at the end. */
module EndpointOrder {
  import opened Text
  import opened Names
  import opened Endpoints

  /** How many of deps are not in done. */
  function Waiting(deps: seq<string>, done: seq<string>): nat {
    if deps == [] then 0 else (if deps[0] in done then 0 else 1) + Waiting(deps[1..], done)
  }

  lemma {:induction false} WaitingNone(deps: seq<string>, done: seq<string>)
    ensures Waiting(deps, done) == 0 <==> forall d | d in deps :: d in done
  {
    if deps != [] { WaitingNone(deps[1..], done); }
  }

  lemma {:induction false} WaitingAll(deps: seq<string>)
    ensures Waiting(deps, []) == |deps|
  {
    if deps != [] { WaitingAll(deps[1..]); }
  }

  /** Finishing x is one less to wait for, for those that depend on it. */
  lemma {:induction false} WaitingStep(deps: seq<string>, done: seq<string>, x: string)
    requires NoRepeats(deps) && x !in done
    ensures Waiting(deps, done + [x]) == Waiting(deps, done) - if x in deps then 1 else 0
  {
    if deps != [] {
      WaitingStep(deps[1..], done, x);
      assert deps[0] in done + [x] <==> deps[0] in done || deps[0] == x;
    }
  }

  /** The names outside left that depend on d. */
  ghost function Dependents(deps: Deps, d: string, left: set<string>): set<string> {
    set x | x in deps && x !in left && d in deps[x]
  }

  /** rev lists, for every name, the names that depend on it. */
  ghost predicate IsReverse(deps: Deps, rev: Deps, left: set<string>) {
    rev.Keys == deps.Keys && forall d | d in rev :: Lists(rev[d], Dependents(deps, d, left))
  }

  ghost predicate Lists(s: seq<string>, members: set<string>) {
    NoRepeats(s) && SetOf(s) == members
  }

  lemma ListsSnoc(s: seq<string>, members: set<string>, x: string)
    requires Lists(s, members) && x !in members
    ensures Lists(s + [x], members + {x})
  {
    NoRepeatsSnoc(s, x);
    SetOfSnoc(s, x);
  }

  method Reverse(names: seq<string>, deps: Deps) returns (rev: Deps)
    requires Closed(names, deps)
    ensures IsReverse(deps, rev, {})
  {
    rev := map d | d in deps :: [];
    var left := deps.Keys;
    while left != {}
      invariant left <= deps.Keys
      invariant IsReverse(deps, rev, left)
    {
      var x :| x in left;
      ghost var before := rev;
      rev := AddDependent(rev, deps[x], x);
      ReverseStep(deps, before, rev, left, x);
      left := left - {x};
    }
  }

  method AddDependent(rev0: Deps, ds: seq<string>, x: string) returns (rev: Deps)
    requires NoRepeats(ds) && forall d | d in ds :: d in rev0
    ensures rev.Keys == rev0.Keys
    ensures forall d | d in rev :: rev[d] == if d in ds then rev0[d] + [x] else rev0[d]
  {
    rev := rev0;
    for i := 0 to |ds|
      invariant rev.Keys == rev0.Keys
      invariant forall d | d in rev :: rev[d] == if d in ds[..i] then rev0[d] + [x] else rev0[d]
    {
      assert ds[i] !in ds[..i];
      assert ds[..i + 1] == ds[..i] + [ds[i]];
      assert ds[i] in ds;
      rev := rev[ds[i] := rev[ds[i]] + [x]];
    }
    assert ds[..|ds|] == ds;
  }

  lemma ReverseStep(deps: Deps, before: Deps, after: Deps, left: set<string>, x: string)
    requires IsReverse(deps, before, left) && x in left && x in deps && after.Keys == deps.Keys
    requires forall d | d in after :: after[d] == if d in deps[x] then before[d] + [x] else before[d]
    ensures IsReverse(deps, after, left - {x})
  {
    hide Lists;
    forall d | d in after ensures Lists(after[d], Dependents(deps, d, left - {x})) {
      if d in deps[x] {
        ListsSnoc(before[d], Dependents(deps, d, left), x);
        assert Dependents(deps, d, left - {x}) == Dependents(deps, d, left) + {x};
      } else {
        assert Dependents(deps, d, left - {x}) == Dependents(deps, d, left);
      }
    }
  }

  /** Every name of done has its dependencies before it. */
  ghost predicate InOrder(done: seq<string>, deps: Deps) {
    forall i | 0 <= i < |done| && done[i] in deps :: forall d | d in deps[done[i]] :: d in done[..i]
  }

  lemma InOrderSnoc(done: seq<string>, deps: Deps, x: string)
    requires InOrder(done, deps) && x in deps && forall d | d in deps[x] :: d in done
    ensures InOrder(done + [x], deps)
  {
    var all := done + [x];
    forall i | 0 <= i < |all| && all[i] in deps ensures forall d | d in deps[all[i]] :: d in all[..i] {
      if i < |done| { assert all[..i] == done[..i]; } else { assert all[..i] == done; }
    }
  }

  /** The state of the queue loop. */
  ghost predicate QueueState(deps: Deps, inDegree: map<string, int>, done: seq<string>, queue: seq<string>) {
    && inDegree.Keys == deps.Keys
    && NoRepeats(done + queue)
    && (forall x | x in deps :: inDegree[x] == Waiting(deps[x], done))
    && (forall x | x in done :: x in deps)
    && (forall x :: x in queue <==> x in deps && x !in done && inDegree[x] == 0)
    && InOrder(done, deps)
  }

  method InitialQueue(names: seq<string>, deps: Deps) returns (inDegree: map<string, int>, queue: seq<string>)
    requires Closed(names, deps)
    ensures QueueState(deps, inDegree, [], queue)
  {
    inDegree := map x | x in deps :: |deps[x]|;
    var ready: seq<string> := [];
    var left := inDegree.Keys;
    while left != {}
      invariant left <= inDegree.Keys
      invariant Lists(ready, set x | x in inDegree && x !in left && inDegree[x] == 0)
    {
      var x :| x in left;
      ghost var before := set x | x in inDegree && x !in left && inDegree[x] == 0;
      ghost var after := set y | y in inDegree && y !in left - {x} && inDegree[y] == 0;
      if inDegree[x] == 0 {
        ListsSnoc(ready, before, x);
        assert after == before + {x};
        ready := ready + [x];
      } else {
        assert after == before;
      }
      left := left - {x};
    }
    queue := SortNames(ready);
    InitialState(names, deps, inDegree, ready);
  }

  lemma InitialState(names: seq<string>, deps: Deps, inDegree: map<string, int>, ready: seq<string>)
    requires Closed(names, deps) && inDegree == map x | x in deps :: |deps[x]|
    requires Lists(ready, set x | x in inDegree && inDegree[x] == 0)
    ensures QueueState(deps, inDegree, [], SortNames(ready))
  {
    var queue := SortNames(ready);
    SortNoRepeats(ready);
    forall x ensures x in queue <==> x in deps && inDegree[x] == 0 {
      SortMembers(ready, x);
      assert x in ready <==> x in SetOf(ready);
    }
    forall x | x in deps ensures inDegree[x] == Waiting(deps[x], []) { WaitingAll(deps[x]); }
    assert [] + queue == queue;
  }

  /** One turn of the loop: current is done, and those that waited for nothing
      else become ready. */
  method Finish(
    names: seq<string>, deps: Deps, rev: Deps, inDegree0: map<string, int>, ghost done: seq<string>, current: string,
    queue0: seq<string>)
    returns (inDegree: map<string, int>, queue: seq<string>)
    requires Closed(names, deps) && IsReverse(deps, rev, {})
    requires QueueState(deps, inDegree0, done, [current] + queue0)
    ensures QueueState(deps, inDegree, done + [current], queue)
  {
    assert current in [current] + queue0;
    assert current in rev && Lists(rev[current], Dependents(deps, current, {}));
    hide QueueState, Closed, IsReverse;
    var newReady;
    inDegree, newReady := CountDown(inDegree0, rev[current]);
    queue := queue0 + SortNames(newReady);
    FinishState(deps, rev[current], inDegree0, inDegree, done, current, queue0, newReady);
  }

  /** One less to wait for, for each waiter; returns those that now wait for
      nothing. */
  method CountDown(
    before: map<string, int>, waiters: seq<string>) returns (inDegree: map<string, int>, newReady: seq<string>)
    requires NoRepeats(waiters) && SetOf(waiters) <= before.Keys
    ensures inDegree == CountedDown(before, SetOf(waiters))
    ensures Lists(newReady, set x | x in SetOf(waiters) && inDegree[x] == 0)
  {
    inDegree, newReady := before, [];
    for i := 0 to |waiters|
      invariant inDegree == CountedDown(before, SetOf(waiters[..i]))
      invariant SetOf(waiters[..i]) <= before.Keys
      invariant Lists(newReady, set x | x in SetOf(waiters[..i]) && inDegree[x] == 0)
    {
      var dependent := waiters[i];
      assert waiters[..i + 1] == waiters[..i] + [dependent];
      SetOfSnoc(waiters[..i], dependent);
      assert dependent !in SetOf(waiters[..i]);
      assert dependent in SetOf(waiters);
      ghost var ready := set x | x in SetOf(waiters[..i]) && inDegree[x] == 0;
      ghost var counted := inDegree;
      inDegree := inDegree[dependent := inDegree[dependent] - 1];
      assert inDegree == CountedDown(before, SetOf(waiters[..i + 1]));
      if inDegree[dependent] == 0 {
        ListsSnoc(newReady, ready, dependent);
        newReady := newReady + [dependent];
        assert (set x | x in SetOf(waiters[..i + 1]) && inDegree[x] == 0) == ready + {dependent};
      } else {
        assert (set x | x in SetOf(waiters[..i + 1]) && inDegree[x] == 0) == ready;
      }
    }
    assert waiters[..|waiters|] == waiters;
  }

  ghost function CountedDown(before: map<string, int>, waiters: set<string>): map<string, int> {
    map x | x in before :: before[x] - if x in waiters then 1 else 0
  }

  lemma FinishState(deps: Deps, waiters: seq<string>, before: map<string, int>, after: map<string, int>,
                    done: seq<string>, current: string, queue0: seq<string>, newReady: seq<string>)
    requires forall x | x in deps :: NoRepeats(deps[x])
    requires QueueState(deps, before, done, [current] + queue0)
    requires SetOf(waiters) == Dependents(deps, current, {}) && after == CountedDown(before, SetOf(waiters))
    requires Lists(newReady, set x | x in SetOf(waiters) && after[x] == 0)
    ensures QueueState(deps, after, done + [current], queue0 + SortNames(newReady))
  {
    var done', ready := done + [current], SortNames(newReady);
    CurrentReady(deps, before, done, current, queue0);
    InOrderSnoc(done, deps, current);
    SortNoRepeats(newReady);
    forall x | x in deps
      ensures after[x] == Waiting(deps[x], done')
      ensures after[x] == before[x] - if current in deps[x] then 1 else 0
    {
      WaitingStep(deps[x], done, current);
    }
    forall x ensures x in ready <==> x in deps && current in deps[x] && after[x] == 0 {
      SortMembers(newReady, x);
      assert x in newReady <==> x in SetOf(newReady);
    }
    ReadyQueue(deps, before, after, done, current, queue0, ready);
  }

  lemma ReadyQueue(
    deps: Deps, before: map<string, int>, after: map<string, int>, done: seq<string>, current: string,
    queue0: seq<string>, ready: seq<string>)
    requires QueueState(deps, before, done, [current] + queue0)
    requires current in deps && current !in done && NoRepeats(ready)
    requires after.Keys == deps.Keys && InOrder(done + [current], deps)
    requires forall x | x in deps :: after[x] == Waiting(deps[x], done + [current])
    requires forall x | x in deps :: after[x] == before[x] - if current in deps[x] then 1 else 0
    requires forall x :: x in ready <==> x in deps && current in deps[x] && after[x] == 0
    ensures QueueState(deps, after, done + [current], queue0 + ready)
  {
    hide InOrder, NoRepeats, Waiting;
    QueueDistinct(deps, before, done, current, queue0);
    forall x
      ensures x in queue0 + ready <==> x in deps && x !in done + [current] && after[x] == 0
      ensures x in ready ==> x !in done && x != current && x !in queue0
    {
      ReadyMember(deps, before, after, done, current, queue0, ready, x);
    }
    QueueNoRepeats(done, current, queue0, ready);
  }

  lemma QueueDistinct(deps: Deps, before: map<string, int>, done: seq<string>, current: string, queue0: seq<string>)
    requires QueueState(deps, before, done, [current] + queue0)
    ensures NoRepeats(done + ([current] + queue0)) && forall x | x in done :: x in deps
  {
    hide InOrder, NoRepeats, Waiting;
  }

  lemma ReadyMember(
    deps: Deps, before: map<string, int>, after: map<string, int>, done: seq<string>, current: string,
    queue0: seq<string>, ready: seq<string>, x: string)
    requires QueueState(deps, before, done, [current] + queue0)
    requires current in deps && current !in done && after.Keys == deps.Keys
    requires forall x | x in deps :: after[x] == before[x] - if current in deps[x] then 1 else 0
    requires forall x :: x in ready <==> x in deps && current in deps[x] && after[x] == 0
    ensures x in queue0 + ready <==> x in deps && x !in done + [current] && after[x] == 0
    ensures x in ready ==> x !in done && x != current && x !in queue0
  {
    QueuedStays(deps, before, done, current, queue0, x);
    assert InOrder(done, deps) && x in before <==> x in deps;
    if x in deps && x in done { DoneDeps(deps, done, x); }
    if x == current { CurrentReady(deps, before, done, current, queue0); }
    hide QueueState, InOrder, Waiting;
    assert x in queue0 + ready <==> x in queue0 || x in ready;
    assert x in done + [current] <==> x in done || x == current;
  }

  lemma QueuedStays(
    deps: Deps, before: map<string, int>, done: seq<string>, current: string, queue0: seq<string>, x: string)
    requires QueueState(deps, before, done, [current] + queue0)
    ensures x in queue0 <==> x in deps && x !in done && before[x] == 0 && x != current
    ensures x in queue0 ==> current !in deps[x]
  {
    FrontNotBehind(done, current, queue0);
    CurrentReady(deps, before, done, current, queue0);
    assert x in [current] + queue0 <==> x == current || x in queue0;
    if x in queue0 {
      assert x in deps;
      WaitingNone(deps[x], done);
    }
  }

  lemma FrontNotBehind(done: seq<string>, current: string, queue0: seq<string>)
    requires NoRepeats(done + ([current] + queue0))
    ensures current !in queue0
  {
    var all := done + ([current] + queue0);
    forall i | 0 <= i < |queue0| ensures queue0[i] != current {
      assert all[|done|] == current && all[|done| + 1 + i] == queue0[i];
    }
  }

  lemma DoneDeps(deps: Deps, done: seq<string>, x: string)
    requires InOrder(done, deps) && x in done && x in deps
    ensures forall d | d in deps[x] :: d in done
  {
    var i :| 0 <= i < |done| && done[i] == x;
    forall d | d in deps[x] ensures d in done { assert d in done[..i]; }
  }

  lemma CurrentReady(deps: Deps, inDegree: map<string, int>, done: seq<string>, current: string, queue0: seq<string>)
    requires QueueState(deps, inDegree, done, [current] + queue0)
    ensures current in deps && current !in done && forall d | d in deps[current] :: d in done
  {
    assert current in [current] + queue0;
    WaitingNone(deps[current], done);
  }

  lemma QueueNoRepeats(done: seq<string>, current: string, queue0: seq<string>, ready: seq<string>)
    requires NoRepeats(done + ([current] + queue0)) && NoRepeats(ready)
    requires forall x | x in ready :: x !in done && x != current && x !in queue0
    ensures NoRepeats((done + [current]) + (queue0 + ready))
  {
    var listed := done + ([current] + queue0);
    var all := (done + [current]) + (queue0 + ready);
    assert all == listed + ready;
    forall i, j | 0 <= i < j < |all| ensures all[i] != all[j] {
      if j < |listed| { assert all[i] == listed[i] && all[j] == listed[j]; }
      else if i < |listed| {
        assert all[j] == ready[j - |listed|]; assert listed[i] in done || listed[i] == current || listed[i] in queue0;
      }
      else { assert all[i] == ready[i - |listed|] && all[j] == ready[j - |listed|]; }
    }
  }

  // ----- the sort

  /** The names in keep's order that are not in done. */
  function Leftover(names: seq<string>, done: seq<string>): seq<string> {
    if names == [] then [] else (if names[0] in done then [] else [names[0]]) + Leftover(names[1..], done)
  }

  ghost predicate Blocked(deps: Deps, done: seq<string>, x: string)
    requires x in deps
  {
    exists d :: d in deps[x] && d !in done
  }

  /** Some dependency of every leftover is left over too. */
  ghost predicate Stuck(deps: Deps, done: seq<string>) {
    forall x {:trigger Blocked(deps, done, x)} | x in deps && x !in done :: Blocked(deps, done, x)
  }

  /** Returns the names in running order; done counts those the queue emitted. */
  method TopologicalSort(names: seq<string>, deps: Deps) returns (result: seq<string>, ghost done: nat)
    requires NoRepeats(names) && Closed(names, deps)
    ensures done <= |result| && NoRepeats(result)
    ensures forall x :: x in result <==> x in names
    ensures InOrder(result[..done], deps)
    ensures result[done..] == Leftover(names, result[..done])
    ensures Stuck(deps, result[..done])
    ensures done == |result| <==> Acyclic(deps)
  {
    hide QueueState, Closed, InOrder, Stuck, Acyclic, IsReverse, NoRepeats;
    var rev := Reverse(names, deps);
    var inDegree, queue := InitialQueue(names, deps);
    result := [];
    while queue != []
      invariant QueueState(deps, inDegree, result, queue)
      decreases |deps.Keys| - |result|
    {
      var current := queue[0];
      assert queue == [current] + queue[1..];
      DoneFits(deps, inDegree, result, queue);
      inDegree, queue := Finish(names, deps, rev, inDegree, result, current, queue[1..]);
      result := result + [current];
    }
    done := |result|;
    ghost var emitted := result;
    LeftoversStuck(deps, inDegree, result);
    SortComplete(names, deps, inDegree, result);
    if |result| != |names| {
      var left := CollectLeftovers(names, result);
      result := result + left;
    }
    SortResult(names, deps, inDegree, emitted);
    assert result == emitted + Leftover(names, emitted);
    assert result[..done] == emitted;
  }

  method CollectLeftovers(names: seq<string>, done: seq<string>) returns (left: seq<string>)
    ensures left == Leftover(names, done)
  {
    left := [];
    for i := 0 to |names|
      invariant left + Leftover(names[i..], done) == Leftover(names, done)
    {
      assert names[i..][0] == names[i] && names[i..][1..] == names[i + 1..];
      ghost var rest := Leftover(names[i + 1..], done);
      if names[i] !in done {
        assert left + ([names[i]] + rest) == (left + [names[i]]) + rest;
        left := left + [names[i]];
      } else {
        assert [] + rest == rest;
      }
    }
    assert names[|names|..] == [];
    assert left + [] == left;
  }

  lemma DoneFits(deps: Deps, inDegree: map<string, int>, done: seq<string>, queue: seq<string>)
    requires QueueState(deps, inDegree, done, queue)
    ensures |done + queue| <= |deps.Keys|
  {
    forall x | x in done + queue ensures x in deps.Keys { assert x in done || x in queue; }
    NoRepeatsFits(done + queue, deps.Keys);
  }

  lemma LeftoversStuck(deps: Deps, inDegree: map<string, int>, done: seq<string>)
    requires QueueState(deps, inDegree, done, [])
    ensures Stuck(deps, done)
  {
    forall x | x in deps && x !in done ensures Blocked(deps, done, x) {
      assert x !in [];
      WaitingNone(deps[x], done);
    }
  }

  lemma {:induction false} LeftoverIs(names: seq<string>, done: seq<string>)
    requires NoRepeats(names)
    ensures NoRepeats(Leftover(names, done))
    ensures forall x :: x in Leftover(names, done) <==> x in names && x !in done
  {
    if names != [] { LeftoverIs(names[1..], done); }
  }

  lemma SortResult(names: seq<string>, deps: Deps, inDegree: map<string, int>, done: seq<string>)
    requires NoRepeats(names) && Closed(names, deps) && QueueState(deps, inDegree, done, [])
    ensures NoRepeats(done + Leftover(names, done))
    ensures forall x :: x in done + Leftover(names, done) <==> x in names
    ensures InOrder(done, deps)
  {
    LeftoverIs(names, done);
    assert done + [] == done;
    var left := Leftover(names, done);
    hide InOrder, Leftover;
    forall i, j | 0 <= i < j < |done + left| ensures (done + left)[i] != (done + left)[j] {
      if i < |done| <= j { assert (done + left)[i] in done && (done + left)[j] in left; }
    }
  }

  /** Nothing is left over exactly when the dependencies have no cycle, and
      then the counts agree. */
  lemma SortComplete(names: seq<string>, deps: Deps, inDegree: map<string, int>, done: seq<string>)
    requires NoRepeats(names) && Closed(names, deps) && QueueState(deps, inDegree, done, [])
    ensures Leftover(names, done) == [] <==> Acyclic(deps)
    ensures |done| == |names| ==> Leftover(names, done) == []
  {
    DoneFacts(names, deps, inDegree, done);
    LeftoverIs(names, done);
    LeftoversStuck(deps, inDegree, done);
    ClosedDeps(names, deps);
    var left := Leftover(names, done);
    hide QueueState, Closed, Stuck, Acyclic, InOrder, DepsClosed, Leftover, NoRepeats;
    if left == [] {
      forall x | x in deps ensures x in done { assert x !in left; }
      OrderedIsAcyclic(deps, done);
    } else {
      assert left[0] in left;
      StuckHasCycle(deps, done, left[0]);
    }
    if |done| == |names| {
      AllDone(names, deps, done, left);
    }
  }

  lemma DoneFacts(names: seq<string>, deps: Deps, inDegree: map<string, int>, done: seq<string>)
    requires Closed(names, deps) && QueueState(deps, inDegree, done, [])
    ensures NoRepeats(done) && InOrder(done, deps)
    ensures forall x :: x in deps <==> x in names
    ensures forall x | x in done :: x in deps
  {
    assert done + [] == done;
    hide InOrder, Waiting;
  }

  lemma AllDone(names: seq<string>, deps: Deps, done: seq<string>, left: seq<string>)
    requires NoRepeats(names) && NoRepeats(done) && |done| == |names| && NoRepeats(left)
    requires forall x :: x in deps <==> x in names
    requires forall x | x in done :: x in deps
    requires forall x :: x in left <==> x in names && x !in done
    ensures left == []
  {
    assert SetOf(names) == deps.Keys;
    NoRepeatsSize(names);
    NoRepeatsFits(done, deps.Keys);
    NoRepeatsSize(left);
    assert SetOf(left) == {};
  }

  // ----- cycles

  /** A walk along dependencies. */
  ghost predicate Walk(deps: Deps, path: seq<string>) {
    && path != []
    && (forall i | 0 <= i < |path| :: path[i] in deps)
    && (forall i | 0 <= i < |path| - 1 :: path[i + 1] in deps[path[i]])
  }

  ghost predicate Cycle(deps: Deps, path: seq<string>) {
    |path| >= 2 && Walk(deps, path) && path[0] == path[|path| - 1]
  }

  ghost predicate Acyclic(deps: Deps) {
    forall path :: !Cycle(deps, path)
  }

  ghost function Place(done: seq<string>, x: string): (i: nat)
    requires x in done
    ensures i < |done| && done[i] == x
  {
    var i :| 0 <= i < |done| && done[i] == x;
    i
  }

  /** Along a walk among the emitted names the place goes down. */
  lemma {:induction false} WalkGoesDown(deps: Deps, done: seq<string>, path: seq<string>, j: nat)
    requires NoRepeats(done) && InOrder(done, deps) && Walk(deps, path) && 0 < j < |path|
    requires forall i | 0 <= i < |path| :: path[i] in done
    ensures Place(done, path[j]) < Place(done, path[0])
  {
    var u := Place(done, path[j - 1]);
    assert path[j] in done[..u] by {
      assert path[j - 1 + 1] in deps[path[j - 1]];
    }
    var v :| 0 <= v < u && done[..u][v] == path[j];
    assert Place(done, path[j]) == v;
    if j > 1 { WalkGoesDown(deps, done, path, j - 1); }
  }

  lemma OrderedIsAcyclic(deps: Deps, done: seq<string>)
    requires NoRepeats(done) && InOrder(done, deps) && forall x | x in deps :: x in done
    ensures Acyclic(deps)
  {
    forall path ensures !Cycle(deps, path) {
      if Cycle(deps, path) {
        WalkGoesDown(deps, done, path, |path| - 1);
      }
    }
  }

  ghost predicate DepsClosed(deps: Deps) {
    forall y {:trigger deps[y]} | y in deps :: forall d | d in deps[y] :: d in deps
  }

  lemma ClosedDeps(names: seq<string>, deps: Deps)
    requires Closed(names, deps)
    ensures DepsClosed(deps)
  {
  }

  lemma StuckStep(deps: Deps, done: seq<string>, x: string) returns (d: string)
    requires Stuck(deps, done) && DepsClosed(deps) && x in deps && x !in done
    ensures d in deps[x] && d in deps && d !in done
  {
    assert Blocked(deps, done, x);
    hide Stuck;
    d :| d in deps[x] && d !in done;
  }

  /** From a stuck name one can walk on among stuck names for ever. */
  lemma {:induction false} StuckWalk(deps: Deps, done: seq<string>, x: string, n: nat) returns (path: seq<string>)
    requires Stuck(deps, done) && DepsClosed(deps) && x in deps && x !in done
    ensures Walk(deps, path) && |path| == n + 1 && path[0] == x
    decreases n
  {
    hide Stuck, DepsClosed;
    if n == 0 {
      path := [x];
    } else {
      var d := StuckStep(deps, done, x);
      var rest := StuckWalk(deps, done, d, n - 1);
      path := [x] + rest;
      WalkCons(deps, x, rest);
    }
  }

  lemma WalkCons(deps: Deps, x: string, rest: seq<string>)
    requires Walk(deps, rest) && x in deps && rest[0] in deps[x]
    ensures Walk(deps, [x] + rest)
  {
    var path := [x] + rest;
    forall i | 0 <= i < |path| ensures path[i] in deps {
      if i > 0 { assert path[i] == rest[i - 1]; }
    }
    forall i | 0 <= i < |path| - 1 ensures path[i + 1] in deps[path[i]] {
      if i > 0 { assert rest[i - 1 + 1] in deps[rest[i - 1]]; }
    }
  }

  /** A walk longer than the number of names goes through one of them twice. */
  lemma LongWalkHasCycle(deps: Deps, path: seq<string>) returns (cycle: seq<string>)
    requires Walk(deps, path) && |path| > |deps.Keys|
    ensures Cycle(deps, cycle)
  {
    if NoRepeats(path) {
      NoRepeatsFits(path, deps.Keys);
    }
    var i, j :| 0 <= i < j < |path| && path[i] == path[j];
    cycle := path[i..j + 1];
    forall k | 0 <= k < |cycle| - 1 ensures cycle[k + 1] in deps[cycle[k]] {
      assert path[i + k + 1] in deps[path[i + k]];
    }
  }

  lemma StuckHasCycle(deps: Deps, done: seq<string>, x: string)
    requires Stuck(deps, done) && DepsClosed(deps) && x in deps && x !in done
    ensures !Acyclic(deps)
  {
    hide Stuck, DepsClosed, Walk;
    var path := StuckWalk(deps, done, x, |deps.Keys|);
    var cycle := LongWalkHasCycle(deps, path);
    assert Cycle(deps, cycle);
  }
}
