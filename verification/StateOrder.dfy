/** The order in which state variables are rendered: depth first, each after
    the variables it refers to, refusing circular references. */
module StateOrder {
  import opened Names
  import opened Endpoints
  import opened EndpointOrder

  const STATE := "state."

  /** The state variables among a list of variables. */
  function StateRefs(vars: seq<string>): (refs: seq<string>)
    ensures forall r :: r in refs <==> STATE + r in vars
  {
    if vars == [] then [] else
      var rest := StateRefs(vars[1..]);
      assert forall v :: v in vars <==> v == vars[0] || v in vars[1..];
      if STATE <= vars[0] then
        var ref := vars[0][|STATE|..];
        assert vars[0] == STATE + ref;
        assert forall r | STATE + r == vars[0] :: r == (STATE + r)[|STATE|..];
        [ref] + rest
      else rest
  }

  /** The names behind `state.` in a list of variables are its references. */
  lemma StateRefsAre(vars: seq<string>, name: string)
    ensures name in StateRefs(vars) <==> "state." + name in vars
  {
  }

  /** What the text of a state variable refers to, by the finder of variables
      in an expression; a variable that is not in the state has no text. */
  function RefsOf(state: map<string, string>, finder: string -> seq<string>, key: string): seq<string> {
    StateRefs(finder(if key in state then state[key] else ""))
  }

  /** All variables of the state and all that their texts refer to. */
  function Known(state: map<string, string>, finder: string -> seq<string>): set<string> {
    state.Keys + set k, r | k in state && r in RefsOf(state, finder, k) :: r
  }

  /** The references as a graph. */
  function Refs(state: map<string, string>, finder: string -> seq<string>): Deps {
    map k | k in Known(state, finder) :: RefsOf(state, finder, k)
  }

  lemma RefsClosed(state: map<string, string>, finder: string -> seq<string>)
    requires finder("") == []
    ensures DepsClosed(Refs(state, finder))
  {
    var refs := Refs(state, finder);
    forall k, r | k in refs && r in refs[k] ensures r in refs {
      assert k in state;
      assert r in Known(state, finder);
    }
  }

  function Without(s: seq<string>, key: string): (r: seq<string>)
    ensures SetOf(r) == SetOf(s) - {key}
  {
    if s == [] then [] else
      assert SetOf(s) == {s[0]} + SetOf(s[1..]);
      if s[0] == key then Without(s[1..], key) else
        assert SetOf([s[0]] + Without(s[1..], key)) == {s[0]} + SetOf(Without(s[1..], key));
        [s[0]] + Without(s[1..], key)
  }

  /** A chain of references, ending in a reference to key. */
  ghost predicate Chain(refs: Deps, stack: seq<string>, key: string) {
    key in refs && (stack == [] || (Walk(refs, stack) && key in refs[stack[|stack| - 1]]))
  }

  lemma ChainLonger(refs: Deps, stack: seq<string>, key: string, ref: string)
    requires Chain(refs, stack, key) && DepsClosed(refs) && ref in refs[key]
    ensures Chain(refs, stack + [key], ref)
  {
  }

  /** A chain that comes back to itself is a cycle. */
  lemma ChainCloses(refs: Deps, stack: seq<string>, key: string)
    requires Chain(refs, stack, key) && key in stack
    ensures !Acyclic(refs)
  {
    var i :| 0 <= i < |stack| && stack[i] == key;
    var cycle := stack[i..] + [key];
    forall k | 0 <= k < |cycle| - 1 ensures cycle[k + 1] in refs[cycle[k]] {
      if k + 1 < |stack| - i { assert stack[i + k + 1] in refs[stack[i + k]]; }
    }
    assert Cycle(refs, cycle);
  }

  class RenderOrder {
    const state: map<string, string>
    const finder: string -> seq<string>
    var order: seq<string>
    var remaining: seq<string>
    var processing: set<string>

    ghost function Graph(): Deps {
      Refs(state, finder)
    }

    ghost predicate Valid() reads this {
      && finder("") == []
      && NoRepeats(order) && SetOf(order) <= Graph().Keys && InOrder(order, Graph())
      && SetOf(remaining) == state.Keys - SetOf(order)
      && processing !! SetOf(order) && processing <= Graph().Keys
    }

    /** keys lists the state's keys in any order. */
    constructor (state: map<string, string>, finder: string -> seq<string>, keys: seq<string>)
      requires finder("") == [] && SetOf(keys) == state.Keys
      ensures Valid() && this.state == state && this.finder == finder && order == [] && processing == {}
    {
      this.state, this.finder := state, finder;
      order, remaining, processing := [], keys, {};
    }

    method AddAndRemove(key: string)
      modifies this`order, this`remaining
      ensures order == if key in old(order) then old(order) else old(order) + [key]
      ensures SetOf(remaining) == if key in old(order) then SetOf(old(remaining)) else SetOf(old(remaining)) - {key}
    {
      if key !in order {
        order := order + [key];
        remaining := Without(remaining, key);
      }
    }

    /** Puts key in the order, after what it refers to; stack is the chain of
        variables being processed, and an error is a cycle. */
    method ProcessVar(key: string, ghost stack: seq<string>) returns (ok: bool)
      requires Valid() && processing == SetOf(stack) && Chain(Graph(), stack, key)
      modifies this`order, this`remaining, this`processing
      ensures Valid() && processing == old(processing) && old(order) <= order
      ensures ok ==> key in order
      ensures !ok ==> !Acyclic(Graph())
      decreases Graph().Keys - processing
    {
      hide InOrder, Acyclic, DepsClosed, NoRepeats, RefsOf, Known, Refs, Graph, Walk, StateRefs;
      if key in processing {
        ChainCloses(Graph(), stack, key);
        return false;
      }
      if key in order {
        return true;
      }
      GraphClosed();
      SetOfSnoc(stack, key);
      Mark(key);
      hide Valid, Chain;
      var vars := finder(if key in state then state[key] else "");
      for i := 0 to |vars|
        invariant Valid() && processing == old(processing) + {key} && old(order) <= order
        invariant forall r | STATE + r in vars[..i] :: r in order
      {
        assert vars[i] in vars;
        if STATE <= vars[i] {
          var ref := vars[i][|STATE|..];
          assert vars[i] == STATE + ref;
          RefKnown(key, vars, ref);
          ChainLonger(Graph(), stack, key, ref);
          ghost var before := order;
          ok := ProcessVar(ref, stack + [key]);
          if !ok {
            Unmark(key);
            return;
          }
          RefsCovered(vars, i, before, order);
        } else {
          RefsCovered(vars, i, order, order);
        }
      }
      assert vars[..|vars|] == vars;
      Done(key, vars);
      ok := true;
    }

    lemma RefsCovered(vars: seq<string>, i: nat, before: seq<string>, after: seq<string>)
      requires i < |vars| && before <= after && forall r | STATE + r in vars[..i] :: r in before
      requires STATE <= vars[i] ==> vars[i][|STATE|..] in after
      ensures forall r | STATE + r in vars[..i + 1] :: r in after
    {
      assert vars[..i + 1] == vars[..i] + [vars[i]];
      forall r | STATE + r in vars[..i + 1] ensures r in after {
        if STATE + r !in vars[..i] { assert r == (STATE + r)[|STATE|..]; }
      }
    }

    method Mark(key: string)
      requires Valid() && key !in order && key in Graph()
      modifies this`processing
      ensures Valid() && processing == old(processing) + {key}
    {
      processing := processing + {key};
    }

    method Unmark(key: string)
      requires Valid()
      modifies this`processing
      ensures Valid() && processing == old(processing) - {key}
    {
      processing := processing - {key};
    }

    /** All that key refers to is in the order: key can follow. */
    method Done(key: string, ghost vars: seq<string>)
      requires Valid() && key in processing && key in Graph()
      requires vars == finder(if key in state then state[key] else "")
      requires forall r | STATE + r in vars :: r in order
      modifies this`order, this`remaining, this`processing
      ensures Valid() && order == old(order) + [key] && processing == old(processing) - {key}
    {
      hide InOrder, NoRepeats, Graph, SetOf;
      NotYet(key);
      KeyReady(key, vars);
      AddAndRemove(key);
      processing := processing - {key};
    }

    lemma NotYet(key: string)
      requires Valid() && key in processing
      ensures key !in order
    {
      hide InOrder, NoRepeats, Graph;
      assert key in SetOf(order) ==> key in processing * SetOf(order);
    }

    lemma GraphClosed()
      requires finder("") == []
      ensures DepsClosed(Graph())
    {
      RefsClosed(state, finder);
    }

    lemma RefKnown(key: string, vars: seq<string>, ref: string)
      requires key in Graph() && vars == finder(if key in state then state[key] else "") && STATE + ref in vars
      ensures ref in Graph()[key]
    {
    }

    /** Once everything key refers to is in order, key can follow. */
    lemma KeyReady(key: string, vars: seq<string>)
      requires Valid() && key in Graph() && key !in order
      requires vars == finder(if key in state then state[key] else "")
      requires forall r | STATE + r in vars :: r in order
      ensures NoRepeats(order + [key]) && InOrder(order + [key], Graph())
      ensures SetOf(order + [key]) == SetOf(order) + {key}
    {
      InOrderSnoc(order, Graph(), key);
      NoRepeatsSnoc(order, key);
      SetOfSnoc(order, key);
    }

    /** The whole order: every known variable once, each after those it refers
        to; it fails exactly when references run in a circle. */
    method Determine() returns (ok: bool)
      requires Valid() && processing == {} && order == []
      modifies this`order, this`remaining, this`processing
      ensures ok <==> Acyclic(Graph())
      ensures ok ==> NoRepeats(order) && SetOf(order) == Graph().Keys && InOrder(order, Graph())
    {
      hide InOrder, Acyclic, NoRepeats, RefsOf, Known, Refs, Graph, Walk, Chain;
      while remaining != []
        invariant Valid() && processing == {}
        decreases state.Keys - SetOf(order)
      {
        ghost var before := order;
        var key := remaining[0];
        assert key in SetOf(remaining);
        StateKnown(key);
        ok := ProcessVar(key, []);
        if !ok {
          return;
        }
        assert SetOf(before) <= SetOf(order) && key in SetOf(order);
      }
      ok := true;
      Complete();
    }

    lemma StateKnown(key: string)
      requires key in state
      ensures Chain(Graph(), [], key)
    {
    }

    lemma Complete()
      requires Valid() && remaining == []
      ensures SetOf(order) == Graph().Keys && Acyclic(Graph())
    {
      hide InOrder, Acyclic, NoRepeats, Graph;
      NothingLeft(state.Keys, SetOf(order));
      forall k | k in Graph() ensures k in order {
        assert k in state.Keys ==> k in SetOf(order);
        if k !in state { ReferredTo(k); }
      }
      OrderedIsAcyclic(Graph(), order);
    }

    lemma NothingLeft(all: set<string>, done: set<string>)
      requires all - done == {}
      ensures all <= done
    {
      forall x | x in all ensures x in done { assert x in all - done <==> x !in done; }
    }

    lemma ReferredTo(k: string)
      requires InOrder(order, Graph()) && state.Keys <= SetOf(order) && k in Graph() && k !in state
      ensures k in order
    {
      var user :| user in state && k in RefsOf(state, finder, user);
      assert user in SetOf(order) && user in Graph();
      assert k in Graph()[user];
      hide InOrder;
      DoneDeps(Graph(), order, user);
    }
  }
}
