/** Decoded YAML values, the loose equality the editor compares them with, and
    the deep merge that defines what an update of an entry must hold. */
module Values {
  import opened Sequences

  /** A decoded value. A scalar carries its resolved tag and its string form;
      the null scalar has the empty string form. Mapping keys are strings. */
  datatype Value =
    | Scalar(tag: string, text: string)
    | List(items: seq<Value>)
    | Map(entries: map<string, Value>)

  const NULL := Scalar("!!null", "")

  /** Loose equality: scalars by string form, containers by structure. Mappings
      are compared by size and then key by key over the left side only. */
  predicate Same(a: Value, b: Value)
    decreases a
  {
    if a.Map? || b.Map? then
      a.Map? && b.Map? && |a.entries| == |b.entries| &&
      forall k | k in a.entries :: k in b.entries && Same(a.entries[k], b.entries[k])
    else if a.List? || b.List? then
      a.List? && b.List? && |a.items| == |b.items| &&
      forall i | 0 <= i < |a.items| :: Same(a.items[i], b.items[i])
    else
      a.text == b.text
  }

  /** Deep merge: nested mappings merge, anything else takes the incoming
      value, and keys that incoming does not pass stay. */
  function Merge(existing: Value, incoming: Value): (r: Value)
    requires existing.Map? && incoming.Map?
    ensures r.Map? && r.entries.Keys == existing.entries.Keys + incoming.entries.Keys
    ensures forall k | k in existing.entries && k !in incoming.entries :: r.entries[k] == existing.entries[k]
    ensures forall k | k in incoming.entries :: r.entries[k] ==
              if k in existing.entries && existing.entries[k].Map? && incoming.entries[k].Map?
              then Merge(existing.entries[k], incoming.entries[k]) else incoming.entries[k]
    decreases incoming, 0
  {
    Map(map k | k in existing.entries.Keys + incoming.entries.Keys ::
          if k !in incoming.entries then existing.entries[k]
          else MergeUnder(existing, k, incoming.entries[k]))
  }

  /** The value key k takes when v is merged over existing. */
  function MergeUnder(existing: Value, k: string, v: Value): (r: Value)
    requires existing.Map?
    decreases v, 1
  {
    if v.Map? && k in existing.entries && existing.entries[k].Map? then
      Merge(existing.entries[k], v)
    else
      v
  }

  lemma MergeEntry(existing: Value, incoming: Value, k: string)
    requires existing.Map? && incoming.Map?
    requires k in existing.entries || k in incoming.entries
    ensures Merge(existing, incoming).entries[k]
         == if k in incoming.entries then MergeUnder(existing, k, incoming.entries[k]) else existing.entries[k]
  {
  }

  /** The deep merge as a loop over the incoming keys, in any order. */
  method MergeProps(existing: map<string, Value>, incoming: map<string, Value>) returns (out: map<string, Value>)
    ensures Map(out) == Merge(Map(existing), Map(incoming))
    decreases Map(incoming)
  {
    ghost var merged := Merge(Map(existing), Map(incoming)).entries;
    out := existing;
    var left := incoming.Keys;
    while left != {}
      invariant left <= incoming.Keys
      invariant out.Keys == existing.Keys + (incoming.Keys - left)
      invariant forall k | k in out :: out[k] == if k in left then existing[k] else merged[k]
    {
      var k :| k in left;
      var v := incoming[k];
      assert Map(incoming).entries[k] == v;
      if v.Map? && k in out && out[k].Map? {
        var m := MergeProps(out[k].entries, v.entries);
        v := Map(m);
      }
      out := out[k := v];
      left := left - {k};
    }
    assert out == merged;
  }

  /** One-level merge: each updated key takes its whole new value. */
  function MergeTop(current: Value, updates: Value): (r: Value)
    requires current.Map? && updates.Map?
  {
    Map(current.entries + updates.entries)
  }

  // ----- Same is an equivalence

  lemma {:induction false} SameReflexive(a: Value)
    ensures Same(a, a)
  {
    match a
    case Scalar(_, _) =>
    case List(xs) =>
      forall i | 0 <= i < |xs| ensures Same(xs[i], xs[i]) { SameReflexive(xs[i]); }
    case Map(m) =>
      forall k | k in m ensures Same(m[k], m[k]) { SameReflexive(m[k]); }
  }

  lemma SameKeys(a: Value, b: Value)
    requires a.Map? && b.Map? && Same(a, b)
    ensures a.entries.Keys == b.entries.Keys
  {
    SubsetSize(a.entries.Keys, b.entries.Keys);
  }

  /** What the loose comparison takes for equal: scalars with one text, whatever
      their tags, lists item by item, and mappings with the same keys, key by
      key. */
  lemma LooseIs(a: Value, b: Value)
    ensures Same(a, b) <==>
              match (a, b)
              case (Scalar(_, x), Scalar(_, y)) => x == y
              case (List(x), List(y)) => |x| == |y| && forall i | 0 <= i < |x| :: Same(x[i], y[i])
              case (Map(m), Map(n)) => m.Keys == n.Keys && forall k | k in m :: Same(m[k], n[k])
              case _ => false
  {
    if a.Map? && b.Map? {
      if Same(a, b) { SameKeys(a, b); }
      if a.entries.Keys == b.entries.Keys { assert |a.entries| == |a.entries.Keys| == |b.entries|; }
    }
  }

  lemma {:induction false} SameSymmetric(a: Value, b: Value)
    requires Same(a, b)
    ensures Same(b, a)
    decreases a
  {
    if a.Map? {
      SameKeys(a, b);
      forall k | k in b.entries ensures Same(b.entries[k], a.entries[k]) {
        SameSymmetric(a.entries[k], b.entries[k]);
      }
    } else if a.List? {
      forall i | 0 <= i < |a.items| ensures Same(b.items[i], a.items[i]) {
        SameSymmetric(a.items[i], b.items[i]);
      }
    }
  }

  lemma {:induction false} SameTransitive(a: Value, b: Value, c: Value)
    requires Same(a, b) && Same(b, c)
    ensures Same(a, c)
    decreases a
  {
    if a.Map? {
      forall k | k in a.entries ensures k in c.entries && Same(a.entries[k], c.entries[k]) {
        SameTransitive(a.entries[k], b.entries[k], c.entries[k]);
      }
    } else if a.List? {
      forall i | 0 <= i < |a.items| ensures Same(a.items[i], c.items[i]) {
        SameTransitive(a.items[i], b.items[i], c.items[i]);
      }
    }
  }

  // ----- the merge respects Same

  /** Mappings with the same keys and pairwise same values are the same. */
  lemma SameByKeys(a: Value, b: Value)
    requires a.Map? && b.Map? && a.entries.Keys == b.entries.Keys
    requires forall k | k in a.entries :: Same(a.entries[k], b.entries[k])
    ensures Same(a, b)
  {
    assert |a.entries| == |a.entries.Keys| == |b.entries.Keys| == |b.entries|;
  }

  lemma {:induction false} MergeRespectsSame(e: Value, e': Value, i: Value, i': Value)
    requires e.Map? && e'.Map? && i.Map? && i'.Map?
    requires Same(e, e') && Same(i, i')
    ensures Same(Merge(e, i), Merge(e', i'))
    decreases i
  {
    SameKeys(e, e');
    SameKeys(i, i');
    var r, r' := Merge(e, i), Merge(e', i');
    forall k | k in r.entries ensures Same(r.entries[k], r'.entries[k]) {
      MergeEntry(e, i, k);
      MergeEntry(e', i', k);
      if k in i.entries {
        var v, v' := i.entries[k], i'.entries[k];
        assert Same(v, v');
        if v.Map? && k in e.entries && e.entries[k].Map? {
          assert Same(e.entries[k], e'.entries[k]);
          MergeRespectsSame(e.entries[k], e'.entries[k], v, v');
        }
      }
    }
    SameByKeys(r, r');
  }

  /** Merging a value an entry already holds changes nothing. This is why the
      editor may skip the keys whose value is the same. */
  lemma {:induction false} MergeOfSame(e: Value, i: Value)
    requires e.Map? && i.Map? && Same(e, i)
    ensures Same(e, Merge(e, i))
    decreases i
  {
    SameKeys(e, i);
    var r := Merge(e, i);
    forall k | k in e.entries ensures Same(e.entries[k], r.entries[k]) {
      MergeEntry(e, i, k);
      assert Same(e.entries[k], i.entries[k]);
      if i.entries[k].Map? {
        MergeOfSame(e.entries[k], i.entries[k]);
      }
    }
    SameByKeys(e, r);
  }

  /** Saving the same props twice is saving them once. */
  lemma {:induction false} MergeTwice(e: Value, i: Value)
    requires e.Map? && i.Map?
    ensures Merge(Merge(e, i), i) == Merge(e, i)
    decreases i
  {
    var r := Merge(e, i);
    var rr := Merge(r, i);
    forall k | k in r.entries ensures rr.entries[k] == r.entries[k] {
      MergeEntry(e, i, k);
      MergeEntry(r, i, k);
      if k in i.entries && i.entries[k].Map? {
        var v := i.entries[k];
        if k in e.entries && e.entries[k].Map? {
          MergeTwice(e.entries[k], v);
        } else {
          MergeSelf(v);
        }
      }
    }
    assert rr.entries == r.entries;
  }

  lemma {:induction false} MergeSelf(v: Value)
    requires v.Map?
    ensures Merge(v, v) == v
  {
    var r := Merge(v, v);
    forall k | k in v.entries ensures r.entries[k] == v.entries[k] {
      MergeEntry(v, v, k);
      if v.entries[k].Map? {
        MergeSelf(v.entries[k]);
      }
    }
    assert r.entries == v.entries;
  }
}
