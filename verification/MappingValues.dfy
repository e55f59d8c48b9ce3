/** What the edited mapping holds: the merge, the replacement, or the one-level
    update of its old value, with its keys in their old order. */
module MappingValues {
  import opened Text
  import opened Values
  import opened LineGeometry
  import opened LineSplice
  import opened MappingEdits
  import opened MappingText
  import opened MappingOrder

  /** What an update must leave: props alone when keys are dropped, the
      one-level update when nested maps are replaced, else the deep merge. */
  function Expected(c: Ctx, current: Value, props: map<string, Value>, drop: bool): (r: Value)
    requires current.Map?
    ensures r.Map?
  {
    if drop then Map(props)
    else if c.nestedReplace then MergeTop(current, Map(props))
    else Merge(current, Map(props))
  }

  /** What one key must leave. */
  function ExpectedKey(c: Ctx, cur: Value, v: Value): Value {
    if !c.nestedReplace && cur.Map? && v.Map? then Merge(cur, v) else v
  }

  /** In replace mode an empty map leaves a bare key, which reads as null. */
  ghost predicate KeyFaithful(c: Ctx, p: Pair, v: Value)
    decreases p
  {
    Same(Decode(p.val), v) || !c.nestedReplace || !v.Map? || !p.val.Block?
    || (v.entries != map[] && Faithful(c, p.val, v.entries))
  }

  /** No nested mapping that changes is set to the empty map. */
  ghost predicate Faithful(c: Ctx, n: Node, props: map<string, Value>)
    requires n.Block?
    decreases n
  {
    forall i | 0 <= i < |n.pairs| && n.pairs[i].key in props :: KeyFaithful(c, n.pairs[i], props[n.pairs[i].key])
  }

  function ItemValue(it: Item): Value
    requires !it.Filler?
  {
    match it
    case Entry(_, _, v) => v
    case Nested(_, _, items) => NestedValue(ItemsMap(items))
  }

  function ItemKeys(items: seq<Item>): seq<string> {
    if items == [] then []
    else (if items[0].Filler? then [] else [items[0].key]) + ItemKeys(items[1..])
  }

  /** The keys of pairs that stay, in file order. */
  function KeptKeys(pairs: seq<Pair>, props: map<string, Value>, drop: bool): seq<string> {
    if pairs == [] then []
    else (if drop && pairs[0].key !in props then [] else [pairs[0].key]) + KeptKeys(pairs[1..], props, drop)
  }

  // ----- reading lists of items

  lemma MapRegroup(x: map<string, Value>, y: map<string, Value>, z: map<string, Value>)
    ensures (x + y) + z == x + (y + z)
  {
  }

  lemma {:induction false} ItemsMapConcat(a: seq<Item>, b: seq<Item>)
    ensures ItemsMap(a + b) == ItemsMap(a) + ItemsMap(b)
  {
    if a == [] {
      assert a + b == b;
    } else {
      hide ItemMap;
      assert (a + b)[0] == a[0] && (a + b)[1..] == a[1..] + b;
      ItemsMapConcat(a[1..], b);
      MapRegroup(ItemMap(a[0]), ItemsMap(a[1..]), ItemsMap(b));
    }
  }

  lemma {:induction false} ItemKeysConcat(a: seq<Item>, b: seq<Item>)
    ensures ItemKeys(a + b) == ItemKeys(a) + ItemKeys(b)
  {
    if a == [] {
      assert a + b == b;
    } else {
      assert (a + b)[1..] == a[1..] + b;
      ItemKeysConcat(a[1..], b);
    }
  }

  lemma ItemsMapPair(lines: seq<string>, it: Item)
    ensures ItemsMap([Filler(lines), it]) == ItemMap(it)
    ensures ItemKeys([Filler(lines), it]) == if it.Filler? then [] else [it.key]
  {
    assert [Filler(lines), it][1..] == [it];
    assert ItemsMap([it]) == ItemMap(it) + map[];
    assert ItemKeys([it]) == (if it.Filler? then [] else [it.key]) + [];
  }

  // ----- one key at a time

  function Lookup(m: map<string, Value>, key: string): Option<Value> {
    if key in m then Some(m[key]) else None
  }

  /** The pairs sit on lines of the file. */
  ghost predicate Placed(c: Ctx, n: Node) {
    n.Block? && |c.kinds| == |c.doc| && forall j | 0 <= j < |n.pairs| :: n.pairs[j].line < |c.doc|
  }

  lemma UnderPlaced(c: Ctx, k: nat, col: nat, n: Node)
    requires Under(c, k, col, n)
    ensures Placed(c, n)
  {
    forall j | 0 <= j < |n.pairs| ensures n.pairs[j].line < |c.doc| { PairSpan(c, k, col, n, j); }
  }

  predicate Kept(p: Pair, props: map<string, Value>, drop: bool) {
    p.key in props || !drop
  }

  /** What a pair leaves under its key. */
  function PairValue(c: Ctx, p: Pair, col: nat, props: map<string, Value>, drop: bool): Option<Value>
    requires |c.kinds| == |c.doc| && p.line < |c.doc|
  {
    if p.key in props then
      var it := OutKey(c, p, col, props[p.key]);
      if it.Filler? then None else Some(ItemValue(it))
    else if drop then None
    else Some(Decode(p.val))
  }

  lemma OutPairItem(c: Ctx, p: Pair, col: nat, props: map<string, Value>, drop: bool)
    requires |c.kinds| == |c.doc| && p.line < |c.doc|
    ensures var it, v := OutPair(c, p, col, props, drop), PairValue(c, p, col, props, drop);
            && (Kept(p, props, drop) <==> v.Some?)
            && (if v.Some? then !it.Filler? && it.key == p.key && ItemMap(it) == map[p.key := v.value]
                else it.Filler? && ItemMap(it) == map[])
  {
    hide HeadStart, BlockEnd, ValueEnd, Same, Decode, EditScalar, OutSet;
  }

  /** What the pairs from the i-th on leave under a key. */
  function PairsLookup(c: Ctx, n: Node, props: map<string, Value>, drop: bool, i: nat, key: string): Option<Value>
    requires Placed(c, n) && i <= |n.pairs|
    decreases |n.pairs| - i
  {
    if i == |n.pairs| then None
    else if n.pairs[i].key == key then PairValue(c, n.pairs[i], n.col, props, drop)
    else PairsLookup(c, n, props, drop, i + 1, key)
  }

  lemma {:induction false} PairsLookupAt(c: Ctx, n: Node, props: map<string, Value>, drop: bool, i: nat, key: string)
    requires Placed(c, n) && i <= |n.pairs|
    requires forall j | 0 <= j < i :: n.pairs[j].key != key
    ensures PairsLookup(c, n, props, drop, i, key)
         == if Has(n.pairs, key) then PairValue(c, n.pairs[Find(n.pairs, key)], n.col, props, drop) else None
    decreases |n.pairs| - i
  {
    hide PairValue;
    if i < |n.pairs| {
      if n.pairs[i].key != key { PairsLookupAt(c, n, props, drop, i + 1, key); }
      else { assert Find(n.pairs, key) == i; }
    }
  }

  lemma {:induction false} PairsLookupNone(c: Ctx, n: Node, props: map<string, Value>, drop: bool, i: nat, key: string)
    requires Placed(c, n) && i <= |n.pairs|
    requires forall j | i <= j < |n.pairs| :: n.pairs[j].key != key
    ensures PairsLookup(c, n, props, drop, i, key) == None
    decreases |n.pairs| - i
  {
    if i < |n.pairs| { PairsLookupNone(c, n, props, drop, i + 1, key); }
  }

  lemma LookupJoin(a: map<string, Value>, b: map<string, Value>, key: string)
    ensures Lookup(a + b, key) == if Lookup(b, key).Some? then Lookup(b, key) else Lookup(a, key)
  {
  }

  lemma {:induction false} OutPairsLookup(
    c: Ctx, n: Node, props: map<string, Value>, drop: bool, i: nat, from: nat, to: nat, key: string)
    requires Placed(c, n) && DistinctKeys(n.pairs) && i <= |n.pairs|
    ensures Lookup(ItemsMap(OutPairs(c, n, props, drop, i, from, to)), key) == PairsLookup(c, n, props, drop, i, key)
    ensures ItemKeys(OutPairs(c, n, props, drop, i, from, to)) == KeptKeys(n.pairs[i..], props, drop)
    decreases |n.pairs| - i
  {
    hide OutPair, BlockEnd, HeadStart, Cut, PairValue;
    if i < |n.pairs| {
      var p := n.pairs[i];
      var b := PastBlock(c, p.line, n.col);
      OutPairsLookup(c, n, props, drop, i + 1, b, to, key);
      OutPairItem(c, p, n.col, props, drop);
      var gap, y := Cut(c.doc, from, Head(c, p, n.col)), OutPair(c, p, n.col, props, drop);
      var rest := OutPairs(c, n, props, drop, i + 1, b, to);
      ItemsMapConcat([Filler(gap), y], rest);
      ItemKeysConcat([Filler(gap), y], rest);
      ItemsMapPair(gap, y);
      LookupJoin(ItemMap(y), ItemsMap(rest), key);
      if p.key == key { PairsLookupNone(c, n, props, drop, i + 1, key); }
      assert n.pairs[i..][1..] == n.pairs[i + 1..];
    } else {
      assert ItemsMap([Filler(Cut(c.doc, from, to))]) == map[];
    }
  }

  lemma {:induction false} AddedKeysHolds(pairs: seq<Pair>, props: map<string, Value>, order: seq<string>, key: string)
    ensures key in AddedKeys(pairs, props, order) <==> key in order && key in props && !Has(pairs, key)
  {
    hide Has;
    if order != [] { AddedKeysHolds(pairs, props, order[1..], key); }
  }

  lemma {:induction false} AddedLookup(c: Ctx, col: nat, props: map<string, Value>, keys: seq<string>, key: string)
    requires forall i | 0 <= i < |keys| :: keys[i] in props
    ensures Lookup(ItemsMap(AddedItems(c, col, props, keys)), key)
         == if key in keys && key in props then Some(props[key]) else None
    ensures ItemKeys(AddedItems(c, col, props, keys)) == keys
  {
    if keys != [] {
      AddedLookup(c, col, props, keys[1..], key);
      var it := Entry(keys[0], c.renderPair(keys[0], props[keys[0]], col), props[keys[0]]);
      var rest := AddedItems(c, col, props, keys[1..]);
      assert AddedItems(c, col, props, keys) == [it] + rest;
      assert ([it] + rest)[1..] == rest;
      LookupJoin(ItemMap(it), ItemsMap(rest), key);
      assert keys == [keys[0]] + keys[1..];
    }
  }

  /** The keys of the edited mapping: those that stay in their old order, then
      the new ones in the order they were visited. */
  lemma SetKeepsOrder(c: Ctx, k: nat, col: nat, n: Node, props: map<string, Value>, order: seq<string>, drop: bool)
    requires Under(c, k, col, n)
    ensures ItemKeys(OutSet(c, k, col, n, props, order, drop))
         == KeptKeys(n.pairs, props, drop) + AddedKeys(n.pairs, props, order)
  {
    var to, added := PastBlock(c, k, col), AddedKeys(n.pairs, props, order);
    UnderPlaced(c, k, col, n);
    hide Under, OutPairs, AddedKeys, BlockEnd;
    OutPairsLookup(c, n, props, drop, 0, k + 1, to, "");
    assert n.pairs[0..] == n.pairs;
    forall i | 0 <= i < |added| ensures added[i] in props { AddedKeysHolds(n.pairs, props, order, added[i]); }
    AddedLookup(c, n.col, props, added, "");
    ItemKeysConcat(OutPairs(c, n, props, drop, 0, k + 1, to), AddedItems(c, n.col, props, added));
  }

  /** The edited mapping under one key. */
  lemma OutSetLookup(
    c: Ctx, k: nat, col: nat, n: Node, props: map<string, Value>, order: seq<string>, drop: bool, key: string)
    requires Under(c, k, col, n) && Visits(order, props)
    ensures Placed(c, n)
    ensures Lookup(ItemsMap(OutSet(c, k, col, n, props, order, drop)), key)
         == if Has(n.pairs, key) then PairValue(c, n.pairs[Find(n.pairs, key)], n.col, props, drop)
            else Lookup(props, key)
  {
    var to, added := PastBlock(c, k, col), AddedKeys(n.pairs, props, order);
    UnderPlaced(c, k, col, n);
    AddedKeysHolds(n.pairs, props, order, key);
    assert key in props ==> key in order;
    hide Under, Visits, OutPairs, AddedKeys, BlockEnd, PairValue;
    OutPairsLookup(c, n, props, drop, 0, k + 1, to, key);
    PairsLookupAt(c, n, props, drop, 0, key);
    forall i | 0 <= i < |added| ensures added[i] in props { AddedKeysHolds(n.pairs, props, order, added[i]); }
    AddedLookup(c, n.col, props, added, key);
    var x, y := OutPairs(c, n, props, drop, 0, k + 1, to), AddedItems(c, n.col, props, added);
    ItemsMapConcat(x, y);
    LookupJoin(ItemsMap(x), ItemsMap(y), key);
  }

  lemma {:induction false} DecodeLookup(n: Node, i: nat, key: string)
    requires n.Block? && DistinctKeys(n.pairs) && i <= |n.pairs|
    requires forall j | 0 <= j < i :: n.pairs[j].key != key
    ensures Lookup(DecodePairs(n, i), key)
         == if Has(n.pairs, key) then Some(Decode(n.pairs[Find(n.pairs, key)].val)) else None
    decreases |n.pairs| - i
  {
    if i < |n.pairs| {
      if n.pairs[i].key == key {
        DecodeNone(n, i + 1, key);
        assert Find(n.pairs, key) == i;
      } else {
        DecodeLookup(n, i + 1, key);
      }
    }
  }

  lemma {:induction false} DecodeNone(n: Node, i: nat, key: string)
    requires n.Block? && i <= |n.pairs|
    requires forall j | i <= j < |n.pairs| :: n.pairs[j].key != key
    ensures key !in DecodePairs(n, i)
    decreases |n.pairs| - i
  {
    if i < |n.pairs| { DecodeNone(n, i + 1, key); }
  }

  /** What an update must leave under one key. */
  lemma ExpectedLookup(c: Ctx, n: Node, props: map<string, Value>, drop: bool, key: string)
    requires n.Block? && DistinctKeys(n.pairs) && (drop ==> c.nestedReplace)
    ensures Lookup(Expected(c, Decode(n), props, drop).entries, key)
         == if !Has(n.pairs, key) then Lookup(props, key)
            else var cur := Decode(n.pairs[Find(n.pairs, key)].val);
                 if key in props then Some(ExpectedKey(c, cur, props[key])) else if drop then None else Some(cur)
  {
    DecodeLookup(n, 0, key);
    hide Has, Find, DecodePairs, Merge;
    assert Decode(n) == Map(DecodePairs(n, 0));
    if !drop && !c.nestedReplace && (key in DecodePairs(n, 0) || key in props) {
      MergeEntry(Decode(n), Map(props), key);
    }
  }

  // ----- the values

  ghost predicate SameAt(a: map<string, Value>, b: map<string, Value>, key: string) {
    match (Lookup(a, key), Lookup(b, key))
    case (None, None) => true
    case (Some(x), Some(y)) => Same(x, y)
    case _ => false
  }

  lemma SameByLookup(a: map<string, Value>, b: map<string, Value>)
    ensures Same(Map(a), Map(b)) <==> forall key :: SameAt(a, b, key)
  {
    if Same(Map(a), Map(b)) {
      SameKeys(Map(a), Map(b));
    }
    if forall key :: SameAt(a, b, key) {
      forall key ensures key in a <==> key in b { assert SameAt(a, b, key); }
      forall key | key in a ensures Same(a[key], b[key]) { assert SameAt(a, b, key); }
      assert a.Keys == b.Keys;
      SameByKeys(Map(a), Map(b));
    }
  }

  lemma InlineIsScalar(c: Ctx, k: nat, col: nat, n: Node, i: nat)
    requires Under(c, k, col, n) && i < |n.pairs|
    ensures var v := n.pairs[i].val; v.Leaf? && v.inline ==> v.value.Scalar?
  {
    hide ValueEnd, KeyLine;
    var p := n.pairs[i];
    assert NestedAt(c.kinds, p, n.col);
    assert Located(c.kinds, p.val, p.line + 1, ValueEnd(c.kinds, p.line, n.col) + 1);
  }

  lemma {:induction false} KeyValues(c: Ctx, k: nat, col: nat, n: Node, i: nat, v: Value)
    requires Under(c, k, col, n) && i < |n.pairs| && VisitsNested(c)
    ensures n.pairs[i].line < |c.doc|
    ensures !OutKey(c, n.pairs[i], n.col, v).Filler?
    ensures Same(ItemValue(OutKey(c, n.pairs[i], n.col, v)), ExpectedKey(c, Decode(n.pairs[i].val), v))
       <==> KeyFaithful(c, n.pairs[i], v)
    decreases n, 0
  {
    PairSpan(c, k, col, n, i);
    InlineIsScalar(c, k, col, n, i);
    hide HeadStart, BlockEnd, ValueEnd, Under, OutSet, Faithful, Visits;
    var p := n.pairs[i];
    var cur := Decode(p.val);
    if Same(cur, v) {
      SameReflexive(v);
      if cur.Map? && v.Map? { MergeOfSame(cur, v); }
    } else if v.Map? && p.val.Block? {
      NestedVisits(c, v.entries);
      var order := c.nestedOrder(v.entries.Keys);
      NestedValues(c, p.line, n.col, p.val, v, order);
    } else {
      SameReflexive(ExpectedKey(c, cur, v));
    }
  }

  /** A replaced mapping is left with no key exactly when props is empty. */
  lemma LeftWithNothing(c: Ctx, k: nat, col: nat, n: Node, props: map<string, Value>, order: seq<string>, drop: bool)
    requires Under(c, k, col, n) && Visits(order, props)
    ensures ItemsMap(OutSet(c, k, col, n, props, order, drop)) == map[] <==> drop && props == map[]
  {
    var m := ItemsMap(OutSet(c, k, col, n, props, order, drop));
    UnderPlaced(c, k, col, n);
    forall key
      ensures key in m <==> if Has(n.pairs, key) then Kept(n.pairs[Find(n.pairs, key)], props, drop) else key in props
    {
      OutSetLookup(c, k, col, n, props, order, drop, key);
      if Has(n.pairs, key) { OutPairItem(c, n.pairs[Find(n.pairs, key)], n.col, props, drop); }
    }
    FindIs(n.pairs, 0);
    assert n.pairs[0].key in m <==> Kept(n.pairs[0], props, drop);
    if drop && props == map[] {
      assert m.Keys == {};
    } else if drop {
      var key :| key in props;
      assert key in m;
    }
  }

  lemma {:induction false} NestedValues(c: Ctx, k: nat, col: nat, n: Node, v: Value, order: seq<string>)
    requires Under(c, k, col, n) && VisitsNested(c) && v.Map? && Visits(order, v.entries)
    ensures Same(NestedValue(ItemsMap(OutSet(c, k, col, n, v.entries, order, c.nestedReplace))),
                 ExpectedKey(c, Decode(n), v))
       <==> !c.nestedReplace || (v.entries != map[] && Faithful(c, n, v.entries))
    decreases n, 4
  {
    SetValues(c, k, col, n, v.entries, order, c.nestedReplace);
    hide Under, OutSet, Visits, VisitsNested, Has, DecodePairs, OutPair;
    assert v == Map(v.entries);
    if !c.nestedReplace {
      assert Faithful(c, n, v.entries);
    }
  }

  lemma FaithfulByKey(c: Ctx, n: Node, props: map<string, Value>)
    requires n.Block? && DistinctKeys(n.pairs)
    ensures Faithful(c, n, props) <==>
            forall key | Has(n.pairs, key) && key in props :: KeyFaithful(c, n.pairs[Find(n.pairs, key)], props[key])
  {
    hide KeyFaithful;
    forall i | 0 <= i < |n.pairs| ensures Find(n.pairs, n.pairs[i].key) == i && Has(n.pairs, n.pairs[i].key) {
      FindIs(n.pairs, i);
    }
  }

  lemma {:induction false} KeySame(
    c: Ctx, k: nat, col: nat, n: Node, props: map<string, Value>, order: seq<string>, drop: bool, key: string)
    requires Under(c, k, col, n) && VisitsNested(c) && Visits(order, props) && (drop ==> c.nestedReplace)
    ensures SameAt(ItemsMap(OutSet(c, k, col, n, props, order, drop)), Expected(c, Decode(n), props, drop).entries, key)
       <==> (Has(n.pairs, key) && key in props ==> KeyFaithful(c, n.pairs[Find(n.pairs, key)], props[key]))
    decreases n, 1
  {
    hide Under, OutSet, Visits, VisitsNested, KeyFaithful, OutKey, Same, Expected, ExpectedKey, Decode, Find, ItemsMap;
    OutSetLookup(c, k, col, n, props, order, drop, key);
    ExpectedLookup(c, n, props, drop, key);
    if Has(n.pairs, key) {
      var p := n.pairs[Find(n.pairs, key)];
      SameReflexive(Decode(p.val));
      if key in props { KeyValues(c, k, col, n, Find(n.pairs, key), props[key]); }
    } else if key in props {
      SameReflexive(props[key]);
    }
  }

  lemma {:induction false} SetEntries(
    c: Ctx, k: nat, col: nat, n: Node, props: map<string, Value>, order: seq<string>, drop: bool)
    requires Under(c, k, col, n) && VisitsNested(c) && Visits(order, props)
    requires drop ==> c.nestedReplace
    ensures Same(Map(ItemsMap(OutSet(c, k, col, n, props, order, drop))), Expected(c, Decode(n), props, drop))
       <==> Faithful(c, n, props)
    decreases n, 2
  {
    FaithfulByKey(c, n, props);
    var m, e := ItemsMap(OutSet(c, k, col, n, props, order, drop)), Expected(c, Decode(n), props, drop);
    forall key ensures SameAt(m, e.entries, key)
                  <==> (Has(n.pairs, key) && key in props ==> KeyFaithful(c, n.pairs[Find(n.pairs, key)], props[key])) {
      KeySame(c, k, col, n, props, order, drop, key);
    }
    hide Under, OutSet, Visits, VisitsNested, KeyFaithful, Expected, SameAt, Same, Faithful;
    SameByLookup(m, e.entries);
    assert e == Map(e.entries);
  }

  /** The updated mapping reads as the update promises exactly when no nested
      mapping that changes is replaced by an empty map, and neither is the
      mapping itself. */
  lemma {:induction false} SetValues(
    c: Ctx, k: nat, col: nat, n: Node, props: map<string, Value>, order: seq<string>, drop: bool)
    requires Under(c, k, col, n) && VisitsNested(c) && Visits(order, props)
    requires drop ==> c.nestedReplace
    ensures Same(NestedValue(ItemsMap(OutSet(c, k, col, n, props, order, drop))), Expected(c, Decode(n), props, drop))
       <==> Faithful(c, n, props) && !(drop && props == map[])
    decreases n, 3
  {
    SetEntries(c, k, col, n, props, order, drop);
    LeftWithNothing(c, k, col, n, props, order, drop);
    hide Under, OutSet, Visits, VisitsNested, Faithful, Expected, ItemsMap;
  }
}
