/** The tree merge of a whole-file save: the new tree's values in the old
    tree's order, with the old comments and the on-disk `${VAR}` refs kept. */
module NodeMerge {
  import opened Text
  import opened Sequences
  import opened Names

  /** The text of a node; meta stands for its comments and style. */
  datatype Label = Label(tag: string, value: string, meta: string)

  /** A YAML node. A document or a sequence has items, a mapping has pairs with
      scalar keys. */
  datatype Node =
    | Scalar(head: Label)
    | Alias(head: Label)
    | Items(isDoc: bool, head: Label, items: seq<Node>)
    | Mapping(head: Label, pairs: seq<Pair>)

  datatype Pair = Pair(key: Label, val: Node)

  /** Expands the `${VAR}` refs of a text; None when there is no env map. */
  type Expand = Option<string -> string>

  predicate HasRef(s: string) {
    exists i :: 0 <= i < |s| - 1 && s[i] == '$' && s[i + 1] == '{'
  }

  predicate KeepOnDisk(orig: string, now: string, env: Expand) {
    || orig == now
    || (env.Some? && HasRef(orig) && env.value(orig) == now)
  }

  predicate SameKind(o: Node, n: Node) {
    match o
    case Scalar(_) => n.Scalar?
    case Alias(_) => n.Alias?
    case Items(d, _, _) => n.Items? && n.isDoc == d
    case Mapping(_, _) => n.Mapping?
  }

  /** The index of the pair with this key, or |pairs|. */
  function FindKey(pairs: seq<Pair>, key: string): (r: nat)
    ensures r <= |pairs| && (r < |pairs| ==> pairs[r].key.value == key)
    ensures forall j | 0 <= j < r :: pairs[j].key.value != key
  {
    if pairs == [] || pairs[0].key.value == key then 0 else 1 + FindKey(pairs[1..], key)
  }

  predicate HasKey(pairs: seq<Pair>, key: string) {
    FindKey(pairs, key) < |pairs|
  }

  ghost predicate DistinctKeys(pairs: seq<Pair>) {
    DistinctBy(pairs, (p: Pair) => p.key.value)
  }

  /** No mapping repeats a key. */
  ghost predicate WellFormed(n: Node) {
    match n
    case Scalar(_) => true
    case Alias(_) => true
    case Items(_, _, items) => forall i | 0 <= i < |items| :: WellFormed(items[i])
    case Mapping(_, pairs) => DistinctKeys(pairs) && forall i | 0 <= i < |pairs| :: WellFormed(pairs[i].val)
  }

  // ----- the merge

  function Merge(o: Node, n: Node, env: Expand): Node
    decreases o, 2, 0
  {
    if !SameKind(o, n) then n
    else if o.Scalar? && KeepOnDisk(o.head.value, n.head.value, env) then o
    else
      var head := Label(n.head.tag, n.head.value, o.head.meta);
      match o
      case Scalar(_) => Scalar(head)
      case Alias(_) => Alias(head)
      case Items(d, _, _) => Items(d, head, MergeItems(o, n, env, 0))
      case Mapping(_, _) => Mapping(head, MergePairs(o, n, env, 0) + NewPairs(o.pairs, n.pairs))
  }

  /** The items of a list from the i-th on: merged while both lists have one. */
  function MergeItems(o: Node, n: Node, env: Expand, i: nat): seq<Node>
    requires o.Items? && n.Items? && i <= |n.items|
    decreases o, 1, |n.items| - i
  {
    if i == |n.items| then []
    else if i < |o.items| then [Merge(o.items[i], n.items[i], env)] + MergeItems(o, n, env, i + 1)
    else n.items[i..]
  }

  /** The key of a pair both mappings have. */
  function MergeKey(o: Label, n: Label, env: Expand): Label {
    if KeepOnDisk(o.value, n.value, env) then o else Label(n.tag, n.value, o.meta)
  }

  /** The old pairs from the i-th on that the new mapping still has. */
  function MergePairs(o: Node, n: Node, env: Expand, i: nat): seq<Pair>
    requires o.Mapping? && n.Mapping? && i <= |o.pairs|
    decreases o, 1, |o.pairs| - i
  {
    if i == |o.pairs| then []
    else
      var p, j := o.pairs[i], FindKey(n.pairs, o.pairs[i].key.value);
      (if j < |n.pairs|
       then [Pair(MergeKey(p.key, n.pairs[j].key, env), Merge(p.val, n.pairs[j].val, env))]
       else [])
      + MergePairs(o, n, env, i + 1)
  }

  /** The new pairs that the old mapping does not have. */
  function NewPairs(before: seq<Pair>, after: seq<Pair>): seq<Pair> {
    if after == [] then []
    else (if HasKey(before, after[0].key.value) then [] else [after[0]]) + NewPairs(before, after[1..])
  }

  /** idx holds the position of every key. */
  ghost predicate IsIndex(pairs: seq<Pair>, idx: map<string, nat>, upTo: nat)
    requires upTo <= |pairs|
  {
    && (forall k | k in idx :: idx[k] < upTo && pairs[idx[k]].key.value == k)
    && (forall j | 0 <= j < upTo :: pairs[j].key.value in idx)
  }

  method BuildIndex(pairs: seq<Pair>) returns (idx: map<string, nat>)
    ensures IsIndex(pairs, idx, |pairs|)
  {
    idx := map[];
    for i := 0 to |pairs|
      invariant IsIndex(pairs, idx, i)
    {
      idx := idx[pairs[i].key.value := i];
    }
  }

  lemma IndexHas(pairs: seq<Pair>, idx: map<string, nat>, k: string)
    requires IsIndex(pairs, idx, |pairs|) && DistinctKeys(pairs)
    ensures k in idx <==> HasKey(pairs, k)
    ensures k in idx ==> idx[k] == FindKey(pairs, k)
  {
    if k in idx { FindDistinct(pairs, idx[k]); }
  }

  /** The merge of two mappings as the editor runs it, with an index of each. */
  method MergeMapping(o: Node, n: Node, env: Expand) returns (content: seq<Pair>)
    requires o.Mapping? && n.Mapping? && DistinctKeys(o.pairs) && DistinctKeys(n.pairs)
    ensures content == MergePairs(o, n, env, 0) + NewPairs(o.pairs, n.pairs)
  {
    hide DistinctKeys, IsIndex, Merge, MergeKey, NewPairs;
    var origIdx := BuildIndex(o.pairs);
    var newIdx := BuildIndex(n.pairs);
    var newOnly := FindNewOnly(o.pairs, n.pairs, origIdx);
    content := [];
    for i := 0 to |o.pairs|
      invariant content + MergePairs(o, n, env, i) == MergePairs(o, n, env, 0)
    {
      var p := o.pairs[i];
      ghost var rest := MergePairs(o, n, env, i + 1);
      IndexHas(n.pairs, newIdx, p.key.value);
      if p.key.value in newIdx {
        var q := n.pairs[newIdx[p.key.value]];
        var pair := Pair(MergeKey(p.key, q.key, env), Merge(p.val, q.val, env));
        Regroup(content, [pair], rest);
        content := content + [pair];
      } else {
        assert [] + rest == rest;
      }
    }
    assert content + [] == content;
    var added := SelectPairs(n.pairs, newIdx, newOnly);
    content := content + added;
  }

  method SelectPairs(pairs: seq<Pair>, idx: map<string, nat>, keys: seq<string>) returns (r: seq<Pair>)
    requires IsIndex(pairs, idx, |pairs|) && DistinctKeys(pairs)
    requires forall i | 0 <= i < |keys| :: HasKey(pairs, keys[i])
    ensures r == PairsOf(pairs, keys)
  {
    hide DistinctKeys, IsIndex, FindKey;
    r := [];
    for i := 0 to |keys|
      invariant r == PairsOf(pairs, keys[..i])
    {
      assert keys[..i + 1] == keys[..i] + [keys[i]];
      IndexHas(pairs, idx, keys[i]);
      PairsOfSnoc(pairs, keys[..i], keys[i]);
      r := r + [pairs[idx[keys[i]]]];
    }
    assert keys[..|keys|] == keys;
  }

  method FindNewOnly(before: seq<Pair>, after: seq<Pair>, origIdx: map<string, nat>) returns (newOnly: seq<string>)
    requires IsIndex(before, origIdx, |before|) && DistinctKeys(before) && DistinctKeys(after)
    ensures PairsOf(after, newOnly) == NewPairs(before, after)
    ensures forall i | 0 <= i < |newOnly| :: HasKey(after, newOnly[i])
  {
    hide IsIndex, FindKey, DistinctKeys;
    newOnly := [];
    assert after[0..] == after;
    for i := 0 to |after|
      invariant PairsOf(after, newOnly) + NewPairs(before, after[i..]) == NewPairs(before, after)
      invariant forall i | 0 <= i < |newOnly| :: HasKey(after, newOnly[i])
    {
      var k := after[i].key.value;
      assert after[i..][0] == after[i] && after[i..][1..] == after[i + 1..];
      ghost var rest := NewPairs(before, after[i + 1..]);
      FindDistinct(after, i);
      IndexHas(before, origIdx, k);
      if k !in origIdx {
        PairsOfSnoc(after, newOnly, k);
        Regroup(PairsOf(after, newOnly), [after[i]], rest);
        newOnly := newOnly + [k];
      } else {
        assert [] + rest == rest;
      }
    }
    assert after[|after|..] == [];
    assert PairsOf(after, newOnly) + [] == PairsOf(after, newOnly);
  }

  /** The pairs with these keys. */
  ghost function PairsOf(pairs: seq<Pair>, keys: seq<string>): seq<Pair> {
    if keys == [] then []
    else PairsOf(pairs, keys[..|keys| - 1])
         + (var j := FindKey(pairs, keys[|keys| - 1]); if j < |pairs| then [pairs[j]] else [])
  }

  lemma PairsOfSnoc(pairs: seq<Pair>, keys: seq<string>, k: string)
    ensures PairsOf(pairs, keys + [k])
         == PairsOf(pairs, keys) + (var j := FindKey(pairs, k); if j < |pairs| then [pairs[j]] else [])
  {
    assert (keys + [k])[..|keys|] == keys;
  }

  lemma FindDistinct(pairs: seq<Pair>, i: nat)
    requires DistinctKeys(pairs) && i < |pairs|
    ensures FindKey(pairs, pairs[i].key.value) == i
  {
  }

  // ----- what the merged tree says

  /** m says what n says: the same shape and keys, and every scalar is n's text
      or an on-disk text that expands to it. */
  ghost predicate Represents(m: Node, n: Node, env: Expand)
    decreases n, 1
  {
    SameKind(m, n) &&
    match n
    case Scalar(l) => KeepOnDisk(m.head.value, l.value, env)
    case Alias(l) => m.head.value == l.value
    case Items(_, _, items) =>
      |m.items| == |items| && forall i | 0 <= i < |items| :: Represents(m.items[i], items[i], env)
    case Mapping(_, pairs) =>
      |m.pairs| == |pairs| && DistinctKeys(m.pairs) &&
      forall j | 0 <= j < |pairs| :: PairRepresented(m.pairs, pairs[j], env)
  }

  ghost predicate PairRepresented(pairs: seq<Pair>, p: Pair, env: Expand)
    decreases p, 0
  {
    var i := FindKey(pairs, p.key.value);
    i < |pairs| && Represents(pairs[i].val, p.val, env)
  }

  lemma {:induction false} RepresentsItself(n: Node, env: Expand)
    requires WellFormed(n)
    ensures Represents(n, n, env)
  {
    match n
    case Scalar(_) =>
    case Alias(_) =>
    case Items(_, _, items) =>
      forall i | 0 <= i < |items| ensures Represents(items[i], items[i], env) { RepresentsItself(items[i], env); }
    case Mapping(_, pairs) =>
      forall j | 0 <= j < |pairs| ensures PairRepresented(pairs, pairs[j], env) {
        FindDistinct(pairs, j);
        RepresentsItself(pairs[j].val, env);
      }
  }

  /** The keys of a list of pairs. */
  function Keys(pairs: seq<Pair>): (r: seq<string>)
    ensures |r| == |pairs|
    ensures forall i | 0 <= i < |pairs| :: r[i] == pairs[i].key.value
  {
    seq(|pairs|, i requires 0 <= i < |pairs| => pairs[i].key.value)
  }

  /** The old keys that the new mapping still has. */
  function Surviving(before: seq<Pair>, after: seq<Pair>): seq<string> {
    if before == [] then []
    else (if HasKey(after, before[0].key.value) then [before[0].key.value] else []) + Surviving(before[1..], after)
  }

  /** The new keys that the old mapping did not have. */
  function Appearing(before: seq<Pair>, after: seq<Pair>): seq<string> {
    if after == [] then []
    else (if HasKey(before, after[0].key.value) then [] else [after[0].key.value]) + Appearing(before, after[1..])
  }

  lemma KeysConcat(x: seq<Pair>, y: seq<Pair>)
    ensures Keys(x + y) == Keys(x) + Keys(y)
  {
  }

  lemma {:induction false} MergePairsKeys(o: Node, n: Node, env: Expand, i: nat)
    requires o.Mapping? && n.Mapping? && i <= |o.pairs|
    ensures Keys(MergePairs(o, n, env, i)) == Surviving(o.pairs[i..], n.pairs)
    decreases |o.pairs| - i
  {
    if i < |o.pairs| {
      MergePairsKeys(o, n, env, i + 1);
      assert o.pairs[i..][1..] == o.pairs[i + 1..];
      var p, j := o.pairs[i], FindKey(n.pairs, o.pairs[i].key.value);
      if j < |n.pairs| {
        var pair := Pair(MergeKey(p.key, n.pairs[j].key, env), Merge(p.val, n.pairs[j].val, env));
        KeysConcat([pair], MergePairs(o, n, env, i + 1));
        assert Keys([pair]) == [p.key.value];
      } else {
        assert [] + MergePairs(o, n, env, i + 1) == MergePairs(o, n, env, i + 1);
      }
    }
  }

  lemma {:induction false} NewPairsKeys(before: seq<Pair>, after: seq<Pair>)
    ensures Keys(NewPairs(before, after)) == Appearing(before, after)
  {
    if after != [] {
      NewPairsKeys(before, after[1..]);
      if !HasKey(before, after[0].key.value) {
        KeysConcat([after[0]], NewPairs(before, after[1..]));
        assert Keys([after[0]]) == [after[0].key.value];
      } else {
        assert [] + NewPairs(before, after[1..]) == NewPairs(before, after[1..]);
      }
    }
  }

  /** The keys of the merged mapping: the old ones that stay, in their old
      order, then the new ones in their new order. */
  lemma MergeKeepsOrder(o: Node, n: Node, env: Expand)
    requires o.Mapping? && n.Mapping?
    ensures Merge(o, n, env).Mapping?
    ensures Keys(Merge(o, n, env).pairs) == Surviving(o.pairs, n.pairs) + Appearing(o.pairs, n.pairs)
  {
    MergePairsKeys(o, n, env, 0);
    NewPairsKeys(o.pairs, n.pairs);
    KeysConcat(MergePairs(o, n, env, 0), NewPairs(o.pairs, n.pairs));
    assert o.pairs[0..] == o.pairs;
  }

  // ----- one key at a time

  function PairAt(pairs: seq<Pair>, k: string): Option<Pair> {
    var i := FindKey(pairs, k);
    if i < |pairs| then Some(pairs[i]) else None
  }

  lemma PairAtCons(p: Pair, rest: seq<Pair>, k: string)
    ensures PairAt([p] + rest, k) == if p.key.value == k then Some(p) else PairAt(rest, k)
  {
    assert ([p] + rest)[1..] == rest;
  }

  lemma {:induction false} PairAtConcat(x: seq<Pair>, y: seq<Pair>, k: string)
    ensures PairAt(x + y, k) == if PairAt(x, k).Some? then PairAt(x, k) else PairAt(y, k)
  {
    if x == [] {
      assert x + y == y;
    } else {
      assert x + y == [x[0]] + (x[1..] + y);
      assert x == [x[0]] + x[1..];
      PairAtConcat(x[1..], y, k);
      PairAtCons(x[0], x[1..] + y, k);
      PairAtCons(x[0], x[1..], k);
    }
  }

  lemma {:induction false} MergePairsAt(o: Node, n: Node, env: Expand, i: nat, k: string)
    requires o.Mapping? && n.Mapping? && i <= |o.pairs|
    ensures PairAt(MergePairs(o, n, env, i), k)
         == match (PairAt(o.pairs[i..], k), PairAt(n.pairs, k))
            case (Some(x), Some(y)) => Some(Pair(x.key, Merge(x.val, y.val, env)))
            case _ => None
    decreases |o.pairs| - i
  {
    if i < |o.pairs| {
      hide Merge, KeepOnDisk;
      MergePairsAt(o, n, env, i + 1, k);
      var p, j := o.pairs[i], FindKey(n.pairs, o.pairs[i].key.value);
      assert o.pairs[i..] == [p] + o.pairs[i + 1..];
      PairAtCons(p, o.pairs[i + 1..], k);
      var rest := MergePairs(o, n, env, i + 1);
      if j < |n.pairs| {
        var pair := Pair(MergeKey(p.key, n.pairs[j].key, env), Merge(p.val, n.pairs[j].val, env));
        PairAtCons(pair, rest, k);
        MergeKeyText(p.key, n.pairs[j].key, env);
      } else {
        assert [] + rest == rest;
      }
    }
  }

  lemma MergeKeyText(o: Label, n: Label, env: Expand)
    requires o.value == n.value
    ensures MergeKey(o, n, env).value == n.value && MergeKey(o, n, env) == o
  {
  }

  lemma {:induction false} NewPairsAt(before: seq<Pair>, after: seq<Pair>, k: string)
    ensures PairAt(NewPairs(before, after), k) == if HasKey(before, k) then None else PairAt(after, k)
  {
    if after != [] {
      hide HasKey;
      var p, rest := after[0], NewPairs(before, after[1..]);
      NewPairsAt(before, after[1..], k);
      assert after == [p] + after[1..];
      PairAtCons(p, after[1..], k);
      PairAtCons(p, rest, k);
      assert [] + rest == rest;
    }
  }

  /** The merged mapping under one key: the new value, merged over the old one
      where there was one; the key then keeps its comments. */
  lemma MergeAt(o: Node, n: Node, env: Expand, k: string)
    requires o.Mapping? && n.Mapping?
    ensures PairAt(MergePairs(o, n, env, 0) + NewPairs(o.pairs, n.pairs), k)
         == match PairAt(n.pairs, k)
            case None => None
            case Some(y) =>
              match PairAt(o.pairs, k)
              case None => Some(y)
              case Some(x) => Some(Pair(x.key, Merge(x.val, y.val, env)))
  {
    hide Merge, NewPairs, MergePairs;
    MergePairsAt(o, n, env, 0, k);
    assert o.pairs[0..] == o.pairs;
    NewPairsAt(o.pairs, n.pairs, k);
    PairAtConcat(MergePairs(o, n, env, 0), NewPairs(o.pairs, n.pairs), k);
  }

  // ----- the keys are the new ones

  lemma {:induction false} SurvivingOnly(before: seq<Pair>, after: seq<Pair>, k: string)
    ensures k in Surviving(before, after) <==> HasKey(before, k) && HasKey(after, k)
  {
    if before != [] { SurvivingOnly(before[1..], after, k); }
  }

  lemma {:induction false} AppearingOnly(before: seq<Pair>, after: seq<Pair>, k: string)
    ensures k in Appearing(before, after) <==> !HasKey(before, k) && HasKey(after, k)
  {
    if after != [] { AppearingOnly(before, after[1..], k); }
  }

  lemma {:induction false} SurvivingNoRepeats(before: seq<Pair>, after: seq<Pair>)
    requires DistinctKeys(before)
    ensures NoRepeats(Surviving(before, after))
  {
    if before != [] {
      SurvivingNoRepeats(before[1..], after);
      SurvivingOnly(before[1..], after, before[0].key.value);
      FirstIsOnly(before);
    }
  }

  lemma FirstIsOnly(pairs: seq<Pair>)
    requires pairs != [] && DistinctKeys(pairs)
    ensures !HasKey(pairs[1..], pairs[0].key.value) && DistinctKeys(pairs[1..])
  {
  }

  lemma {:induction false} AppearingNoRepeats(before: seq<Pair>, after: seq<Pair>)
    requires DistinctKeys(after)
    ensures NoRepeats(Appearing(before, after))
  {
    if after != [] {
      AppearingNoRepeats(before, after[1..]);
      AppearingOnly(before, after[1..], after[0].key.value);
      FirstIsOnly(after);
    }
  }

  lemma SameKeysSameLength(x: seq<string>, y: seq<string>)
    requires NoRepeats(x) && NoRepeats(y) && forall k :: k in x <==> k in y
    ensures |x| == |y|
  {
    NoRepeatsSize(x);
    NoRepeatsSize(y);
    assert SetOf(x) == SetOf(y);
  }

  lemma KeysHas(pairs: seq<Pair>, k: string)
    ensures k in Keys(pairs) <==> HasKey(pairs, k)
  {
    if HasKey(pairs, k) {
      assert Keys(pairs)[FindKey(pairs, k)] == k;
    }
  }

  lemma MergeKeysAre(o: Node, n: Node, env: Expand)
    requires o.Mapping? && n.Mapping? && DistinctKeys(o.pairs) && DistinctKeys(n.pairs)
    ensures Merge(o, n, env).Mapping? && DistinctKeys(Merge(o, n, env).pairs)
    ensures |Merge(o, n, env).pairs| == |n.pairs|
  {
    MergeKeepsOrder(o, n, env);
    var m := Merge(o, n, env).pairs;
    var x, y := Surviving(o.pairs, n.pairs), Appearing(o.pairs, n.pairs);
    SurvivingNoRepeats(o.pairs, n.pairs);
    AppearingNoRepeats(o.pairs, n.pairs);
    hide Merge, Surviving, Appearing, HasKey;
    forall k ensures !(k in x && k in y) && (k in x + y <==> k in Keys(n.pairs)) {
      SurvivingOnly(o.pairs, n.pairs, k);
      AppearingOnly(o.pairs, n.pairs, k);
      KeysHas(n.pairs, k);
    }
    assert NoRepeats(Keys(m)) by {
      assert Keys(m) == x + y;
      JoinNoRepeats(x, y);
    }
    assert NoRepeats(Keys(n.pairs));
    SameKeysSameLength(Keys(m), Keys(n.pairs));
    forall i, j | 0 <= i < j < |m| ensures m[i].key.value != m[j].key.value {
      assert Keys(m)[i] != Keys(m)[j];
    }
  }

  lemma JoinNoRepeats(x: seq<string>, y: seq<string>)
    requires NoRepeats(x) && NoRepeats(y) && forall k :: !(k in x && k in y)
    ensures NoRepeats(x + y)
  {
    forall i, j | 0 <= i < j < |x + y| ensures (x + y)[i] != (x + y)[j] {
      if i < |x| <= j { assert (x + y)[i] in x && (x + y)[j] in y; }
    }
  }

  // ----- the merged tree says what the new tree says

  lemma {:induction false} MergeRepresents(o: Node, n: Node, env: Expand)
    requires WellFormed(o) && WellFormed(n)
    ensures Represents(Merge(o, n, env), n, env)
    decreases n
  {
    if !SameKind(o, n) {
      RepresentsItself(n, env);
    } else {
      match n
      case Scalar(_) =>
      case Alias(_) =>
      case Items(_, _, _) => MergeItemsRepresent(o, n, env, 0);
      case Mapping(_, pairs) =>
        MergeKeysAre(o, n, env);
        forall j | 0 <= j < |pairs| ensures PairRepresented(Merge(o, n, env).pairs, pairs[j], env) {
          MergedPairRepresents(o, n, env, j);
        }
        hide Merge, PairRepresented, DistinctKeys;
    }
  }

  lemma {:induction false} MergedPairRepresents(o: Node, n: Node, env: Expand, j: nat)
    requires WellFormed(o) && WellFormed(n) && o.Mapping? && n.Mapping? && j < |n.pairs|
    ensures Merge(o, n, env).Mapping? && PairRepresented(Merge(o, n, env).pairs, n.pairs[j], env)
    decreases n, 0
  {
    var p := n.pairs[j];
    var k := p.key.value;
    MergeAt(o, n, env, k);
    FindDistinct(n.pairs, j);
    var i := FindKey(o.pairs, k);
    if i < |o.pairs| {
      MergeRepresents(o.pairs[i].val, p.val, env);
    } else {
      RepresentsItself(p.val, env);
    }
  }

  lemma {:induction false} MergeItemsRepresent(o: Node, n: Node, env: Expand, i: nat)
    requires WellFormed(o) && WellFormed(n) && o.Items? && n.Items? && i <= |n.items|
    ensures var items := MergeItems(o, n, env, i);
            && |items| == |n.items| - i
            && forall j | 0 <= j < |items| :: Represents(items[j], n.items[i + j], env)
    decreases n, |n.items| - i
  {
    if i < |n.items| {
      if i < |o.items| {
        MergeItemsRepresent(o, n, env, i + 1);
        MergeRepresents(o.items[i], n.items[i], env);
      } else {
        forall j | i <= j < |n.items| ensures Represents(n.items[j], n.items[j], env) {
          RepresentsItself(n.items[j], env);
        }
      }
    }
  }

  // ----- saving again

  lemma {:induction false} MergeSelf(n: Node, env: Expand)
    requires WellFormed(n)
    ensures Merge(n, n, env) == n
    decreases n
  {
    match n
    case Scalar(_) =>
    case Alias(_) =>
    case Items(_, _, items) =>
      forall i | 0 <= i < |items| ensures Merge(items[i], items[i], env) == items[i] { MergeSelf(items[i], env); }
      ItemsFixed(n, n, env, 0);
      assert items[0..] == items;
    case Mapping(_, pairs) =>
      forall i | 0 <= i < |pairs| ensures Fixed(pairs[i], n.pairs, env) {
        FindDistinct(pairs, i);
        MergeSelf(pairs[i].val, env);
      }
      PairsFixed(n, n, env, 0);
      NothingNew(pairs, pairs);
      assert pairs[0..] == pairs;
  }

  /** Merging the pair over again changes nothing. */
  predicate Fixed(p: Pair, after: seq<Pair>, env: Expand) {
    var j := FindKey(after, p.key.value);
    j < |after| && Merge(p.val, after[j].val, env) == p.val
  }

  lemma {:induction false} ItemsFixed(m: Node, n: Node, env: Expand, i: nat)
    requires m.Items? && n.Items? && |m.items| == |n.items| && i <= |n.items|
    requires forall j | 0 <= j < |n.items| :: Merge(m.items[j], n.items[j], env) == m.items[j]
    ensures MergeItems(m, n, env, i) == m.items[i..]
    decreases |n.items| - i
  {
    if i < |n.items| { ItemsFixed(m, n, env, i + 1); }
  }

  lemma {:induction false} PairsFixed(m: Node, n: Node, env: Expand, i: nat)
    requires m.Mapping? && n.Mapping? && i <= |m.pairs|
    requires forall j | 0 <= j < |m.pairs| :: Fixed(m.pairs[j], n.pairs, env)
    ensures MergePairs(m, n, env, i) == m.pairs[i..]
    decreases |m.pairs| - i
  {
    if i < |m.pairs| {
      PairsFixed(m, n, env, i + 1);
      assert Fixed(m.pairs[i], n.pairs, env);
      var j := FindKey(n.pairs, m.pairs[i].key.value);
      MergeKeyText(m.pairs[i].key, n.pairs[j].key, env);
    }
  }

  lemma {:induction false} NothingNew(before: seq<Pair>, after: seq<Pair>)
    requires forall j | 0 <= j < |after| :: HasKey(before, after[j].key.value)
    ensures NewPairs(before, after) == []
  {
    if after != [] { NothingNew(before, after[1..]); }
  }

  /** Saving the same tree twice is saving it once. */
  lemma {:induction false} MergeTwice(o: Node, n: Node, env: Expand)
    requires WellFormed(o) && WellFormed(n)
    ensures Merge(Merge(o, n, env), n, env) == Merge(o, n, env)
    decreases n, 2
  {
    var m := Merge(o, n, env);
    if !SameKind(o, n) {
      MergeSelf(n, env);
    } else {
      match n
      case Scalar(_) =>
      case Alias(_) =>
      case Items(_, _, _) => ItemsTwice(o, n, env);
      case Mapping(_, _) => MappingTwice(o, n, env);
    }
  }

  lemma {:induction false} ItemsTwice(o: Node, n: Node, env: Expand)
    requires WellFormed(o) && WellFormed(n) && o.Items? && n.Items? && SameKind(o, n)
    ensures Merge(Merge(o, n, env), n, env) == Merge(o, n, env)
    decreases n, 0
  {
    var m := Merge(o, n, env);
    MergeItemsAt(o, n, env, 0);
    forall j | 0 <= j < |n.items| ensures Merge(m.items[j], n.items[j], env) == m.items[j] {
      if j < |o.items| { MergeTwice(o.items[j], n.items[j], env); } else { MergeSelf(n.items[j], env); }
    }
    ItemsFixed(m, n, env, 0);
    hide MergeItems, WellFormed;
    assert m.items[0..] == m.items;
  }

  lemma {:induction false} MappingTwice(o: Node, n: Node, env: Expand)
    requires WellFormed(o) && WellFormed(n) && o.Mapping? && n.Mapping? && SameKind(o, n)
    ensures Merge(Merge(o, n, env), n, env) == Merge(o, n, env)
    decreases n, 1
  {
    var m := Merge(o, n, env);
    MergeKeysAre(o, n, env);
    forall i | 0 <= i < |m.pairs| ensures Fixed(m.pairs[i], n.pairs, env) { MergedFixed(o, n, env, i); }
    forall j | 0 <= j < |n.pairs| ensures HasKey(m.pairs, n.pairs[j].key.value) {
      FindDistinct(n.pairs, j);
      MergeAt(o, n, env, n.pairs[j].key.value);
    }
    MappingFixed(m, n, env);
    assert m.head == Label(n.head.tag, n.head.value, o.head.meta);
  }

  lemma MappingFixed(m: Node, n: Node, env: Expand)
    requires m.Mapping? && n.Mapping?
    requires forall j | 0 <= j < |m.pairs| :: Fixed(m.pairs[j], n.pairs, env)
    requires forall j | 0 <= j < |n.pairs| :: HasKey(m.pairs, n.pairs[j].key.value)
    ensures Merge(m, n, env) == Mapping(Label(n.head.tag, n.head.value, m.head.meta), m.pairs)
  {
    hide Fixed, HasKey, MergePairs, NewPairs;
    PairsFixed(m, n, env, 0);
    assert m.pairs[0..] == m.pairs;
    NothingNew(m.pairs, n.pairs);
    assert m.pairs + [] == m.pairs;
  }

  lemma {:induction false} MergedFixed(o: Node, n: Node, env: Expand, i: nat)
    requires WellFormed(o) && WellFormed(n) && o.Mapping? && n.Mapping?
    requires Merge(o, n, env).Mapping? && i < |Merge(o, n, env).pairs| && DistinctKeys(Merge(o, n, env).pairs)
    ensures Fixed(Merge(o, n, env).pairs[i], n.pairs, env)
    decreases n, 0
  {
    var m := Merge(o, n, env).pairs;
    var k := m[i].key.value;
    FindDistinct(m, i);
    MergeAt(o, n, env, k);
    var x, y := FindKey(o.pairs, k), FindKey(n.pairs, k);
    assert y < |n.pairs|;
    if x < |o.pairs| {
      MergeTwice(o.pairs[x].val, n.pairs[y].val, env);
    } else {
      MergeSelf(n.pairs[y].val, env);
    }
  }

  lemma {:induction false} MergeItemsAt(o: Node, n: Node, env: Expand, i: nat)
    requires o.Items? && n.Items? && i <= |n.items|
    ensures var items := MergeItems(o, n, env, i);
            && |items| == |n.items| - i
            && forall j | i <= j < |n.items| ::
                 items[j - i] == if j < |o.items| then Merge(o.items[j], n.items[j], env) else n.items[j]
    decreases |n.items| - i
  {
    hide Merge;
    if i < |n.items| && i < |o.items| {
      MergeItemsAt(o, n, env, i + 1);
      assert MergeItems(o, n, env, i) == [Merge(o.items[i], n.items[i], env)] + MergeItems(o, n, env, i + 1);
    }
  }

  // ----- the merged tree, place by place

  /** One step down a tree. */
  datatype Step = At(i: nat) | Under(key: string)

  /** A node, with the key it stands under if its parent is a mapping. */
  datatype Spot = Spot(key: Option<Label>, node: Node)

  function Below(n: Node, s: Step): Option<Spot> {
    match s
    case At(i) => if n.Items? && i < |n.items| then Some(Spot(None, n.items[i])) else None
    case Under(k) =>
      if n.Mapping? && HasKey(n.pairs, k)
      then var p := n.pairs[FindKey(n.pairs, k)]; Some(Spot(Some(p.key), p.val)) else None
  }

  function Reached(x: Spot, path: seq<Step>): Option<Spot>
    decreases |path|
  {
    if path == [] then Some(x)
    else match Below(x.node, path[0])
      case None => None
      case Some(y) => Reached(y, path[1..])
  }

  /** The path leads down both trees through nodes of one kind. */
  predicate Shared(x: Spot, y: Spot, path: seq<Step>)
    decreases |path|
  {
    path != [] ==>
      && SameKind(x.node, y.node)
      && Below(x.node, path[0]).Some? && Below(y.node, path[0]).Some?
      && Shared(Below(x.node, path[0]).value, Below(y.node, path[0]).value, path[1..])
  }

  /** On disk stands x, to be saved is y: z keeps x's key and, on a node of one
      kind, its comments, with the text of y; but a text on disk that is y's or
      has a reference and expands to y's stays as it is. */
  predicate TakesOver(x: Spot, y: Spot, z: Spot, env: Expand) {
    && z.key == x.key
    && var o, n := x.node, y.node;
       if !SameKind(o, n) then z.node == n
       else if o.Scalar? && (o.head.value == n.head.value
                             || (env.Some? && HasRef(o.head.value) && env.value(o.head.value) == n.head.value))
       then z.node == o
       else SameKind(z.node, n) && z.node.head == Label(n.head.tag, n.head.value, o.head.meta)
  }

  lemma BelowMerged(o: Node, n: Node, env: Expand, s: Step)
    requires WellFormed(o) && WellFormed(n) && SameKind(o, n)
    ensures Below(Merge(o, n, env), s)
         == match Below(n, s)
            case None => None
            case Some(y) =>
              match Below(o, s)
              case None => Some(y)
              case Some(x) => Some(Spot(x.key, Merge(x.node, y.node, env)))
  {
    if s.At? && o.Items? {
      MergeItemsAt(o, n, env, 0);
    } else if s.Under? && o.Mapping? {
      MergeAt(o, n, env, s.key);
    }
  }

  lemma BelowWellFormed(n: Node, s: Step)
    requires WellFormed(n) && Below(n, s).Some?
    ensures WellFormed(Below(n, s).value.node)
  {
  }

  /** What stands at the end of any path in the merged tree: nothing but what
      the new tree has; and where the old tree shares the path, taken over from
      both. */
  lemma {:induction false} MergedAt(x: Spot, y: Spot, env: Expand, path: seq<Step>)
    requires WellFormed(x.node) && WellFormed(y.node)
    ensures var merged := Reached(Spot(x.key, Merge(x.node, y.node, env)), path);
            match Reached(y, path)
            case None => merged == None
            case Some(n) =>
              if Shared(x, y, path)
              then Reached(x, path).Some? && merged.Some? && TakesOver(Reached(x, path).value, n, merged.value, env)
              else merged == Some(n)
    decreases |path|
  {
    var o, n := x.node, y.node;
    if path != [] && SameKind(o, n) {
      BelowMerged(o, n, env, path[0]);
      if Below(o, path[0]).Some? && Below(n, path[0]).Some? {
        BelowWellFormed(o, path[0]);
        BelowWellFormed(n, path[0]);
        hide Merge, WellFormed, Below, SameKind, KeepOnDisk, HasRef;
        MergedAt(Below(o, path[0]).value, Below(n, path[0]).value, env, path[1..]);
      }
    }
  }
}
