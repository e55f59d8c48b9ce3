/** The edits of an in-place update never overlap, and exactly which visiting
    orders plan a late insert. */
module MappingOrder {
  import opened Text
  import opened Values
  import opened LineGeometry
  import opened LineSplice
  import Names
  import opened MappingEdits
  import opened MappingText

  ghost predicate AllApart(x: seq<Edit>, y: seq<Edit>) {
    forall i, j | 0 <= i < |x| && 0 <= j < |y| :: Apart(x[i], y[j])
  }

  ghost predicate NoneLate(x: seq<Edit>, y: seq<Edit>) {
    forall i, j | 0 <= i < |x| && 0 <= j < |y| :: !LatePair(x[i], y[j])
  }

  lemma JoinApplicable(x: seq<Edit>, y: seq<Edit>, n: nat)
    requires Applicable(x, n) && Applicable(y, n) && AllApart(x, y)
    ensures Applicable(x + y, n)
  {
    hide Apart, InRange;
    var all, m := x + y, |x|;
    forall i | 0 <= i < |all| ensures all[i] == if i < m then x[i] else y[i - m] {
    }
  }

  lemma WithinOutsideApart(x: seq<Edit>, y: seq<Edit>, a: nat, b: nat)
    requires AllWithin(x, a, b) && AllOutside(y, a, b)
    ensures AllApart(x, y) && AllApart(y, x)
  {
  }

  lemma OneApart(e: Edit, rest: seq<Edit>, y: seq<Edit>)
    requires AllApart([e], y) && AllApart(rest, y)
    ensures AllApart([e] + rest, y)
  {
    hide Apart;
    forall i, j | 0 <= i < |[e] + rest| && 0 <= j < |y| ensures Apart(([e] + rest)[i], y[j]) {
      if i > 0 { assert ([e] + rest)[i] == rest[i - 1]; } else { assert [e][0] == e; }
    }
  }

  // ----- no two edits overlap

  lemma {:induction false} KeyEditsApplicable(c: Ctx, k: nat, col: nat, n: Node, i: nat, v: Value)
    requires Under(c, k, col, n) && i < |n.pairs| && VisitsNested(c)
    ensures n.pairs[i].line < |c.doc|
    ensures Applicable(KeyEdits(c, n.pairs[i], n.col, v), |c.doc|)
    decreases n, 0
  {
    hide Under, HeadStart, BlockEnd, Same, Decode, EditScalar, Rewritten, SetEdits, Visits;
    PairSpan(c, k, col, n, i);
    var p := n.pairs[i];
    if !Same(Decode(p.val), v) && v.Map? && p.val.Block? {
      NestedVisits(c, v.entries);
      SetEditsApplicable(c, p.line, n.col, p.val, v.entries, c.nestedOrder(v.entries.Keys), c.nestedReplace);
    }
  }

  lemma {:induction false} VisitEditsApplicable(
    c: Ctx, k: nat, col: nat, n: Node, props: map<string, Value>, order: seq<string>)
    requires Under(c, k, col, n) && VisitsNested(c) && Names.NoRepeats(order)
    ensures Applicable(VisitEdits(c, n, props, order), |c.doc|)
    decreases n, 1, |order|
  {
    hide Under, VisitsNested, HeadStart, BlockEnd, KeyEdits, Applicable, AllOutside, AllWithin, AllApart, DistinctKeys;
    if order == [] {
      NoEditsApplicable(|c.doc|);
    } else {
      VisitEditsApplicable(c, k, col, n, props, order[1..]);
      var j := Find(n.pairs, order[0]);
      if order[0] in props && j < |n.pairs| {
        var p, v := n.pairs[j], props[order[0]];
        PairSpan(c, k, col, n, j);
        KeyEditsApplicable(c, k, col, n, j, v);
        KeyEditsWithin(c, k, col, n, j, v);
        assert p.key !in order[1..];
        VisitEditsOutside(c, k, col, n, props, order[1..], j);
        WithinOutsideApart(KeyEdits(c, p, n.col, v), VisitEdits(c, n, props, order[1..]), Head(c, p, n.col),
                           PastBlock(c, p.line, n.col));
        JoinApplicable(KeyEdits(c, p, n.col, v), VisitEdits(c, n, props, order[1..]), |c.doc|);
      } else {
        assert [] + VisitEdits(c, n, props, order[1..]) == VisitEdits(c, n, props, order[1..]);
      }
    }
  }

  lemma NoEditsApplicable(n: nat)
    ensures Applicable([], n)
  {
  }

  lemma DropWithin(c: Ctx, p: Pair, col: nat)
    requires p.line < |c.kinds| && |c.kinds| == |c.doc|
    ensures AllWithin([Edit(Head(c, p, col), PastValue(c, p, col), [])], Head(c, p, col), PastBlock(c, p.line, col))
    ensures Applicable([Edit(Head(c, p, col), PastValue(c, p, col), [])], |c.doc|)
  {
    EndsInRange(c.kinds, p.line, col);
  }

  /** The drops from the from-th pair on, and the visits before them. */
  lemma {:induction false} DropEditsApplicable(
    c: Ctx, k: nat, col: nat, n: Node, props: map<string, Value>, order: seq<string>, from: nat)
    requires Under(c, k, col, n) && from <= |n.pairs|
    ensures Applicable(DropEdits(c, n.pairs[from..], n.col, props), |c.doc|)
    ensures AllApart(DropEdits(c, n.pairs[from..], n.col, props), VisitEdits(c, n, props, order))
    decreases |n.pairs| - from
  {
    hide Under, HeadStart, BlockEnd, ValueEnd, VisitEdits, Applicable, AllOutside, AllWithin, DistinctKeys, Apart;
    if from == |n.pairs| {
      NoEditsApplicable(|c.doc|);
    } else {
      assert n.pairs[from..][1..] == n.pairs[from + 1..];
      DropEditsApplicable(c, k, col, n, props, order, from + 1);
      PairSpan(c, k, col, n, from);
      var p := n.pairs[from];
      if p.key !in props {
        var e := Edit(Head(c, p, n.col), PastValue(c, p, n.col), []);
        var rest := DropEdits(c, n.pairs[from + 1..], n.col, props);
        DropWithin(c, p, n.col);
        VisitEditsOutside(c, k, col, n, props, order, from);
        WithinOutsideApart([e], VisitEdits(c, n, props, order), Head(c, p, n.col), PastBlock(c, p.line, n.col));
        DropEditsOutside(c, k, col, n, props, from + 1, from);
        WithinOutsideApart([e], rest, Head(c, p, n.col), PastBlock(c, p.line, n.col));
        JoinApplicable([e], rest, |c.doc|);
        OneApart(e, rest, VisitEdits(c, n, props, order));
        assert [e] + rest == DropEdits(c, n.pairs[from..], n.col, props);
      } else {
        assert [] + DropEdits(c, n.pairs[from + 1..], n.col, props) == DropEdits(c, n.pairs[from + 1..], n.col, props);
      }
    }
  }

  lemma AddEditsApart(c: Ctx, k: nat, col: nat, n: Node, props: map<string, Value>, order: seq<string>, x: seq<Edit>)
    requires n.Block? && |c.kinds| == |c.doc| && k < |c.doc| && AllWithin(x, k + 1, PastBlock(c, k, col))
    ensures Applicable(AddEdits(c, k, col, n, props, order), |c.doc|)
    ensures AllApart(x, AddEdits(c, k, col, n, props, order))
    ensures NoneLate(x, AddEdits(c, k, col, n, props, order))
  {
    hide BlockEnd, AddedKeys, RenderAdded;
    EndsInRange(c.kinds, k, col);
  }

  /** The edits of one update never overlap, in any visiting order. */
  lemma {:induction false} SetEditsApplicable(
    c: Ctx, k: nat, col: nat, n: Node, props: map<string, Value>, order: seq<string>, drop: bool)
    requires Under(c, k, col, n) && VisitsNested(c) && Visits(order, props)
    ensures Applicable(SetEdits(c, k, col, n, props, order, drop), |c.doc|)
    decreases n, 2
  {
    PairEditsApplicable(c, k, col, n, props, order, drop);
    PairEditsWithin(c, k, col, n, props, order, drop);
    hide Under, VisitsNested, Visits, AddEdits, VisitEdits, DropEdits, PastBlock, AllWithin, AllApart, Applicable;
    AddEditsApart(c, k, col, n, props, order, PairEdits(c, n, props, order, drop));
    JoinApplicable(PairEdits(c, n, props, order, drop), AddEdits(c, k, col, n, props, order), |c.doc|);
  }

  lemma {:induction false} PairEditsApplicable(
    c: Ctx, k: nat, col: nat, n: Node, props: map<string, Value>, order: seq<string>, drop: bool)
    requires Under(c, k, col, n) && VisitsNested(c) && Visits(order, props)
    ensures Applicable(PairEdits(c, n, props, order, drop), |c.doc|)
    decreases n, 1, |order| + 1
  {
    VisitEditsApplicable(c, k, col, n, props, order);
    hide Under, VisitsNested, VisitEdits, DropEdits, Applicable, Apart;
    var visits := VisitEdits(c, n, props, order);
    if drop {
      DropEditsApplicable(c, k, col, n, props, order, 0);
      assert n.pairs[0..] == n.pairs;
      assert AllApart(visits, DropEdits(c, n.pairs, n.col, props)) by {
        ApartEitherWay(DropEdits(c, n.pairs, n.col, props), visits);
      }
      JoinApplicable(visits, DropEdits(c, n.pairs, n.col, props), |c.doc|);
    } else {
      assert visits + [] == visits;
    }
  }

  lemma ApartEitherWay(x: seq<Edit>, y: seq<Edit>)
    requires AllApart(x, y)
    ensures AllApart(y, x)
  {
    forall i, j | 0 <= i < |y| && 0 <= j < |x| ensures Apart(y[i], x[j]) {
      assert Apart(x[j], y[i]);
    }
  }

  lemma PairEditsWithin(c: Ctx, k: nat, col: nat, n: Node, props: map<string, Value>, order: seq<string>, drop: bool)
    requires Under(c, k, col, n)
    ensures AllWithin(PairEdits(c, n, props, order, drop), k + 1, PastBlock(c, k, col))
  {
    hide Under, VisitEdits, DropEdits, PastBlock, Within;
    VisitEditsWithin(c, k, col, n, props, order);
    DropEditsWithin(c, k, col, n, props, 0);
    assert n.pairs[0..] == n.pairs;
  }

  // ----- late inserts

  /** v is set on the pair by writing the pair's own lines again. */
  predicate Rewrites(p: Pair, v: Value) {
    !Same(Decode(p.val), v) && !(v.Map? && p.val.Block?)
  }

  /** v is set key by key inside the mapping under the pair. */
  predicate Descends(p: Pair, v: Value) {
    !Same(Decode(p.val), v) && v.Map? && p.val.Block?
  }

  /** Setting v on the pair gives a mapping that ends at line `at` a new key. */
  ghost predicate Gains(c: Ctx, p: Pair, col: nat, v: Value, at: nat)
    decreases p
  {
    Descends(p, v) && GainsUnder(c, p.line, col, p.val, v.entries, at)
  }

  /** Setting props gives n, or a mapping inside it, a new key at line `at`. */
  ghost predicate GainsUnder(c: Ctx, k: nat, col: nat, n: Node, props: map<string, Value>, at: nat)
    requires n.Block?
    decreases n
  {
    || (PastBlock(c, k, col) == at && exists key | key in props :: !Has(n.pairs, key))
    || (exists i | 0 <= i < |n.pairs| && n.pairs[i].key in props ::
          Gains(c, n.pairs[i], n.col, props[n.pairs[i].key], at))
  }

  ghost predicate GainsAt(c: Ctx, n: Node, props: map<string, Value>, key: string, at: nat)
    requires n.Block?
  {
    key in props && Has(n.pairs, key) && Gains(c, n.pairs[Find(n.pairs, key)], n.col, props[key], at)
  }

  /** Key x is written again, and key y gains a key right above its line. */
  ghost predicate Overtakes(c: Ctx, n: Node, props: map<string, Value>, x: string, y: string)
    requires n.Block?
  {
    x in props && Has(n.pairs, x) &&
    var p := n.pairs[Find(n.pairs, x)];
    Rewrites(p, props[x]) && GainsAt(c, n, props, y, p.line)
  }

  /** Some mapping that is set visits a key it writes again before a key that
      gains a key right above it. */
  ghost predicate GoesLate(c: Ctx, n: Node, props: map<string, Value>, order: seq<string>)
    requires n.Block?
    decreases n
  {
    || (exists i, j | 0 <= i < j < |order| :: Overtakes(c, n, props, order[i], order[j]))
    || (exists i | 0 <= i < |n.pairs| && n.pairs[i].key in props ::
          KeyGoesLate(c, n.pairs[i], props[n.pairs[i].key]))
  }

  ghost predicate KeyGoesLate(c: Ctx, p: Pair, v: Value)
    decreases p
  {
    Descends(p, v) && GoesLate(c, p.val, v.entries, c.nestedOrder(v.entries.Keys))
  }

  ghost predicate RendersLines(c: Ctx) {
    forall key, v, col :: c.renderPair(key, v, col) != []
  }

  ghost predicate HasInsert(edits: seq<Edit>, at: nat) {
    exists i | 0 <= i < |edits| :: edits[i].start == at && IsInsert(edits[i]) && edits[i].lines != []
  }

  lemma HasInsertJoin(x: seq<Edit>, y: seq<Edit>, at: nat)
    ensures HasInsert(x + y, at) <==> HasInsert(x, at) || HasInsert(y, at)
  {
    hide IsInsert;
    var all, m := x + y, |x|;
    forall i | 0 <= i < |all| ensures all[i] == if i < m then x[i] else y[i - m] {
    }
    forall i | 0 <= i < |y| ensures all[m + i] == y[i] {
    }
  }

  lemma JoinNoLateIff(x: seq<Edit>, y: seq<Edit>)
    ensures NoLateInsert(x + y) <==> NoLateInsert(x) && NoLateInsert(y) && NoneLate(x, y)
  {
    hide LatePair;
    var all, m := x + y, |x|;
    forall i | 0 <= i < |all| ensures all[i] == if i < m then x[i] else y[i - m] {
    }
    forall i | 0 <= i < |y| ensures all[m + i] == y[i] {
    }
    if NoLateInsert(all) {
      forall i, j | 0 <= i < |x| && 0 <= j < |y| ensures !LatePair(x[i], y[j]) {
        assert !LatePair(all[i], all[m + j]);
      }
      forall i, j | 0 <= i < j < |y| ensures !LatePair(y[i], y[j]) {
        assert !LatePair(all[m + i], all[m + j]);
      }
    }
  }

  lemma OneNoneLate(e: Edit, y: seq<Edit>)
    requires e.start < e.end
    ensures NoneLate([e], y) <==> !HasInsert(y, e.start)
  {
    forall j | 0 <= j < |y|
      ensures LatePair([e][0], y[j]) <==> y[j].start == e.start && IsInsert(y[j]) && y[j].lines != []
    {
    }
  }

  /** The one edit of a pair that is written again. */
  lemma RewriteEdit(c: Ctx, p: Pair, col: nat, v: Value)
    requires p.line < |c.kinds| && |c.kinds| == |c.doc| && Rewrites(p, v)
    ensures var edits := KeyEdits(c, p, col, v);
            |edits| == 1 && edits[0].start == p.line < edits[0].end && edits == [edits[0]]
  {
    hide Same, ValueEnd, Decode, Rewritten;
    EndsInRange(c.kinds, p.line, col);
  }

  lemma {:induction false} KeyInserts(c: Ctx, k: nat, col: nat, n: Node, i: nat, v: Value, at: nat)
    requires Under(c, k, col, n) && i < |n.pairs| && VisitsNested(c) && RendersLines(c)
    ensures n.pairs[i].line < |c.doc|
    ensures HasInsert(KeyEdits(c, n.pairs[i], n.col, v), at) <==> Gains(c, n.pairs[i], n.col, v, at)
    decreases n, 0, 0
  {
    PairSpan(c, k, col, n, i);
    var p := n.pairs[i];
    hide Under, VisitsNested, RendersLines, Visits, Same, Decode, GainsUnder, SetEdits, HeadStart, BlockEnd, ValueEnd,
         EditScalar, Rewritten;
    if Rewrites(p, v) {
      RewriteEdit(c, p, n.col, v);
    } else if Descends(p, v) {
      NestedVisits(c, v.entries);
      SetInserts(c, p.line, n.col, p.val, v.entries, c.nestedOrder(v.entries.Keys), c.nestedReplace, at);
    }
  }

  lemma {:induction false} VisitInserts(
    c: Ctx, k: nat, col: nat, n: Node, props: map<string, Value>, order: seq<string>, at: nat)
    requires Under(c, k, col, n) && VisitsNested(c) && RendersLines(c)
    ensures HasInsert(VisitEdits(c, n, props, order), at)
            <==> exists key | key in order :: GainsAt(c, n, props, key, at)
    decreases n, 1, |order|
  {
    hide Under, VisitsNested, RendersLines, KeyEdits, Gains, HasInsert;
    if order == [] {
      assert !HasInsert([], at) by { NoInserts([], at); }
    } else {
      VisitInserts(c, k, col, n, props, order[1..], at);
      var j, rest := Find(n.pairs, order[0]), VisitEdits(c, n, props, order[1..]);
      assert forall key :: key in order <==> key == order[0] || key in order[1..];
      if order[0] in props && j < |n.pairs| {
        KeyInserts(c, k, col, n, j, props[order[0]], at);
        assert GainsAt(c, n, props, order[0], at) <==> HasInsert(KeyEdits(c, n.pairs[j], n.col, props[order[0]]), at);
        HasInsertJoin(KeyEdits(c, n.pairs[j], n.col, props[order[0]]), rest, at);
      } else {
        assert [] + rest == rest;
      }
    }
  }

  lemma NoInserts(edits: seq<Edit>, at: nat)
    requires forall i | 0 <= i < |edits| :: edits[i].lines == []
    ensures !HasInsert(edits, at)
  {
  }

  lemma {:induction false} AddedKeysSome(pairs: seq<Pair>, props: map<string, Value>, order: seq<string>)
    ensures AddedKeys(pairs, props, order) != [] <==> exists key | key in order :: key in props && !Has(pairs, key)
  {
    hide Has;
    if order != [] {
      AddedKeysSome(pairs, props, order[1..]);
      assert forall key :: key in order <==> key == order[0] || key in order[1..];
    }
  }

  lemma AddInserts(c: Ctx, k: nat, col: nat, n: Node, props: map<string, Value>, order: seq<string>, at: nat)
    requires n.Block? && RendersLines(c) && Visits(order, props)
    ensures HasInsert(AddEdits(c, k, col, n, props, order), at)
       <==> PastBlock(c, k, col) == at && exists key | key in props :: !Has(n.pairs, key)
  {
    hide PastBlock, Has, AddedKeys, RenderAdded, Names.NoRepeats, RendersLines;
    AddedKeysSome(n.pairs, props, order);
    var added := AddedKeys(n.pairs, props, order);
    if added == [] {
      NoInserts([], at);
    } else {
      AddedInProps(n.pairs, props, order);
      AddedRendered(c, n.col, props, added);
      var e := Edit(PastBlock(c, k, col), PastBlock(c, k, col), RenderAdded(c, n.col, props, added));
      assert AddEdits(c, k, col, n, props, order) == [e];
      assert [e][0] == e;
    }
  }

  lemma {:induction false} AddedInProps(pairs: seq<Pair>, props: map<string, Value>, order: seq<string>)
    ensures forall i | 0 <= i < |AddedKeys(pairs, props, order)| :: AddedKeys(pairs, props, order)[i] in props
  {
    hide Has;
    if order != [] { AddedInProps(pairs, props, order[1..]); }
  }

  lemma AddedRendered(c: Ctx, col: nat, props: map<string, Value>, keys: seq<string>)
    requires RendersLines(c) && keys != [] && keys[0] in props
    ensures RenderAdded(c, col, props, keys) != []
  {
    assert c.renderPair(keys[0], props[keys[0]], col) != [];
  }

  /** The lines at which an update inserts. */
  lemma {:induction false} SetInserts(
    c: Ctx, k: nat, col: nat, n: Node, props: map<string, Value>, order: seq<string>, drop: bool, at: nat)
    requires Under(c, k, col, n) && VisitsNested(c) && RendersLines(c) && Visits(order, props)
    ensures HasInsert(SetEdits(c, k, col, n, props, order, drop), at) <==> GainsUnder(c, k, col, n, props, at)
    decreases n, 2, 0
  {
    VisitInserts(c, k, col, n, props, order, at);
    AddInserts(c, k, col, n, props, order, at);
    GainsByKey(c, n, props, order, at);
    hide Under, VisitsNested, RendersLines, Visits, VisitEdits, AddEdits, PastBlock, HasInsert, GainsAt, Gains, Has,
         Find;
    var visits, adds := VisitEdits(c, n, props, order), AddEdits(c, k, col, n, props, order);
    var drops := if drop then DropEdits(c, n.pairs, n.col, props) else [];
    DropsInsertNothing(c, n.pairs, n.col, props);
    NoInserts(drops, at);
    HasInsertJoin(visits, drops, at);
    HasInsertJoin(visits + drops, adds, at);
  }

  lemma GainsByKey(c: Ctx, n: Node, props: map<string, Value>, order: seq<string>, at: nat)
    requires n.Block? && DistinctKeys(n.pairs) && Visits(order, props)
    ensures (exists key | key in order :: GainsAt(c, n, props, key, at))
       <==> exists i | 0 <= i < |n.pairs| && n.pairs[i].key in props ::
              Gains(c, n.pairs[i], n.col, props[n.pairs[i].key], at)
  {
    hide Gains;
    forall i | 0 <= i < |n.pairs| ensures Find(n.pairs, n.pairs[i].key) == i && Has(n.pairs, n.pairs[i].key) {
      FindIs(n.pairs, i);
    }
    if i :| 0 <= i < |n.pairs| && n.pairs[i].key in props && Gains(c, n.pairs[i], n.col, props[n.pairs[i].key], at) {
      assert n.pairs[i].key in order;
      assert GainsAt(c, n, props, n.pairs[i].key, at);
    }
  }

  /** The edits of one key meet a later insert only if they write it again. */
  lemma KeyThenRest(c: Ctx, k: nat, col: nat, n: Node, i: nat, v: Value, props: map<string, Value>, rest: seq<string>)
    requires Under(c, k, col, n) && i < |n.pairs| && n.pairs[i].key !in rest
    ensures n.pairs[i].line < |c.doc|
    ensures NoneLate(KeyEdits(c, n.pairs[i], n.col, v), VisitEdits(c, n, props, rest))
       <==> !(Rewrites(n.pairs[i], v) && HasInsert(VisitEdits(c, n, props, rest), n.pairs[i].line))
  {
    PairSpan(c, k, col, n, i);
    VisitEditsOutside(c, k, col, n, props, rest, i);
    hide Under, VisitEdits, HasInsert, Same, Decode, SetEdits, HeadStart, ValueEnd, BlockEnd, EditScalar, Rewritten;
    var p, y := n.pairs[i], VisitEdits(c, n, props, rest);
    if Rewrites(p, v) {
      RewriteEdit(c, p, n.col, v);
      OneNoneLate(KeyEdits(c, p, n.col, v)[0], y);
    } else if Descends(p, v) {
      var order := c.nestedOrder(v.entries.Keys);
      SetEditsWithin(c, p.line, n.col, p.val, v.entries, order, c.nestedReplace);
      InsideNeverLate(KeyEdits(c, p, n.col, v), y, Head(c, p, n.col), p.line + 1, PastBlock(c, p.line, n.col));
    }
  }

  lemma InsideNeverLate(x: seq<Edit>, y: seq<Edit>, h: nat, a: nat, b: nat)
    requires h < a && AllWithin(x, a, b) && AllOutside(y, h, b)
    ensures NoneLate(x, y)
  {
  }

  lemma {:induction false} KeyLate(c: Ctx, k: nat, col: nat, n: Node, i: nat, v: Value)
    requires Under(c, k, col, n) && i < |n.pairs| && VisitsNested(c) && RendersLines(c)
    ensures n.pairs[i].line < |c.doc|
    ensures NoLateInsert(KeyEdits(c, n.pairs[i], n.col, v)) <==> !KeyGoesLate(c, n.pairs[i], v)
    decreases n, 0, 0
  {
    PairSpan(c, k, col, n, i);
    var p := n.pairs[i];
    hide Under, VisitsNested, RendersLines, Visits, Same, Decode, GoesLate, SetEdits, HeadStart, BlockEnd, ValueEnd,
         EditScalar, Rewritten;
    if Rewrites(p, v) {
      RewriteEdit(c, p, n.col, v);
    } else if Descends(p, v) {
      NestedVisits(c, v.entries);
      SetEditsLate(c, p.line, n.col, p.val, v.entries, c.nestedOrder(v.entries.Keys), c.nestedReplace);
    }
  }

  ghost predicate OvertakesLater(c: Ctx, n: Node, props: map<string, Value>, order: seq<string>)
    requires n.Block?
  {
    exists i, j | 0 <= i < j < |order| :: Overtakes(c, n, props, order[i], order[j])
  }

  lemma OvertakesTail(c: Ctx, n: Node, props: map<string, Value>, order: seq<string>)
    requires n.Block? && order != []
    ensures OvertakesLater(c, n, props, order)
       <==> (exists key | key in order[1..] :: Overtakes(c, n, props, order[0], key))
            || OvertakesLater(c, n, props, order[1..])
  {
    hide Overtakes;
    var rest := order[1..];
    if OvertakesLater(c, n, props, order) {
      var i, j :| 0 <= i < j < |order| && Overtakes(c, n, props, order[i], order[j]);
      assert rest[j - 1] == order[j];
      if i > 0 { assert rest[i - 1] == order[i]; }
    }
    if key :| key in rest && Overtakes(c, n, props, order[0], key) {
      var j :| 0 <= j < |rest| && rest[j] == key;
      assert order[j + 1] == key;
    }
    if OvertakesLater(c, n, props, rest) {
      var i, j :| 0 <= i < j < |rest| && Overtakes(c, n, props, rest[i], rest[j]);
      assert order[i + 1] == rest[i] && order[j + 1] == rest[j];
    }
  }

  ghost predicate VisitGoesLate(c: Ctx, n: Node, props: map<string, Value>, key: string)
    requires n.Block?
  {
    key in props && Has(n.pairs, key) && KeyGoesLate(c, n.pairs[Find(n.pairs, key)], props[key])
  }

  lemma {:induction false} VisitsLate(c: Ctx, k: nat, col: nat, n: Node, props: map<string, Value>, order: seq<string>)
    requires Under(c, k, col, n) && VisitsNested(c) && RendersLines(c) && Names.NoRepeats(order)
    ensures NoLateInsert(VisitEdits(c, n, props, order))
       <==> !OvertakesLater(c, n, props, order) && forall key | key in order :: !VisitGoesLate(c, n, props, key)
    decreases n, 1, |order|
  {
    hide Under, VisitsNested, RendersLines, KeyEdits, KeyGoesLate, NoLateInsert, NoneLate, OvertakesLater, HasInsert,
         Rewrites, GainsAt, DistinctKeys;
    if order == [] {
      NoEditsNoLate();
      assert !OvertakesLater(c, n, props, []) by { NoneOvertakes(c, n, props); }
    } else {
      VisitsLate(c, k, col, n, props, order[1..]);
      OvertakesTail(c, n, props, order);
      var rest, j := VisitEdits(c, n, props, order[1..]), Find(n.pairs, order[0]);
      assert forall key :: key in order <==> key == order[0] || key in order[1..];
      if order[0] in props && j < |n.pairs| {
        var p, v := n.pairs[j], props[order[0]];
        KeyLate(c, k, col, n, j, v);
        KeyThenRest(c, k, col, n, j, v, props, order[1..]);
        VisitInserts(c, k, col, n, props, order[1..], p.line);
        JoinNoLateIff(KeyEdits(c, p, n.col, v), rest);
      } else {
        assert [] + rest == rest;
      }
    }
  }

  lemma NoneOvertakes(c: Ctx, n: Node, props: map<string, Value>)
    requires n.Block?
    ensures !OvertakesLater(c, n, props, [])
  {
  }

  lemma NoEditsNoLate()
    ensures NoLateInsert([])
  {
  }

  lemma {:induction false} DropsInsertNothing(c: Ctx, pairs: seq<Pair>, col: nat, props: map<string, Value>)
    ensures forall i | 0 <= i < |DropEdits(c, pairs, col, props)| :: DropEdits(c, pairs, col, props)[i].lines == []
  {
    if pairs != [] { DropsInsertNothing(c, pairs[1..], col, props); }
  }

  lemma NothingLate(x: seq<Edit>, y: seq<Edit>)
    requires forall i | 0 <= i < |y| :: y[i].lines == []
    ensures NoneLate(x, y) && NoLateInsert(y)
  {
  }

  lemma AddEditsNoLate(c: Ctx, k: nat, col: nat, n: Node, props: map<string, Value>, order: seq<string>)
    requires n.Block?
    ensures NoLateInsert(AddEdits(c, k, col, n, props, order))
  {
  }

  lemma LateByKey(c: Ctx, n: Node, props: map<string, Value>, order: seq<string>)
    requires n.Block? && DistinctKeys(n.pairs) && Visits(order, props)
    ensures GoesLate(c, n, props, order)
       <==> OvertakesLater(c, n, props, order) || exists key | key in order :: VisitGoesLate(c, n, props, key)
  {
    hide KeyGoesLate, Overtakes;
    forall i | 0 <= i < |n.pairs| ensures Find(n.pairs, n.pairs[i].key) == i && Has(n.pairs, n.pairs[i].key) {
      FindIs(n.pairs, i);
    }
    if i :| 0 <= i < |n.pairs| && n.pairs[i].key in props && KeyGoesLate(c, n.pairs[i], props[n.pairs[i].key]) {
      assert n.pairs[i].key in order;
      assert VisitGoesLate(c, n, props, n.pairs[i].key);
    }
  }

  /** An update plans a late insert exactly when it goes late. */
  lemma {:induction false} SetEditsLate(
    c: Ctx, k: nat, col: nat, n: Node, props: map<string, Value>, order: seq<string>, drop: bool)
    requires Under(c, k, col, n) && VisitsNested(c) && RendersLines(c) && Visits(order, props)
    ensures NoLateInsert(SetEdits(c, k, col, n, props, order, drop)) <==> !GoesLate(c, n, props, order)
    decreases n, 2, 0
  {
    VisitsLate(c, k, col, n, props, order);
    LateByKey(c, n, props, order);
    PairEditsWithin(c, k, col, n, props, order, drop);
    hide Under, VisitsNested, RendersLines, Visits, VisitEdits, DropEdits, GoesLate, VisitGoesLate, NoLateInsert,
         NoneLate, AllWithin, PastBlock;
    var visits := VisitEdits(c, n, props, order);
    var drops := if drop then DropEdits(c, n.pairs, n.col, props) else [];
    DropsInsertNothing(c, n.pairs, n.col, props);
    NothingLate(visits, drops);
    JoinNoLateIff(visits, drops);
    AddEditsApart(c, k, col, n, props, order, visits + drops);
    AddEditsNoLate(c, k, col, n, props, order);
    JoinNoLateIff(visits + drops, AddEdits(c, k, col, n, props, order));
  }

  // ----- visiting in file order

  /** Keys of the mapping are visited in file order, at every level. */
  ghost predicate InFileOrder(c: Ctx, n: Node, props: map<string, Value>, order: seq<string>)
    decreases n
  {
    n.Block? ==>
      && (forall i, j | 0 <= i < j < |order| && order[i] in props && order[j] in props
                        && Has(n.pairs, order[i]) && Has(n.pairs, order[j]) ::
            Find(n.pairs, order[i]) < Find(n.pairs, order[j]))
      && (forall i | 0 <= i < |n.pairs| && n.pairs[i].key in props ::
            NestedInFileOrder(c, n.pairs[i], props[n.pairs[i].key]))
  }

  ghost predicate NestedInFileOrder(c: Ctx, p: Pair, v: Value)
    decreases p
  {
    v.Map? ==> InFileOrder(c, p.val, v.entries, c.nestedOrder(v.entries.Keys))
  }

  /** New keys land behind the line of the key they are nested under. */
  lemma {:induction false} GainsBehind(c: Ctx, k: nat, col: nat, n: Node, props: map<string, Value>, at: nat)
    requires Under(c, k, col, n) && GainsUnder(c, k, col, n, props, at)
    ensures k < at <= PastBlock(c, k, col)
    decreases n
  {
    if PastBlock(c, k, col) == at {
      PairSpan(c, k, col, n, 0);
    } else {
      var i :| 0 <= i < |n.pairs| && n.pairs[i].key in props && Gains(c, n.pairs[i], n.col, props[n.pairs[i].key], at);
      PairSpan(c, k, col, n, i);
      var p := n.pairs[i];
      hide Under, GainsUnder, HeadStart, BlockEnd, ValueEnd;
      GainsBehind(c, p.line, n.col, p.val, props[p.key].entries, at);
    }
  }

  /** Visiting in file order never goes late. */
  lemma {:induction false} FileOrderNotLate(
    c: Ctx, k: nat, col: nat, n: Node, props: map<string, Value>, order: seq<string>)
    requires Under(c, k, col, n) && InFileOrder(c, n, props, order)
    ensures !GoesLate(c, n, props, order)
    decreases n
  {
    forall i, j | 0 <= i < j < |order| ensures !Overtakes(c, n, props, order[i], order[j]) {
      if Overtakes(c, n, props, order[i], order[j]) {
        NotOvertaken(c, k, col, n, props, order[i], order[j]);
      }
    }
    forall i | 0 <= i < |n.pairs| && n.pairs[i].key in props
      ensures !KeyGoesLate(c, n.pairs[i], props[n.pairs[i].key])
    {
      var p := n.pairs[i];
      PairSpan(c, k, col, n, i);
      assert NestedInFileOrder(c, p, props[p.key]);
      if Descends(p, props[p.key]) {
        FileOrderNotLate(c, p.line, n.col, p.val, props[p.key].entries, c.nestedOrder(props[p.key].entries.Keys));
      }
    }
  }

  lemma NotOvertaken(c: Ctx, k: nat, col: nat, n: Node, props: map<string, Value>, x: string, y: string)
    requires Under(c, k, col, n) && Has(n.pairs, x) && Has(n.pairs, y) && Find(n.pairs, x) < Find(n.pairs, y)
    ensures !Overtakes(c, n, props, x, y)
  {
    var i, j := Find(n.pairs, x), Find(n.pairs, y);
    PairSpan(c, k, col, n, i);
    PairSpan(c, k, col, n, j);
    PairsApart(c, k, col, n, i, j);
    hide Under, HeadStart, BlockEnd, ValueEnd, GainsUnder;
    if Overtakes(c, n, props, x, y) {
      var q := n.pairs[j];
      GainsBehind(c, q.line, n.col, q.val, props[y].entries, n.pairs[i].line);
    }
  }
}
