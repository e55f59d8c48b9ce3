/** The edits of an in-place update lead to the edited mapping, whatever the
    visiting order, and they are spliced rightly when keys are visited in file
    order. */
module MappingText {
  import opened Text
  import opened Sequences
  import opened Values
  import opened LineGeometry
  import opened LineSplice
  import Names
  import opened MappingEdits

  // ----- edits and regions

  predicate Within(e: Edit, a: nat, b: nat) {
    a <= e.start <= e.end <= b && (IsInsert(e) ==> a < e.start)
  }

  predicate Outside(e: Edit, a: nat, b: nat) {
    && e.start <= e.end
    && if IsInsert(e) then e.start <= a || b < e.start else e.end <= a || b <= e.start
  }

  ghost predicate AllWithin(edits: seq<Edit>, a: nat, b: nat) {
    forall i | 0 <= i < |edits| :: Within(edits[i], a, b)
  }

  ghost predicate AllOutside(edits: seq<Edit>, a: nat, b: nat) {
    forall i | 0 <= i < |edits| :: Outside(edits[i], a, b)
  }

  lemma OutsideNothing(edits: seq<Edit>, a: nat, b: nat, p: nat)
    requires AllOutside(edits, a, b) && a <= p <= b
    ensures a < p ==> Inserted(edits, p) == []
    ensures p < b ==> Replacing(edits, p) == [] && !Covered(edits, p)
  {
    if a < p { NothingInserted(edits, p); }
    if p < b {
      NothingReplaced(edits, p);
      CoveredBySome(edits, p);
    }
  }

  /** Edits that stay outside a region do not show in it. */
  lemma SegmentIgnores(doc: seq<string>, x: seq<Edit>, g: seq<Edit>, y: seq<Edit>, a: nat, b: nat)
    requires a <= b <= |doc| && AllOutside(x, a, b) && AllOutside(y, a, b)
    ensures Segment(doc, x + g + y, a, b) == Segment(doc, g, a, b)
  {
    forall p | a <= p <= b
      ensures a < p ==> Inserted(x + g + y, p) == Inserted(g, p)
      ensures p < b ==> Emit(doc, x + g + y, p) == Emit(doc, g, p)
    {
      InsertedConcat(x + g, y, p);
      InsertedConcat(x, g, p);
      OutsideNothing(x, a, b, p);
      OutsideNothing(y, a, b, p);
    }
    SegmentAgree(doc, x + g + y, g, a, b);
  }

  lemma SegmentUntouched(doc: seq<string>, edits: seq<Edit>, a: nat, b: nat)
    requires a <= b <= |doc| && AllOutside(edits, a, b)
    ensures Segment(doc, edits, a, b) == doc[a..b]
  {
    forall p | a <= p < b ensures Emit(doc, edits, p) == [doc[p]] && (a < p ==> Inserted(edits, p) == []) {
      OutsideNothing(edits, a, b, p);
    }
    SegmentQuiet(doc, edits, a, b);
    OutsideNothing(edits, a, b, b);
  }

  /** One replaced range inside a region. */
  lemma SegmentSingle(doc: seq<string>, e: Edit, a: nat, b: nat)
    requires a <= e.start < e.end <= b <= |doc|
    ensures Segment(doc, [e], a, b) == doc[a..e.start] + e.lines + doc[e.end..b]
  {
    SegmentSplit(doc, [e], a, e.start, b);
    SegmentSplit(doc, [e], e.start, e.end, b);
    SegmentUntouched(doc, [e], a, e.start);
    SegmentUntouched(doc, [e], e.end, b);
    ReplacedRegion(doc, e, []);
    assert [e] + [] == [e];
    Regroup(doc[a..e.start], e.lines, doc[e.end..b]);
  }

  /** An insert at the end of a region comes after everything in it. */
  lemma SegmentInsertLast(doc: seq<string>, edits: seq<Edit>, e: Edit, a: nat, b: nat)
    requires a < b <= |doc| && IsInsert(e) && e.start == b
    ensures Segment(doc, edits + [e], a, b) == Segment(doc, edits, a, b) + e.lines
  {
    hide Segment, Emit, Inserted;
    var all, m := edits + [e], b - 1;
    SegmentSplit(doc, edits, a, m, b);
    SegmentSplit(doc, all, a, m, b);
    SegmentIgnores(doc, [], edits, [e], a, m);
    assert [] + edits + [e] == all;
    InsertLastAt(doc, edits, e, m);
    SegmentOne(doc, edits, m);
    SegmentOne(doc, all, m);
    Regroup(Emit(doc, edits, m), Inserted(edits, b), e.lines);
    Regroup(Segment(doc, edits, a, m), Segment(doc, edits, m, b), e.lines);
  }

  lemma InsertLastAt(doc: seq<string>, edits: seq<Edit>, e: Edit, m: nat)
    requires m < |doc| && IsInsert(e) && e.start == m + 1
    ensures Emit(doc, edits + [e], m) == Emit(doc, edits, m)
    ensures Inserted(edits + [e], m + 1) == Inserted(edits, m + 1) + e.lines
  {
    InsertedConcat(edits, [e], m + 1);
    InsertedConcat(edits, [e], m);
    assert Inserted([e], m + 1) == e.lines + [] == e.lines;
    assert Replacing([e], m) == [] && !Covered([e], m);
    assert Replacing(edits, m) + [] == Replacing(edits, m);
  }

  lemma SegmentOne(doc: seq<string>, edits: seq<Edit>, m: nat)
    requires m < |doc|
    ensures Segment(doc, edits, m, m + 1) == Emit(doc, edits, m) + Inserted(edits, m + 1)
  {
    assert Segment(doc, edits, m + 1, m + 1) == [];
  }

  lemma WithinMeansOutside(edits: seq<Edit>, a: nat, b: nat, a': nat, b': nat)
    requires AllWithin(edits, a, b) && (b <= a' || b' <= a)
    ensures AllOutside(edits, a', b')
  {
  }

  lemma WithinLarger(edits: seq<Edit>, a: nat, b: nat, a': nat, b': nat)
    requires AllWithin(edits, a, b) && a' <= a && b <= b'
    ensures AllWithin(edits, a', b')
  {
  }

  // ----- the spans of a mapping

  lemma PairSpan(c: Ctx, k: nat, col: nat, n: Node, i: nat)
    requires Under(c, k, col, n) && i < |n.pairs|
    ensures var p := n.pairs[i];
            && p.line < |c.doc|
            && k + 1 <= Head(c, p, n.col) <= p.line
            && p.line < PastValue(c, p, n.col) <= PastBlock(c, p.line, n.col) <= PastBlock(c, k, col) <= |c.doc|
            && (p.val.Block? ==> Under(c, p.line, n.col, p.val))
  {
    var p := n.pairs[i];
    ChildInside(c.kinds, k, col, p.line, n.col);
    EndsInRange(c.kinds, p.line, n.col);
    EndsInRange(c.kinds, k, col);
    assert NestedAt(c.kinds, p, n.col);
  }

  lemma PairsApart(c: Ctx, k: nat, col: nat, n: Node, i: nat, j: nat)
    requires Under(c, k, col, n) && i < j < |n.pairs|
    ensures n.pairs[i].line < |c.kinds| && n.pairs[j].line < |c.kinds|
    ensures PastBlock(c, n.pairs[i].line, n.col) <= Head(c, n.pairs[j], n.col)
  {
    SiblingsApart(c.kinds, n.pairs[i].line, n.pairs[j].line, n.col);
  }

  lemma FindIs(pairs: seq<Pair>, i: nat)
    requires DistinctKeys(pairs) && i < |pairs|
    ensures Find(pairs, pairs[i].key) == i
  {
  }

  // ----- where the edits go

  lemma {:induction false} KeyEditsWithin(c: Ctx, k: nat, col: nat, n: Node, i: nat, v: Value)
    requires Under(c, k, col, n) && i < |n.pairs|
    ensures n.pairs[i].line < |c.doc|
    ensures var p := n.pairs[i];
            AllWithin(KeyEdits(c, p, n.col, v), Head(c, p, n.col), PastBlock(c, p.line, n.col))
    decreases n, 0, 0
  {
    var p := n.pairs[i];
    PairSpan(c, k, col, n, i);
    if !Same(Decode(p.val), v) && v.Map? && p.val.Block? {
      var order := c.nestedOrder(v.entries.Keys);
      SetEditsWithin(c, p.line, n.col, p.val, v.entries, order, c.nestedReplace);
      WithinLarger(SetEdits(c, p.line, n.col, p.val, v.entries, order, c.nestedReplace),
                   p.line + 1, PastBlock(c, p.line, n.col), Head(c, p, n.col), PastBlock(c, p.line, n.col));
    }
  }

  lemma {:induction false} VisitEditsWithin(
    c: Ctx, k: nat, col: nat, n: Node, props: map<string, Value>, order: seq<string>)
    requires Under(c, k, col, n)
    ensures AllWithin(VisitEdits(c, n, props, order), k + 1, PastBlock(c, k, col))
    decreases n, 1, |order|
  {
    if order != [] {
      VisitEditsWithin(c, k, col, n, props, order[1..]);
      var i := Find(n.pairs, order[0]);
      if order[0] in props && i < |n.pairs| {
        KeyEditsWithin(c, k, col, n, i, props[order[0]]);
        PairSpan(c, k, col, n, i);
      }
    }
  }

  /** Visiting other keys leaves the region of the i-th pair alone. */
  lemma {:induction false} VisitEditsOutside(
    c: Ctx, k: nat, col: nat, n: Node, props: map<string, Value>, order: seq<string>, i: nat)
    requires Under(c, k, col, n) && i < |n.pairs|
    requires n.pairs[i].key in order ==> n.pairs[i].key !in props
    ensures n.pairs[i].line < |c.doc|
    ensures var p := n.pairs[i];
            AllOutside(VisitEdits(c, n, props, order), Head(c, p, n.col), PastBlock(c, p.line, n.col))
    decreases |order|
  {
    PairSpan(c, k, col, n, i);
    if order != [] {
      VisitEditsOutside(c, k, col, n, props, order[1..], i);
      var j := Find(n.pairs, order[0]);
      if order[0] in props && j < |n.pairs| {
        OtherPairOutside(c, k, col, n, i, j, props[order[0]]);
      }
    }
  }

  lemma OtherPairOutside(c: Ctx, k: nat, col: nat, n: Node, i: nat, j: nat, v: Value)
    requires Under(c, k, col, n) && i < |n.pairs| && j < |n.pairs| && i != j
    ensures n.pairs[i].line < |c.doc| && n.pairs[j].line < |c.doc|
    ensures var p := n.pairs[i];
            AllOutside(KeyEdits(c, n.pairs[j], n.col, v), Head(c, p, n.col), PastBlock(c, p.line, n.col))
  {
    var p, q := n.pairs[i], n.pairs[j];
    KeyEditsWithin(c, k, col, n, j, v);
    if i < j { PairsApart(c, k, col, n, i, j); } else { PairsApart(c, k, col, n, j, i); }
    WithinMeansOutside(KeyEdits(c, q, n.col, v), Head(c, q, n.col), PastBlock(c, q.line, n.col),
                       Head(c, p, n.col), PastBlock(c, p.line, n.col));
  }

  /** The drops of the pairs from the from-th on. */
  lemma {:induction false} DropEditsWithin(c: Ctx, k: nat, col: nat, n: Node, props: map<string, Value>, from: nat)
    requires Under(c, k, col, n) && from <= |n.pairs|
    ensures AllWithin(DropEdits(c, n.pairs[from..], n.col, props), k + 1, PastBlock(c, k, col))
    decreases |n.pairs| - from
  {
    if from < |n.pairs| {
      assert n.pairs[from..][1..] == n.pairs[from + 1..];
      DropEditsWithin(c, k, col, n, props, from + 1);
      PairSpan(c, k, col, n, from);
    }
  }

  lemma {:induction false} DropEditsOutside(
    c: Ctx, k: nat, col: nat, n: Node, props: map<string, Value>, from: nat, i: nat)
    requires Under(c, k, col, n) && from <= |n.pairs| && i < |n.pairs|
    requires i < from || n.pairs[i].key in props
    ensures n.pairs[i].line < |c.doc|
    ensures var p := n.pairs[i];
            AllOutside(DropEdits(c, n.pairs[from..], n.col, props), Head(c, p, n.col), PastBlock(c, p.line, n.col))
    decreases |n.pairs| - from
  {
    hide Under, HeadStart, BlockEnd, ValueEnd, DistinctKeys;
    PairSpan(c, k, col, n, i);
    if from < |n.pairs| {
      assert n.pairs[from..][1..] == n.pairs[from + 1..];
      DropEditsOutside(c, k, col, n, props, from + 1, i);
      PairSpan(c, k, col, n, from);
      if i < from { PairsApart(c, k, col, n, i, from); }
      if from < i { PairsApart(c, k, col, n, from, i); }
    }
  }

  lemma {:induction false} SetEditsWithin(
    c: Ctx, k: nat, col: nat, n: Node, props: map<string, Value>, order: seq<string>, drop: bool)
    requires Under(c, k, col, n)
    ensures AllWithin(SetEdits(c, k, col, n, props, order, drop), k + 1, PastBlock(c, k, col))
    decreases n, 2, 0
  {
    VisitEditsWithin(c, k, col, n, props, order);
    DropEditsWithin(c, k, col, n, props, 0);
    assert n.pairs[0..] == n.pairs;
    PairSpan(c, k, col, n, 0);
  }

  // ----- the gaps between the pairs

  /** No pair of n reaches into lines a..b. */
  ghost predicate Gap(c: Ctx, n: Node, a: nat, b: nat)
    requires n.Block?
  {
    forall j | 0 <= j < |n.pairs| && n.pairs[j].line < |c.kinds| ::
      PastBlock(c, n.pairs[j].line, n.col) <= a || b <= Head(c, n.pairs[j], n.col)
  }

  lemma {:induction false} VisitEditsSkipGap(
    c: Ctx, k: nat, col: nat, n: Node, props: map<string, Value>, order: seq<string>, a: nat, b: nat)
    requires Under(c, k, col, n) && Gap(c, n, a, b)
    ensures AllOutside(VisitEdits(c, n, props, order), a, b)
    decreases |order|
  {
    if order != [] {
      VisitEditsSkipGap(c, k, col, n, props, order[1..], a, b);
      var j := Find(n.pairs, order[0]);
      if order[0] in props && j < |n.pairs| {
        var p, v := n.pairs[j], props[order[0]];
        KeyEditsWithin(c, k, col, n, j, v);
        WithinMeansOutside(KeyEdits(c, p, n.col, v), Head(c, p, n.col), PastBlock(c, p.line, n.col), a, b);
      }
    }
  }

  lemma {:induction false} DropEditsSkipGap(
    c: Ctx, k: nat, col: nat, n: Node, props: map<string, Value>, from: nat, a: nat, b: nat)
    requires Under(c, k, col, n) && from <= |n.pairs| && Gap(c, n, a, b)
    ensures AllOutside(DropEdits(c, n.pairs[from..], n.col, props), a, b)
    decreases |n.pairs| - from
  {
    if from < |n.pairs| {
      assert n.pairs[from..][1..] == n.pairs[from + 1..];
      DropEditsSkipGap(c, k, col, n, props, from + 1, a, b);
      PairSpan(c, k, col, n, from);
    }
  }

  /** The lines before the i-th pair, from where the pair before it ended. */
  lemma GapBefore(c: Ctx, k: nat, col: nat, n: Node, i: nat, from: nat)
    requires Under(c, k, col, n) && i <= |n.pairs|
    requires i == 0 ==> from == k + 1
    requires i > 0 ==> n.pairs[i - 1].line < |c.kinds| && from == PastBlock(c, n.pairs[i - 1].line, n.col)
    ensures i < |n.pairs| ==> n.pairs[i].line < |c.kinds|
    ensures var to := if i < |n.pairs| then Head(c, n.pairs[i], n.col) else PastBlock(c, k, col);
            from <= to <= |c.doc| && Gap(c, n, from, to)
  {
    hide Under, HeadStart, BlockEnd, ValueEnd;
    if i < |n.pairs| { PairSpan(c, k, col, n, i); }
    if i > 0 {
      PairSpan(c, k, col, n, i - 1);
      if i < |n.pairs| { PairsApart(c, k, col, n, i - 1, i); }
    } else {
      EndsInRange(c.kinds, k, col);
    }
    forall j | 0 <= j < |n.pairs|
      ensures n.pairs[j].line < |c.kinds|
      ensures j < i ==> PastBlock(c, n.pairs[j].line, n.col) <= from
      ensures i <= j ==> Head(c, n.pairs[i], n.col) <= Head(c, n.pairs[j], n.col)
    {
      PairSpan(c, k, col, n, j);
      if j < i - 1 {
        PairsApart(c, k, col, n, j, i - 1);
        PairSpan(c, k, col, n, i - 1);
      }
      if i < j {
        PairsApart(c, k, col, n, i, j);
        PairSpan(c, k, col, n, i);
      }
    }
  }

  // ----- the text of a region

  lemma {:induction false} TextOfConcat(a: seq<Item>, b: seq<Item>)
    ensures TextOf(a + b) == TextOf(a) + TextOf(b)
  {
    if a == [] {
      assert a + b == b;
    } else {
      assert (a + b)[1..] == a[1..] + b;
      TextOfConcat(a[1..], b);
    }
  }

  lemma {:induction false} AddedText(c: Ctx, col: nat, props: map<string, Value>, keys: seq<string>)
    ensures TextOf(AddedItems(c, col, props, keys)) == RenderAdded(c, col, props, keys)
  {
    if keys != [] {
      AddedText(c, col, props, keys[1..]);
      if keys[0] in props {
        assert TextOf([Entry(keys[0], c.renderPair(keys[0], props[keys[0]], col), props[keys[0]])])
            == c.renderPair(keys[0], props[keys[0]], col);
        TextOfConcat([Entry(keys[0], c.renderPair(keys[0], props[keys[0]], col), props[keys[0]])],
                     AddedItems(c, col, props, keys[1..]));
      } else {
        assert [] + AddedItems(c, col, props, keys[1..]) == AddedItems(c, col, props, keys[1..]);
        assert [] + RenderAdded(c, col, props, keys[1..]) == RenderAdded(c, col, props, keys[1..]);
      }
    }
  }

  /** A region whose edits start at m keeps the lines before m. */
  lemma LeadThenEdits(doc: seq<string>, edits: seq<Edit>, h: nat, m: nat, b: nat)
    requires h <= m <= b <= |doc| && AllWithin(edits, m, b)
    ensures Segment(doc, edits, h, b) == doc[h..m] + Segment(doc, edits, m, b)
  {
    WithinMeansOutside(edits, m, b, h, m);
    SegmentSplit(doc, edits, h, m, b);
    SegmentUntouched(doc, edits, h, m);
  }

  /** A pair whose own lines are written again. */
  lemma RewrittenRegion(c: Ctx, p: Pair, col: nat, v: Value)
    requires |c.kinds| == |c.doc| && p.line < |c.doc|
    requires !Same(Decode(p.val), v) && !(v.Map? && p.val.Block?)
    ensures Head(c, p, col) <= PastBlock(c, p.line, col) <= |c.doc|
    ensures Segment(c.doc, KeyEdits(c, p, col, v), Head(c, p, col), PastBlock(c, p.line, col))
         == ItemText(OutKey(c, p, col, v))
  {
    hide HeadStart, BlockEnd, ValueEnd, Same, Decode, Segment;
    EndsInRange(c.kinds, p.line, col);
    SegmentSingle(c.doc, KeyEdits(c, p, col, v)[0], Head(c, p, col), PastBlock(c, p.line, col));
  }

  lemma NestedVisits(c: Ctx, props: map<string, Value>)
    requires VisitsNested(c)
    ensures Visits(c.nestedOrder(props.Keys), props)
  {
  }

  lemma {:induction false} KeyRegion(c: Ctx, k: nat, col: nat, n: Node, i: nat, v: Value)
    requires Under(c, k, col, n) && i < |n.pairs| && VisitsNested(c)
    ensures n.pairs[i].line < |c.doc|
    ensures var p := n.pairs[i];
            && Head(c, p, n.col) <= PastBlock(c, p.line, n.col) <= |c.doc|
            && Segment(c.doc, KeyEdits(c, p, n.col, v), Head(c, p, n.col), PastBlock(c, p.line, n.col))
               == ItemText(OutKey(c, p, n.col, v))
    decreases n, 0
  {
    hide Under, HeadStart, BlockEnd, ValueEnd, Same, Decode, EditScalar, Rewritten, SetEdits, OutSet, DistinctKeys,
         Segment, Visits;
    PairSpan(c, k, col, n, i);
    var p := n.pairs[i];
    var edits := KeyEdits(c, p, n.col, v);
    var h, b := Head(c, p, n.col), PastBlock(c, p.line, n.col);
    if Same(Decode(p.val), v) {
      SegmentUntouched(c.doc, edits, h, b);
    } else if v.Map? && p.val.Block? {
      var order := c.nestedOrder(v.entries.Keys);
      SetEditsWithin(c, p.line, n.col, p.val, v.entries, order, c.nestedReplace);
      LeadThenEdits(c.doc, edits, h, p.line + 1, b);
      NestedVisits(c, v.entries);
      SetRegion(c, p.line, n.col, p.val, v.entries, order, c.nestedReplace);
    } else {
      RewrittenRegion(c, p, n.col, v);
    }
  }

  lemma {:induction false} VisitRegion(
    c: Ctx, k: nat, col: nat, n: Node, props: map<string, Value>, order: seq<string>, i: nat)
    requires Under(c, k, col, n) && i < |n.pairs| && VisitsNested(c)
    requires Names.NoRepeats(order) && n.pairs[i].key in order && n.pairs[i].key in props
    ensures n.pairs[i].line < |c.doc|
    ensures var p := n.pairs[i];
            && Head(c, p, n.col) <= PastBlock(c, p.line, n.col) <= |c.doc|
            && Segment(c.doc, VisitEdits(c, n, props, order), Head(c, p, n.col), PastBlock(c, p.line, n.col))
               == ItemText(OutKey(c, p, n.col, props[p.key]))
    decreases n, 1, |order|
  {
    hide Under, VisitsNested, KeyEdits, OutKey, HeadStart, BlockEnd;
    PairSpan(c, k, col, n, i);
    var p := n.pairs[i];
    var h, b := Head(c, p, n.col), PastBlock(c, p.line, n.col);
    var rest := VisitEdits(c, n, props, order[1..]);
    FindIs(n.pairs, i);
    if order[0] == p.key {
      var edits := KeyEdits(c, p, n.col, props[p.key]);
      assert p.key !in order[1..];
      VisitEditsOutside(c, k, col, n, props, order[1..], i);
      KeyRegion(c, k, col, n, i, props[p.key]);
      SegmentIgnores(c.doc, [], edits, rest, h, b);
      assert [] + edits + rest == VisitEdits(c, n, props, order);
    } else {
      assert p.key in order[1..];
      VisitRegion(c, k, col, n, props, order[1..], i);
      var j := Find(n.pairs, order[0]);
      if order[0] in props && j < |n.pairs| {
        OtherPairOutside(c, k, col, n, i, j, props[order[0]]);
        PairSpan(c, k, col, n, j);
        var other := KeyEdits(c, n.pairs[j], n.col, props[order[0]]);
        SegmentIgnores(c.doc, other, rest, [], h, b);
        assert other + rest + [] == VisitEdits(c, n, props, order);
      } else {
        assert VisitEdits(c, n, props, order) == rest;
      }
    }
  }

  lemma BeforeOutside(e: Edit, a: nat, b: nat)
    requires e.start <= e.end <= a
    ensures AllOutside([e], a, b)
  {
  }

  lemma {:induction false} DropRegion(c: Ctx, k: nat, col: nat, n: Node, props: map<string, Value>, from: nat, i: nat)
    requires Under(c, k, col, n) && from <= i < |n.pairs| && n.pairs[i].key !in props
    ensures n.pairs[i].line < |c.doc|
    ensures var p := n.pairs[i];
            && Head(c, p, n.col) <= PastValue(c, p, n.col) <= PastBlock(c, p.line, n.col) <= |c.doc|
            && Segment(c.doc, DropEdits(c, n.pairs[from..], n.col, props), Head(c, p, n.col),
                       PastBlock(c, p.line, n.col))
               == c.doc[PastValue(c, p, n.col)..PastBlock(c, p.line, n.col)]
    decreases |n.pairs| - from
  {
    hide Under, HeadStart, BlockEnd, ValueEnd, DistinctKeys, Segment, Outside;
    PairSpan(c, k, col, n, i);
    PairSpan(c, k, col, n, from);
    var p, q := n.pairs[i], n.pairs[from];
    var h, b := Head(c, p, n.col), PastBlock(c, p.line, n.col);
    assert n.pairs[from..][1..] == n.pairs[from + 1..];
    var rest := DropEdits(c, n.pairs[from + 1..], n.col, props);
    var e := Edit(Head(c, q, n.col), PastValue(c, q, n.col), []);
    if from == i {
      DropEditsOutside(c, k, col, n, props, from + 1, i);
      SegmentIgnores(c.doc, [], [e], rest, h, b);
      assert [] + [e] + rest == DropEdits(c, n.pairs[from..], n.col, props);
      SegmentSingle(c.doc, e, h, b);
    } else {
      DropRegion(c, k, col, n, props, from + 1, i);
      if q.key !in props {
        PairsApart(c, k, col, n, from, i);
        BeforeOutside(e, h, b);
        SegmentIgnores(c.doc, [e], rest, [], h, b);
        assert [e] + rest + [] == DropEdits(c, n.pairs[from..], n.col, props);
      } else {
        assert rest == DropEdits(c, n.pairs[from..], n.col, props);
      }
    }
  }

  /** Everything but the insert of new keys. */
  function PairEdits(c: Ctx, n: Node, props: map<string, Value>, order: seq<string>, drop: bool): seq<Edit>
    requires n.Block?
  {
    VisitEdits(c, n, props, order) + (if drop then DropEdits(c, n.pairs, n.col, props) else [])
  }

  lemma PairRegion(c: Ctx, k: nat, col: nat, n: Node, props: map<string, Value>, order: seq<string>, drop: bool, i: nat)
    requires Under(c, k, col, n) && i < |n.pairs| && VisitsNested(c) && Visits(order, props)
    ensures n.pairs[i].line < |c.doc|
    ensures var p := n.pairs[i];
            && Head(c, p, n.col) <= PastBlock(c, p.line, n.col) <= |c.doc|
            && Segment(c.doc, PairEdits(c, n, props, order, drop), Head(c, p, n.col), PastBlock(c, p.line, n.col))
               == ItemText(OutPair(c, p, n.col, props, drop))
    decreases n, 2
  {
    hide Under, VisitsNested, VisitEdits, DropEdits, OutKey, HeadStart, BlockEnd, ValueEnd, Segment, AllOutside;
    PairSpan(c, k, col, n, i);
    var p := n.pairs[i];
    assert n.pairs[0..] == n.pairs;
    if p.key in props {
      DropEditsOutside(c, k, col, n, props, 0, i);
      KeptPairRegion(c, n, props, order, drop, i);
      VisitRegion(c, k, col, n, props, order, i);
    } else {
      VisitEditsOutside(c, k, col, n, props, order, i);
      DroppedPairRegion(c, n, props, order, drop, i);
      if drop { DropRegion(c, k, col, n, props, 0, i); }
    }
  }

  lemma KeptPairRegion(c: Ctx, n: Node, props: map<string, Value>, order: seq<string>, drop: bool, i: nat)
    requires n.Block? && i < |n.pairs| && n.pairs[i].line < |c.kinds|
    requires Head(c, n.pairs[i], n.col) <= PastBlock(c, n.pairs[i].line, n.col) <= |c.doc|
    requires AllOutside(DropEdits(c, n.pairs, n.col, props), Head(c, n.pairs[i], n.col),
                        PastBlock(c, n.pairs[i].line, n.col))
    ensures Segment(c.doc, PairEdits(c, n, props, order, drop), Head(c, n.pairs[i], n.col),
                    PastBlock(c, n.pairs[i].line, n.col))
         == Segment(c.doc, VisitEdits(c, n, props, order), Head(c, n.pairs[i], n.col),
                    PastBlock(c, n.pairs[i].line, n.col))
  {
    hide VisitEdits, DropEdits, HeadStart, BlockEnd, Segment, Outside;
    var visits := VisitEdits(c, n, props, order);
    var drops := if drop then DropEdits(c, n.pairs, n.col, props) else [];
    SegmentIgnores(c.doc, [], visits, drops, Head(c, n.pairs[i], n.col), PastBlock(c, n.pairs[i].line, n.col));
    assert [] + visits + drops == PairEdits(c, n, props, order, drop);
  }

  lemma DroppedPairRegion(c: Ctx, n: Node, props: map<string, Value>, order: seq<string>, drop: bool, i: nat)
    requires n.Block? && i < |n.pairs| && n.pairs[i].line < |c.kinds|
    requires Head(c, n.pairs[i], n.col) <= PastBlock(c, n.pairs[i].line, n.col) <= |c.doc|
    requires AllOutside(VisitEdits(c, n, props, order), Head(c, n.pairs[i], n.col),
                        PastBlock(c, n.pairs[i].line, n.col))
    ensures var h, b := Head(c, n.pairs[i], n.col), PastBlock(c, n.pairs[i].line, n.col);
            Segment(c.doc, PairEdits(c, n, props, order, drop), h, b)
            == (if drop then Segment(c.doc, DropEdits(c, n.pairs, n.col, props), h, b) else c.doc[h..b])
  {
    hide VisitEdits, DropEdits, HeadStart, BlockEnd, Segment, Outside;
    var h, b := Head(c, n.pairs[i], n.col), PastBlock(c, n.pairs[i].line, n.col);
    var visits := VisitEdits(c, n, props, order);
    var drops := if drop then DropEdits(c, n.pairs, n.col, props) else [];
    SegmentIgnores(c.doc, visits, drops, [], h, b);
    assert visits + drops + [] == PairEdits(c, n, props, order, drop);
    if !drop { SegmentUntouched(c.doc, drops, h, b); }
  }

  lemma GapText(
    c: Ctx, k: nat, col: nat, n: Node, props: map<string, Value>, order: seq<string>, drop: bool, a: nat, b: nat)
    requires Under(c, k, col, n) && a <= b <= |c.doc| && Gap(c, n, a, b)
    ensures Segment(c.doc, PairEdits(c, n, props, order, drop), a, b) == c.doc[a..b]
  {
    VisitEditsSkipGap(c, k, col, n, props, order, a, b);
    DropEditsSkipGap(c, k, col, n, props, 0, a, b);
    assert n.pairs[0..] == n.pairs;
    SegmentUntouched(c.doc, PairEdits(c, n, props, order, drop), a, b);
  }

  lemma {:induction false} PairsRegion(
    c: Ctx, k: nat, col: nat, n: Node, props: map<string, Value>, order: seq<string>, drop: bool, i: nat, from: nat)
    requires Under(c, k, col, n) && i <= |n.pairs| && VisitsNested(c) && Visits(order, props)
    requires i == 0 ==> from == k + 1
    requires i > 0 ==> n.pairs[i - 1].line < |c.kinds| && from == PastBlock(c, n.pairs[i - 1].line, n.col)
    ensures from <= PastBlock(c, k, col) <= |c.doc|
    ensures Segment(c.doc, PairEdits(c, n, props, order, drop), from, PastBlock(c, k, col))
         == TextOf(OutPairs(c, n, props, drop, i, from, PastBlock(c, k, col)))
    decreases n, 3, |n.pairs| - i
  {
    hide Under, VisitsNested, Visits, VisitEdits, DropEdits, PairEdits, OutPair, Gap, HeadStart, BlockEnd, Segment;
    GapBefore(c, k, col, n, i, from);
    var to, edits := PastBlock(c, k, col), PairEdits(c, n, props, order, drop);
    EndsInRange(c.kinds, k, col);
    if i == |n.pairs| {
      GapText(c, k, col, n, props, order, drop, from, to);
      assert OutPairs(c, n, props, drop, i, from, to) == [Filler(c.doc[from..to])];
    } else {
      PairSpan(c, k, col, n, i);
      var p := n.pairs[i];
      var h, b := Head(c, p, n.col), PastBlock(c, p.line, n.col);
      GapText(c, k, col, n, props, order, drop, from, h);
      PairRegion(c, k, col, n, props, order, drop, i);
      PairsRegion(c, k, col, n, props, order, drop, i + 1, b);
      ThreeRegions(c.doc, edits, from, h, b, to,
                   Filler(c.doc[from..h]), OutPair(c, p, n.col, props, drop),
                     OutPairs(c, n, props, drop, i + 1, b, to));
    }
  }

  lemma ThreeRegions(
    doc: seq<string>, edits: seq<Edit>, from: nat, h: nat, b: nat, to: nat, x: Item, y: Item, rest: seq<Item>)
    requires from <= h <= b <= to <= |doc|
    requires Segment(doc, edits, from, h) == ItemText(x)
    requires Segment(doc, edits, h, b) == ItemText(y)
    requires Segment(doc, edits, b, to) == TextOf(rest)
    ensures Segment(doc, edits, from, to) == TextOf([x, y] + rest)
  {
    SegmentSplit(doc, edits, from, h, to);
    SegmentSplit(doc, edits, h, b, to);
    TextOfTwo(x, y);
    TextOfConcat([x, y], rest);
    Regroup(ItemText(x), ItemText(y), TextOf(rest));
  }

  lemma TextOfTwo(x: Item, y: Item)
    ensures TextOf([x, y]) == ItemText(x) + ItemText(y)
  {
    assert [x, y][1..] == [y];
    assert TextOf([y]) == ItemText(y);
  }

  /** The lines of the mapping after the edits are the lines of the edited
      mapping: every visiting order gives the same text. */
  lemma {:induction false} SetRegion(
    c: Ctx, k: nat, col: nat, n: Node, props: map<string, Value>, order: seq<string>, drop: bool)
    requires Under(c, k, col, n) && VisitsNested(c) && Visits(order, props)
    ensures k + 1 <= PastBlock(c, k, col) <= |c.doc|
    ensures Segment(c.doc, SetEdits(c, k, col, n, props, order, drop), k + 1, PastBlock(c, k, col))
         == TextOf(OutSet(c, k, col, n, props, order, drop))
    decreases n, 4
  {
    hide Under, VisitsNested, Visits, OutPairs, VisitEdits, DropEdits, Segment, TextOf, AddedItems;
    var to := PastBlock(c, k, col);
    PairSpan(c, k, col, n, 0);
    PairsRegion(c, k, col, n, props, order, drop, 0, k + 1);
    var pairEdits, adds := PairEdits(c, n, props, order, drop), AddEdits(c, k, col, n, props, order);
    var added := AddedKeys(n.pairs, props, order);
    TextOfConcat(OutPairs(c, n, props, drop, 0, k + 1, to), AddedItems(c, n.col, props, added));
    AddedText(c, n.col, props, added);
    if added != [] {
      SegmentInsertLast(c.doc, pairEdits, adds[0], k + 1, to);
    } else {
      assert pairEdits + adds == pairEdits;
    }
  }
}
