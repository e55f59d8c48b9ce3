/** The update of a block mapping as the editor runs it, and what it does to
    the file. */
module MappingUpdate {
  import opened Text
  import opened Sequences
  import opened Values
  import opened LineGeometry
  import opened LineSplice
  import opened MappingEdits
  import opened MappingText
  import opened MappingOrder
  import opened MappingValues

  /** The recursive update. It collects line edits; nothing is applied yet. */
  class MappingEdit {
    const c: Ctx
    const ed: LineEdits

    constructor (c: Ctx, ed: LineEdits)
      ensures this.c == c && this.ed == ed
    {
      this.c, this.ed := c, ed;
    }

    method SetScalar(p: Pair, col: nat, v: Value) returns (done: bool)
      requires ed.Valid() && c.kinds == KindsOf(c.doc) && p.line < |c.doc|
      modifies ed
      ensures ed.Valid()
      ensures done == EditScalar(c, p, col, v).Some?
      ensures done ==> ed.Plain() == old(ed.Plain()) + [Edit(p.line, p.line + 1, [EditScalar(c, p, col, v).value])]
      ensures !done ==> ed.Plain() == old(ed.Plain())
    {
      if !p.val.Leaf? || !p.val.inline {
        return false;
      }
      var last := FindValueEnd(c.doc, p.line, col);
      if last != p.line {
        return false;
      }
      var line := c.scalarLine(c.doc[p.line], v);
      if line.None? {
        return false;
      }
      ed.Replace(p.line, p.line + 1, [line.value]);
      return true;
    }

    /** Sets v on a pair by writing its own lines again. */
    method RewriteKey(p: Pair, col: nat, v: Value)
      requires ed.Valid() && c.kinds == KindsOf(c.doc) && p.line < |c.doc|
      requires !Same(Decode(p.val), v) && !(v.Map? && p.val.Block?)
      modifies ed
      ensures ed.Valid()
      ensures ed.Plain() == old(ed.Plain()) + KeyEdits(c, p, col, v)
    {
      hide KindsOf, ValueEnd, IsValueEnd, Same, Merge, EditScalar;
      var done := SetScalar(p, col, v);
      if done {
        return;
      }
      var w, cur := v, Decode(p.val);
      if v.Map? && !c.nestedReplace && cur.Map? {
        w := Merge(cur, v);
      }
      var lines := LinesAgain(c, p, col, w);
      var last := FindValueEnd(c.doc, p.line, col);
      ed.Replace(p.line, last + 1, lines);
    }

    /** Sets v on the i-th pair of the mapping n. */
    method SetKey(ghost k: nat, ghost col: nat, n: Node, i: nat, v: Value)
      requires ed.Valid() && c.kinds == KindsOf(c.doc) && Under(c, k, col, n) && VisitsNested(c) && i < |n.pairs|
      modifies ed
      ensures ed.Valid() && n.pairs[i].line < |c.doc|
      ensures ed.Plain() == old(ed.Plain()) + KeyEdits(c, n.pairs[i], n.col, v)
      decreases n, 0
    {
      hide Under, VisitsNested, Head, PastValue, PastBlock, SetEdits, KindsOf, EditScalar, Rewritten, Same, Decode,
           Visits;
      PairSpan(c, k, col, n, i);
      var p := n.pairs[i];
      if Same(Decode(p.val), v) {
        assert ed.Plain() == old(ed.Plain()) + [];
      } else if v.Map? && p.val.Block? {
        NestedVisits(c, v.entries);
        Set(p.line, n.col, p.val, v.entries, c.nestedOrder(v.entries.Keys), c.nestedReplace);
      } else {
        RewriteKey(p, n.col, v);
      }
    }

    /** Visits the keys in order and collects those the mapping does not have. */
    method VisitKeys(
      ghost k: nat, ghost col: nat, n: Node, props: map<string, Value>, order: seq<string>) returns (added: seq<string>)
      requires ed.Valid() && c.kinds == KindsOf(c.doc) && Under(c, k, col, n) && VisitsNested(c)
      modifies ed
      ensures ed.Valid()
      ensures ed.Plain() == old(ed.Plain()) + VisitEdits(c, n, props, order)
      ensures added == AddedKeys(n.pairs, props, order)
      decreases n, 1
    {
      hide Under, VisitsNested, HeadStart, BlockEnd, ValueEnd, KeyEdits, KindsOf, LineEdits.Valid, LineEdits.Plain,
           VisitEdits, AddedKeys;
      ghost var before := ed.Plain();
      added := [];
      for i := 0 to |order|
        invariant ed.Valid()
        invariant ed.Plain() + VisitEdits(c, n, props, order[i..]) == before + VisitEdits(c, n, props, order)
        invariant added + AddedKeys(n.pairs, props, order[i..]) == AddedKeys(n.pairs, props, order)
      {
        var key := order[i];
        var j := Find(n.pairs, key);
        ghost var rest := VisitEdits(c, n, props, order[i + 1..]);
        ghost var mid := ed.Plain();
        if j < |n.pairs| { PairSpan(c, k, col, n, j); }
        VisitsFrom(c, n, props, order, i);
        if key in props {
          if j == |n.pairs| {
            added := added + [key];
          } else {
            SetKey(k, col, n, j, props[key]);
            Regroup(mid, KeyEdits(c, n.pairs[j], n.col, props[key]), rest);
          }
        }
      }
      assert order[|order|..] == [];
      VisitsNothing(c, n, props);
      assert ed.Plain() + [] == ed.Plain() && added + [] == added;
    }

    /** Sets props on the mapping n under the key at (k, col): keys are visited
        in order, dropped keys go after them, new keys come last. */
    method Set(k: nat, col: nat, n: Node, props: map<string, Value>, order: seq<string>, drop: bool)
      requires ed.Valid() && c.kinds == KindsOf(c.doc) && Under(c, k, col, n) && VisitsNested(c) && Visits(order, props)
      modifies ed
      ensures ed.Valid()
      ensures ed.Plain() == old(ed.Plain()) + SetEdits(c, k, col, n, props, order, drop)
      decreases n, 2
    {
      hide Under, VisitsNested, Visits, HeadStart, BlockEnd, ValueEnd, KindsOf, VisitEdits, DropEdits, AddEdits,
           LineEdits.Valid, LineEdits.Plain;
      ghost var before := ed.Plain();
      var added := VisitKeys(k, col, n, props, order);
      ghost var visits := VisitEdits(c, n, props, order);
      if drop {
        DropKeys(k, col, n, props);
        Regroup(before, visits, DropEdits(c, n.pairs, n.col, props));
      } else {
        assert visits + [] == visits;
      }
      AddKeys(k, col, n, props, order, added);
      Regroup(before, PairEdits(c, n, props, order, drop), AddEdits(c, k, col, n, props, order));
    }

    method DropKeys(ghost k: nat, ghost col: nat, n: Node, props: map<string, Value>)
      requires ed.Valid() && c.kinds == KindsOf(c.doc) && Under(c, k, col, n)
      modifies ed
      ensures ed.Valid()
      ensures ed.Plain() == old(ed.Plain()) + DropEdits(c, n.pairs, n.col, props)
    {
      hide Under, HeadStart, BlockEnd, ValueEnd, KindsOf, IsValueEnd, IsHeadStart;
      ghost var before := ed.Plain();
      for i := 0 to |n.pairs|
        invariant ed.Valid()
        invariant ed.Plain() + DropEdits(c, n.pairs[i..], n.col, props) == before + DropEdits(c, n.pairs, n.col, props)
      {
        var p := n.pairs[i];
        assert n.pairs[i..][0] == p && n.pairs[i..][1..] == n.pairs[i + 1..];
        PairSpan(c, k, col, n, i);
        ghost var rest := DropEdits(c, n.pairs[i + 1..], n.col, props);
        if p.key in props {
          assert [] + rest == rest;
          continue;
        }
        var first := FindHeadStart(c.doc, p.line, n.col);
        var last := FindValueEnd(c.doc, p.line, n.col);
        Regroup(ed.Plain(), [Edit(first, last + 1, [])], rest);
        ed.Replace(first, last + 1, []);
      }
      assert n.pairs[|n.pairs|..] == [];
    }

    method AddKeys(k: nat, col: nat, n: Node, props: map<string, Value>, ghost order: seq<string>, added: seq<string>)
      requires ed.Valid() && c.kinds == KindsOf(c.doc) && Under(c, k, col, n)
      requires added == AddedKeys(n.pairs, props, order)
      modifies ed
      ensures ed.Valid()
      ensures ed.Plain() == old(ed.Plain()) + AddEdits(c, k, col, n, props, order)
    {
      hide Under, HeadStart, BlockEnd, ValueEnd, KindsOf, AddedKeys;
      if added == [] {
        assert AddEdits(c, k, col, n, props, order) == [];
        assert ed.Plain() == old(ed.Plain()) + [];
        return;
      }
      var lines: seq<string> := [];
      for i := 0 to |added|
        invariant ed.Valid() && ed.Plain() == old(ed.Plain())
        invariant lines + RenderAdded(c, n.col, props, added[i..]) == RenderAdded(c, n.col, props, added)
      {
        var key := added[i];
        assert added[i..][0] == key && added[i..][1..] == added[i + 1..];
        ghost var rest := RenderAdded(c, n.col, props, added[i + 1..]);
        if key in props {
          Regroup(lines, c.renderPair(key, props[key], n.col), rest);
          lines := lines + c.renderPair(key, props[key], n.col);
        } else {
          assert [] + rest == rest;
        }
      }
      assert added[|added|..] == [];
      assert lines + [] == lines;
      var last := FindBlockEnd(c.doc, k, col);
      assert AddEdits(c, k, col, n, props, order) == [Edit(last + 1, last + 1, lines)];
      ed.Insert(last + 1, lines);
    }
  }

  /** One turn of the visiting loop. */
  lemma VisitsFrom(c: Ctx, n: Node, props: map<string, Value>, order: seq<string>, i: nat)
    requires n.Block? && i < |order|
    requires Has(n.pairs, order[i]) ==> n.pairs[Find(n.pairs, order[i])].line < |c.doc|
    ensures var key, j := order[i], Find(n.pairs, order[i]);
            && VisitEdits(c, n, props, order[i..])
               == (if key in props && j < |n.pairs| then KeyEdits(c, n.pairs[j], n.col, props[key]) else [])
                  + VisitEdits(c, n, props, order[i + 1..])
            && AddedKeys(n.pairs, props, order[i..])
               == (if key in props && j == |n.pairs| then [key] else []) + AddedKeys(n.pairs, props, order[i + 1..])
  {
    hide KeyEdits;
    assert order[i..][0] == order[i] && order[i..][1..] == order[i + 1..];
  }

  lemma VisitsNothing(c: Ctx, n: Node, props: map<string, Value>)
    requires n.Block?
    ensures VisitEdits(c, n, props, []) == [] && AddedKeys(n.pairs, props, []) == []
  {
  }

  // ----- the whole file

  /** The update changes the lines of the mapping into the lines of the edited
      mapping and copies every other line, unless it goes late. */
  lemma UpdateInPlace(c: Ctx, k: nat, col: nat, n: Node, props: map<string, Value>, order: seq<string>, drop: bool)
    requires Under(c, k, col, n) && VisitsNested(c) && RendersLines(c) && Visits(order, props)
    requires !GoesLate(c, n, props, order)
    ensures Applicable(SetEdits(c, k, col, n, props, order, drop), |c.doc|)
    ensures k < PastBlock(c, k, col) <= |c.doc|
    ensures Spliced(c.doc, SetEdits(c, k, col, n, props, order, drop))
         == c.doc[..k + 1] + (TextOf(OutSet(c, k, col, n, props, order, drop)) + c.doc[PastBlock(c, k, col)..])
  {
    hide Under, VisitsNested, RendersLines, GoesLate, Visits, SetEdits, OutSet, BlockEnd, Segment, NoLateInsert,
         Applicable, AllWithin, TextOf;
    var edits := SetEdits(c, k, col, n, props, order, drop);
    SetEditsApplicable(c, k, col, n, props, order, drop);
    SetEditsLate(c, k, col, n, props, order, drop);
    SpliceIsOnePass(c.doc, edits);
    PassText(c, k, col, n, props, order, drop);
  }

  /** What the one pass makes of the file, in any visiting order. */
  lemma PassText(c: Ctx, k: nat, col: nat, n: Node, props: map<string, Value>, order: seq<string>, drop: bool)
    requires Under(c, k, col, n) && VisitsNested(c) && Visits(order, props)
    ensures k < PastBlock(c, k, col) <= |c.doc|
    ensures OnePass(c.doc, SetEdits(c, k, col, n, props, order, drop))
         == c.doc[..k + 1] + (TextOf(OutSet(c, k, col, n, props, order, drop)) + c.doc[PastBlock(c, k, col)..])
  {
    hide Under, VisitsNested, Visits, SetEdits, OutSet, BlockEnd, Segment, AllWithin, TextOf;
    SetRegion(c, k, col, n, props, order, drop);
    SetEditsWithin(c, k, col, n, props, order, drop);
    PassWithin(c.doc, SetEdits(c, k, col, n, props, order, drop), k + 1, PastBlock(c, k, col));
  }

  /** The planned edits lead to the edited mapping, in every file of that many
      lines, exactly if the update does not go late. */
  lemma UpdateExact(c: Ctx, k: nat, col: nat, n: Node, props: map<string, Value>, order: seq<string>, drop: bool)
    requires Under(c, k, col, n) && VisitsNested(c) && RendersLines(c) && Visits(order, props)
    ensures !GoesLate(c, n, props, order) <==>
            forall doc: seq<string> | |doc| == |c.doc| ::
              Spliced(doc, SetEdits(c, k, col, n, props, order, drop))
                == OnePass(doc, SetEdits(c, k, col, n, props, order, drop))
  {
    hide Under, VisitsNested, RendersLines, GoesLate, Visits, SetEdits, NoLateInsert, Applicable, Spliced, OnePass;
    SetEditsApplicable(c, k, col, n, props, order, drop);
    SetEditsLate(c, k, col, n, props, order, drop);
    SpliceExact(SetEdits(c, k, col, n, props, order, drop), |c.doc|);
  }

  lemma PassWithin(doc: seq<string>, edits: seq<Edit>, a: nat, b: nat)
    requires a <= b <= |doc| && AllWithin(edits, a, b)
    ensures OnePass(doc, edits) == doc[..a] + (Segment(doc, edits, a, b) + doc[b..])
  {
    hide Segment;
    assert Inserted(edits, 0) == [] by {
      forall i | 0 <= i < |edits| ensures !(IsInsert(edits[i]) && edits[i].start == 0) {
        assert Within(edits[i], a, b);
      }
      NothingInserted(edits, 0);
    }
    SegmentSplit(doc, edits, 0, a, |doc|);
    SegmentSplit(doc, edits, a, b, |doc|);
    WithinMeansOutside(edits, a, b, 0, a);
    WithinMeansOutside(edits, a, b, b, |doc|);
    SegmentUntouched(doc, edits, 0, a);
    SegmentUntouched(doc, edits, b, |doc|);
    assert [] + OnePass(doc, edits) == OnePass(doc, edits);
  }

  /** Visiting in file order is enough, and the edited mapping then reads as
      the update promises, unless a mapping is left with no key. */
  lemma UpdateInFileOrder(c: Ctx, k: nat, col: nat, n: Node, props: map<string, Value>, order: seq<string>, drop: bool)
    requires Under(c, k, col, n) && VisitsNested(c) && RendersLines(c) && Visits(order, props)
    requires InFileOrder(c, n, props, order) && (drop ==> c.nestedReplace)
    ensures var out := OutSet(c, k, col, n, props, order, drop);
            && k < PastBlock(c, k, col) <= |c.doc|
            && Spliced(c.doc, SetEdits(c, k, col, n, props, order, drop))
               == c.doc[..k + 1] + (TextOf(out) + c.doc[PastBlock(c, k, col)..])
            && (Same(NestedValue(ItemsMap(out)), Expected(c, Decode(n), props, drop))
                <==> Faithful(c, n, props) && !(drop && props == map[]))
  {
    hide Under, VisitsNested, RendersLines, Visits, InFileOrder, GoesLate, SetEdits, OutSet, BlockEnd, NoLateInsert,
         Faithful, Expected;
    FileOrderNotLate(c, k, col, n, props, order);
    UpdateInPlace(c, k, col, n, props, order, drop);
    SetValues(c, k, col, n, props, order, drop);
  }

  /** Values the mapping already holds emit no edit. */
  lemma {:induction false} NoChangeNoEdit(c: Ctx, n: Node, props: map<string, Value>, order: seq<string>)
    requires n.Block? && DistinctKeys(n.pairs)
    requires forall key | key in order && key in props ::
               Has(n.pairs, key) && Same(Decode(n.pairs[Find(n.pairs, key)].val), props[key])
    ensures VisitEdits(c, n, props, order) == [] && AddedKeys(n.pairs, props, order) == []
    decreases |order|
  {
    if order != [] { NoChangeNoEdit(c, n, props, order[1..]); }
  }

  /** Saving an entry with the value it has leaves the file as it is. */
  lemma SaveSameNoEdit(c: Ctx, k: nat, col: nat, n: Node, props: map<string, Value>, order: seq<string>, drop: bool)
    requires Under(c, k, col, n) && Same(Decode(n), Map(props))
    ensures SetEdits(c, k, col, n, props, order, drop) == []
  {
    hide Under, HeadStart, ValueEnd, BlockEnd, KeyEdits;
    SameKeys(Decode(n), Map(props));
    forall key | key in props ensures Has(n.pairs, key) && Same(Decode(n.pairs[Find(n.pairs, key)].val), props[key]) {
      DecodeLookup(n, 0, key);
      assert Same(DecodePairs(n, 0)[key], props[key]);
    }
    NoChangeNoEdit(c, n, props, order);
    NothingDropped(c, n, props, 0);
    assert n.pairs[0..] == n.pairs;
  }

  lemma {:induction false} NothingDropped(c: Ctx, n: Node, props: map<string, Value>, from: nat)
    requires n.Block? && from <= |n.pairs| && DistinctKeys(n.pairs) && DecodePairs(n, 0).Keys == props.Keys
    ensures DropEdits(c, n.pairs[from..], n.col, props) == []
    decreases |n.pairs| - from
  {
    if from < |n.pairs| {
      assert n.pairs[from..][1..] == n.pairs[from + 1..];
      NothingDropped(c, n, props, from + 1);
      FindIs(n.pairs, from);
      DecodeLookup(n, 0, n.pairs[from].key);
    }
  }

  // ----- an order that goes wrong

  const LATE_DOC: seq<string> := ["PG:", "  opts:", "    x: 1", "  type: a"]

  const LATE_NODE := Block(2, [
    Pair("opts", 1, Block(4, [Pair("x", 2, Leaf(Scalar("!!int", "1"), true, "1", false))])),
    Pair("type", 3, Leaf(Scalar("!!str", "a"), true, "a", false))])

  const LATE_PROPS: map<string, Value> := map[
    "type" := Scalar("!!str", "b"),
    "opts" := Map(map["y" := Scalar("!!int", "2")])]

  lemma LateKinds()
    ensures KindsOf(LATE_DOC) == LATE_KINDS
  {
    hide KindOf;
    PlainLine(LATE_DOC[0], 0);
    PlainLine(LATE_DOC[1], 2);
    PlainLine(LATE_DOC[2], 4);
    PlainLine(LATE_DOC[3], 2);
  }

  /** `type` is visited first, as the canonical key order of an entry has it,
      but stands below the mapping that gets a new key. The new key is lost and
      the old `type` line stays beside the new one. */
  lemma TypeFirstGoesWrong(c: Ctx)
    requires c.doc == LATE_DOC && c.kinds == KindsOf(LATE_DOC) && !c.nestedReplace
    requires c.nestedOrder({"y"}) == ["y"]
    requires c.scalarLine("  type: a", Scalar("!!str", "b")) == Some("  type: b")
    requires c.renderPair("y", Scalar("!!int", "2"), 4) == ["    y: 2"]
    ensures SetEdits(c, 0, 0, LATE_NODE, LATE_PROPS, ["type", "opts"], false)
         == [Edit(3, 4, ["  type: b"]), Edit(3, 3, ["    y: 2"])]
    ensures Spliced(c.doc, SetEdits(c, 0, 0, LATE_NODE, LATE_PROPS, ["type", "opts"], false))
         == ["PG:", "  opts:", "    x: 1", "  type: b", "  type: a"]
    ensures GoesLate(c, LATE_NODE, LATE_PROPS, ["type", "opts"])
  {
    hide KeyEdits, ValueEnd, BlockEnd, KindsOf, Spliced, VisitEdits, AddedKeys, GoesLate;
    LateKinds();
    TypeGoesLate(c, ["type", "opts"]);
    TypeEdits(c);
    OptsEdits(c);
    LateSplice();
    LateVisits(c);
  }

  lemma LateVisits(c: Ctx)
    requires c.doc == LATE_DOC
    ensures var order: seq<string> := ["type", "opts"];
            && VisitEdits(c, LATE_NODE, LATE_PROPS, order)
               == KeyEdits(c, LATE_NODE.pairs[1], 2, LATE_PROPS["type"])
                  + KeyEdits(c, LATE_NODE.pairs[0], 2, LATE_PROPS["opts"])
            && AddedKeys(LATE_NODE.pairs, LATE_PROPS, order) == []
  {
    hide KeyEdits;
    var order: seq<string> := ["type", "opts"];
    assert order[1..] == ["opts"] && ["opts"][1..] == [];
    assert Find(LATE_NODE.pairs, "type") == 1 by { FindIs(LATE_NODE.pairs, 1); }
    assert Find(LATE_NODE.pairs, "opts") == 0;
    assert VisitEdits(c, LATE_NODE, LATE_PROPS, []) == [];
    assert VisitEdits(c, LATE_NODE, LATE_PROPS, ["opts"]) == KeyEdits(c, LATE_NODE.pairs[0], 2, LATE_PROPS["opts"]);
    assert AddedKeys(LATE_NODE.pairs, LATE_PROPS, ["opts"]) == [];
  }

  const LATE_KINDS: Kinds := [Content(0, false), Content(2, false), Content(4, false), Content(2, false)]

  lemma TypeEdits(c: Ctx)
    requires c.doc == LATE_DOC && c.kinds == LATE_KINDS
    requires c.scalarLine("  type: a", Scalar("!!str", "b")) == Some("  type: b")
    ensures KeyEdits(c, LATE_NODE.pairs[1], 2, LATE_PROPS["type"]) == [Edit(3, 4, ["  type: b"])]
  {
  }

  /** opts is a block of one line. */
  lemma OptsEnd()
    ensures BlockEnd(LATE_KINDS, 1, 2) == 2
  {
    assert ValueEndFrom(LATE_KINDS, 3, 2, 2) == 2;
    assert ValueEnd(LATE_KINDS, 1, 2) == 2;
  }

  lemma OptsDiffer()
    ensures !Same(Decode(LATE_NODE.pairs[0].val), LATE_PROPS["opts"])
    ensures LATE_PROPS["opts"].entries.Keys == {"y"}
  {
    var n, v := LATE_NODE.pairs[0].val, LATE_PROPS["opts"];
    DecodeLookup(n, 0, "y");
    assert v.entries.Keys == {"y"};
    if Same(Decode(n), v) {
      SameKeys(Decode(n), v);
    }
  }

  lemma OptsVisits(c: Ctx)
    ensures VisitEdits(c, LATE_NODE.pairs[0].val, LATE_PROPS["opts"].entries, ["y"]) == []
    ensures AddedKeys(LATE_NODE.pairs[0].val.pairs, LATE_PROPS["opts"].entries, ["y"]) == ["y"]
  {
    assert ["y"][1..] == [];
    assert VisitEdits(c, LATE_NODE.pairs[0].val, LATE_PROPS["opts"].entries, []) == [];
  }

  lemma OptsEdits(c: Ctx)
    requires c.doc == LATE_DOC && c.kinds == LATE_KINDS
    requires !c.nestedReplace && c.nestedOrder({"y"}) == ["y"]
    requires c.renderPair("y", Scalar("!!int", "2"), 4) == ["    y: 2"]
    ensures KeyEdits(c, LATE_NODE.pairs[0], 2, LATE_PROPS["opts"]) == [Edit(3, 3, ["    y: 2"])]
  {
    OptsEnd();
    OptsDiffer();
    OptsVisits(c);
    hide Same, Decode, VisitEdits, AddedKeys, BlockEnd, ValueEnd;
    assert ["y"][1..] == [];
    assert RenderAdded(c, 4, LATE_PROPS["opts"].entries, ["y"]) == ["    y: 2"];
  }

  /** `opts` gains its new key right above the line of `type`. */
  lemma TypeGoesLate(c: Ctx, order: seq<string>)
    requires c.kinds == LATE_KINDS && order == ["type", "opts"]
    ensures GoesLate(c, LATE_NODE, LATE_PROPS, order)
  {
    OptsEnd();
    OptsDiffer();
    var opts := LATE_NODE.pairs[0];
    assert Find(LATE_NODE.pairs, "type") == 1 by { FindIs(LATE_NODE.pairs, 1); }
    assert Find(LATE_NODE.pairs, "opts") == 0;
    assert !Has(opts.val.pairs, "y") && "y" in LATE_PROPS["opts"].entries;
    assert Rewrites(LATE_NODE.pairs[1], LATE_PROPS["type"]);
    hide Same, Decode, BlockEnd;
    assert GainsUnder(c, 1, 2, opts.val, LATE_PROPS["opts"].entries, 3);
    assert GainsAt(c, LATE_NODE, LATE_PROPS, "opts", 3);
    hide GainsAt;
    assert Overtakes(c, LATE_NODE, LATE_PROPS, order[0], order[1]);
  }

  lemma LateSplice()
    ensures Spliced(LATE_DOC, [Edit(3, 4, ["  type: b"]), Edit(3, 3, ["    y: 2"])])
         == ["PG:", "  opts:", "    x: 1", "  type: b", "  type: a"]
  {
    hide Spliced, Splice;
    SplicedPair(LATE_DOC, Edit(3, 4, ["  type: b"]), Edit(3, 3, ["    y: 2"]));
    LateSteps(LATE_DOC);
  }

  lemma LateSteps(doc: seq<string>)
    requires doc == LATE_DOC
    ensures Splice(Splice(doc, Edit(3, 3, ["    y: 2"])), Edit(3, 4, ["  type: b"]))
         == ["PG:", "  opts:", "    x: 1", "  type: b", "  type: a"]
  {
    var mid := ["PG:", "  opts:", "    x: 1", "    y: 2", "  type: a"];
    assert doc[3..] == ["  type: a"];
    assert Splice(doc, Edit(3, 3, ["    y: 2"])) == mid;
    assert mid[4..] == ["  type: a"];
  }
}
