/** What one save that writes a connection and env keys together makes of the
    file. */
module EnvText {
  import opened Text
  import opened Sequences
  import opened Values
  import opened LineGeometry
  import opened LineSplice
  import opened MappingEdits
  import opened MappingText
  import opened MappingOrder
  import opened MappingUpdate
  import opened EnvPlan
  import opened EnvSplice

  // ----- two blocks of the file

  /** Lines a..b and a2..b2 as the edits of each make them, the rest copied. */
  function Regions(doc: seq<string>, x: seq<Edit>, a: nat, b: nat, y: seq<Edit>, a2: nat, b2: nat): seq<string>
    requires a <= b <= a2 <= b2 <= |doc|
  {
    doc[..a] + (Segment(doc, x, a, b) + (doc[b..a2] + (Segment(doc, y, a2, b2) + doc[b2..])))
  }

  ghost predicate SameIn(doc: seq<string>, all: seq<Edit>, x: seq<Edit>, a: nat, b: nat) {
    a <= b <= |doc| && Segment(doc, all, a, b) == Segment(doc, x, a, b)
  }

  lemma TwoRegions(doc: seq<string>, all: seq<Edit>, x: seq<Edit>, a: nat, b: nat, y: seq<Edit>, a2: nat, b2: nat)
    requires a <= b <= a2 <= b2 <= |doc|
    requires forall i | 0 <= i < |all| :: Within(all[i], a, b) || Within(all[i], a2, b2)
    requires SameIn(doc, all, x, a, b) && SameIn(doc, all, y, a2, b2)
    ensures OnePass(doc, all) == Regions(doc, x, a, b, y, a2, b2)
  {
    hide Segment;
    NothingInserted(all, 0);
    assert AllOutside(all, 0, a) && AllOutside(all, b, a2) && AllOutside(all, b2, |doc|);
    SegmentUntouched(doc, all, 0, a);
    SegmentUntouched(doc, all, b, a2);
    SegmentUntouched(doc, all, b2, |doc|);
    SegmentSplit(doc, all, 0, a, |doc|);
    SegmentSplit(doc, all, a, b, |doc|);
    SegmentSplit(doc, all, b, a2, |doc|);
    SegmentSplit(doc, all, a2, b2, |doc|);
    assert [] + Segment(doc, all, 0, |doc|) == Segment(doc, all, 0, |doc|);
  }

  lemma JoinWithin(x: seq<Edit>, y: seq<Edit>, n: nat, a: nat, b: nat, a2: nat, b2: nat)
    requires Keep(x, n, a, b) && Keep(y, n, a2, b2)
    ensures forall i | 0 <= i < |x + y| :: Within((x + y)[i], a, b) || Within((x + y)[i], a2, b2)
  {
    hide Within;
    forall i | 0 <= i < |x + y| ensures Within((x + y)[i], a, b) || Within((x + y)[i], a2, b2) {
      if i < |x| { assert (x + y)[i] == x[i]; } else { assert (x + y)[i] == y[i - |x|]; }
    }
  }

  lemma FirstRegion(doc: seq<string>, x: seq<Edit>, y: seq<Edit>, a: nat, b: nat, a2: nat, b2: nat)
    requires Keep(x, |doc|, a, b) && Keep(y, |doc|, a2, b2) && a <= b <= |doc| && a2 <= b2 <= |doc|
             && (b <= a2 || b2 <= a)
    ensures SameIn(doc, x + y, x, a, b) && SameIn(doc, x + y, y, a2, b2)
  {
    hide Segment, Applicable, AllWithin, AllOutside;
    WithinMeansOutside(x, a, b, a2, b2);
    WithinMeansOutside(y, a2, b2, a, b);
    assert AllOutside([], a, b) && AllOutside([], a2, b2) by { NothingOutside(a, b); NothingOutside(a2, b2); }
    SegmentIgnores(doc, [], x, y, a, b);
    SegmentIgnores(doc, x, y, [], a2, b2);
    assert [] + x + y == x + y && x + y + [] == x + y;
  }

  lemma NothingOutside(a: nat, b: nat)
    ensures AllOutside([], a, b)
  {
  }

  /** With both blocks in the file, each becomes what its own edits make of it,
      and every other line is copied. */
  lemma SetText(
    h: Host, lines: seq<string>, root: Node, name: string, props: map<string, Value>, replace: bool,
    updates: map<string, Value>)
    requires HostOk(h) && Rooted(lines, root) && updates != map[]
    requires ConnsAt(h, root).Some? && EnvAt(h, root).Some?
    requires SetPlan(h, lines, root, name, props, replace, updates).Some?
    requires !SetGoesLate(h, lines, root, name, props, replace, updates)
    ensures var x, y :=
        ConnPlan(h, lines, root, name, props, replace).value.edits, EnvEdits(h, lines, root, updates).value;
            var b, b2 := ConnsAt(h, root).value, EnvAt(h, root).value;
            var out := Spliced(lines, SetPlan(h, lines, root, name, props, replace, updates).value.edits);
            && b.line < End(lines, b) <= |lines| && b2.line < End(lines, b2) <= |lines|
            && (if b.line < b2.line then
                  End(lines, b) <= b2.line
                    && out == Regions(lines, x, b.line, End(lines, b), y, b2.line, End(lines, b2))
                else
                  End(lines, b2) <= b.line
                    && out == Regions(lines, y, b2.line, End(lines, b2), x, b.line, End(lines, b)))
  {
    hide HostOk, Rooted, ConnPlan, EnvEdits, Keep, Stands, TopAt, End, SetGoesLate, NoLateInsert, Applicable, Spliced,
         Regions, SameIn, Within, OnePass;
    var x, y := ConnPlan(h, lines, root, name, props, replace).value.edits, EnvEdits(h, lines, root, updates).value;
    var b, b2 := ConnsAt(h, root).value, EnvAt(h, root).value;
    ConnKeeps(h, lines, root, name, props, replace);
    EnvKeeps(h, lines, root, updates);
    TopStands(h, lines, root, "connections");
    TopStands(h, lines, root, EnvName(root));
    BlocksApart(h, lines, root);
    SetPlanApplicable(h, lines, root, name, props, replace, updates);
    SetPlanLate(h, lines, root, name, props, replace, updates);
    SpliceIsOnePass(lines, x + y);
    JoinWithin(x, y, |lines|, b.line, End(lines, b), b2.line, End(lines, b2));
    FirstRegion(lines, x, y, b.line, End(lines, b), b2.line, End(lines, b2));
    if b.line < b2.line {
      TwoRegions(lines, x + y, x, b.line, End(lines, b), y, b2.line, End(lines, b2));
    } else {
      TwoRegions(lines, x + y, y, b2.line, End(lines, b2), x, b.line, End(lines, b));
    }
  }

  // ----- a new block below an env block

  /** Every inserted text starts with an indented line. */
  ghost predicate InsertsIndented(edits: seq<Edit>) {
    forall i | 0 <= i < |edits| && IsInsert(edits[i]) && edits[i].lines != [] :: Indented(KindOf(edits[i].lines[0]), 0)
  }

  lemma IndentedJoin(x: seq<Edit>, y: seq<Edit>)
    requires InsertsIndented(x) && InsertsIndented(y)
    ensures InsertsIndented(x + y)
  {
    hide Indented, KindOf, IsInsert;
    var all, m := x + y, |x|;
    forall i | 0 <= i < |all| ensures all[i] == if i < m then x[i] else y[i - m] {
    }
  }

  lemma NoneIndented(edits: seq<Edit>)
    requires forall i | 0 <= i < |edits| :: IsInsert(edits[i]) ==> edits[i].lines == []
    ensures InsertsIndented(edits)
  {
  }

  ghost predicate RendersKeys(c: Ctx) {
    forall key, v, col: nat :: c.renderPair(key, v, col) != [] && KeyLine(KindOf(c.renderPair(key, v, col)[0]), col)
  }

  lemma {:induction false} KeyIndented(c: Ctx, k: nat, col: nat, n: Node, i: nat, v: Value)
    requires Under(c, k, col, n) && i < |n.pairs| && RendersKeys(c)
    ensures n.pairs[i].line < |c.doc| && InsertsIndented(KeyEdits(c, n.pairs[i], n.col, v))
    decreases n, 0, 0
  {
    PairSpan(c, k, col, n, i);
    var p := n.pairs[i];
    hide Under, RendersKeys, InsertsIndented, Same, Decode, SetEdits, HeadStart, BlockEnd, ValueEnd, EditScalar,
         Rewritten, KindOf;
    if Rewrites(p, v) {
      RewriteEdit(c, p, n.col, v);
      NoneIndented(KeyEdits(c, p, n.col, v));
    } else if Descends(p, v) {
      SetIndented(c, p.line, n.col, p.val, v.entries, c.nestedOrder(v.entries.Keys), c.nestedReplace);
    } else {
      NoneIndented([]);
    }
  }

  lemma {:induction false} VisitsIndented(
    c: Ctx, k: nat, col: nat, n: Node, props: map<string, Value>, order: seq<string>)
    requires Under(c, k, col, n) && RendersKeys(c)
    ensures InsertsIndented(VisitEdits(c, n, props, order))
    decreases n, 1, |order|
  {
    hide Under, RendersKeys, InsertsIndented, KeyEdits;
    if order == [] {
      NoneIndented([]);
    } else {
      VisitsIndented(c, k, col, n, props, order[1..]);
      var j, rest := Find(n.pairs, order[0]), VisitEdits(c, n, props, order[1..]);
      if order[0] in props && j < |n.pairs| {
        KeyIndented(c, k, col, n, j, props[order[0]]);
        IndentedJoin(KeyEdits(c, n.pairs[j], n.col, props[order[0]]), rest);
      } else {
        assert [] + rest == rest;
      }
    }
  }

  lemma {:induction false} AddedIndented(c: Ctx, col: nat, props: map<string, Value>, keys: seq<string>)
    requires RendersKeys(c) && col > 0
    ensures RenderAdded(c, col, props, keys) != [] ==> Indented(KindOf(RenderAdded(c, col, props, keys)[0]), 0)
  {
    hide KindOf;
    if keys != [] {
      AddedIndented(c, col, props, keys[1..]);
      if keys[0] in props { assert c.renderPair(keys[0], props[keys[0]], col) != []; }
    }
  }

  lemma {:induction false} SetIndented(
    c: Ctx, k: nat, col: nat, n: Node, props: map<string, Value>, order: seq<string>, drop: bool)
    requires Under(c, k, col, n) && RendersKeys(c)
    ensures InsertsIndented(SetEdits(c, k, col, n, props, order, drop))
    decreases n, 2, 0
  {
    assert n.col > 0;
    VisitsIndented(c, k, col, n, props, order);
    var added := AddedKeys(n.pairs, props, order);
    AddedIndented(c, n.col, props, added);
    DropsInsertNothing(c, n.pairs, n.col, props);
    hide Under, RendersKeys, VisitEdits, DropEdits, AddedKeys, RenderAdded, PastBlock, KindOf, Indented;
    var visits, adds := VisitEdits(c, n, props, order), AddEdits(c, k, col, n, props, order);
    var drops := if drop then DropEdits(c, n.pairs, n.col, props) else [];
    NoneIndented(drops);
    IndentedJoin(visits, drops);
    if added == [] { NoneIndented(adds); }
    IndentedJoin(visits + drops, adds);
  }

  lemma EnvRendersKeys(h: Host, lines: seq<string>, root: Node)
    requires HostOk(h)
    ensures RendersKeys(EnvCtx(h, lines, root))
  {
    hide KindOf;
    var c := EnvCtx(h, lines, root);
    forall key, v, col: nat
      ensures c.renderPair(key, v, col) != [] && KeyLine(KindOf(c.renderPair(key, v, col)[0]), col)
    {
      assert h.renderPair(Plain, IndentUnit(root), key, v, col) != [];
    }
  }

  lemma EnvIndented(h: Host, lines: seq<string>, root: Node, updates: map<string, Value>)
    requires HostOk(h) && Rooted(lines, root) && EnvAt(h, root).Some? && EnvEdits(h, lines, root, updates).Some?
             && updates != map[]
    ensures InsertsIndented(EnvEdits(h, lines, root, updates).value)
  {
    hide Under, SetEdits, TopAt, KindsOf, KindOf, ValueEnd, BlockEnd, EnvName, MergeTop, Located, SpacedPairs,
         InsertsIndented;
    var edits, b := EnvEdits(h, lines, root, updates).value, EnvAt(h, root).value;
    TopStands(h, lines, root, EnvName(root));
    EndsInRange(KindsOf(lines), b.line, b.col);
    if b.node.Block? {
      var c := EnvCtx(h, lines, root);
      EnvRendersKeys(h, lines, root);
      BlockUnderCtx(c, b);
      SetIndented(c, b.line, b.col, b.node, updates, h.sortedKeys(updates.Keys), false);
    } else if EmptyValue(b.node) {
      var block := h.renderPair(Plain, IndentUnit(root), b.key, Map(updates), b.col);
      assert |block| > 1 && Indented(KindOf(block[1]), b.col);
      IndentedPair(edits[0], edits[1]);
      assert edits == [edits[0], edits[1]];
    } else {
      NoneIndented(edits);
    }
  }

  lemma IndentedPair(e: Edit, f: Edit)
    requires !IsInsert(e) && f.lines != [] && Indented(KindOf(f.lines[0]), 0)
    ensures InsertsIndented([e, f])
  {
  }

  lemma {:induction false} InsertedFirst(edits: seq<Edit>, p: nat)
    requires InsertsIndented(edits)
    ensures HasInsert(edits, p) <==> Inserted(edits, p) != []
    ensures Inserted(edits, p) != [] ==> Indented(KindOf(Inserted(edits, p)[0]), 0)
  {
    hide KindOf;
    if edits != [] {
      var e, rest := edits[0], edits[1..];
      assert InsertsIndented(rest);
      InsertedFirst(rest, p);
      assert edits == [e] + rest;
      HasInsertJoin([e], rest, p);
      OneInserts(e, p);
    }
  }

  lemma TopLinesStart(h: Host, lines: seq<string>, root: Node, style: Style, key: string, val: Value)
    requires HostOk(h)
    ensures var top := TopLines(h, lines, root, style, key, val); top != [] && !Indented(KindOf(top[0]), 0)
  {
    hide SpacedPairs, KindsOf;
    assert KindOf("") == Blank;
    hide KindOf;
    assert h.renderPair(style, IndentUnit(root), key, val, 0) != [];
  }

  /** The pass over a text, up to what is inserted at its end. */
  function BeforeEnd(doc: seq<string>, y: seq<Edit>): seq<string>
    requires doc != []
  {
    Inserted(y, 0) + (Segment(doc, y, 0, |doc| - 1) + Emit(doc, y, |doc| - 1))
  }

  lemma PassToEnd(doc: seq<string>, y: seq<Edit>)
    requires doc != []
    ensures OnePass(doc, y) == BeforeEnd(doc, y) + Inserted(y, |doc|)
  {
    var m := |doc| - 1;
    SegmentSplit(doc, y, 0, m, |doc|);
    SegmentOne(doc, y, m);
    hide Segment, Inserted, Emit;
    Regroup(Segment(doc, y, 0, m), Emit(doc, y, m), Inserted(y, |doc|));
    Regroup(Inserted(y, 0), Segment(doc, y, 0, m) + Emit(doc, y, m), Inserted(y, |doc|));
  }

  /** An insert at the end leaves what is before the end. */
  lemma SameBeforeEnd(doc: seq<string>, e: Edit, y: seq<Edit>)
    requires doc != [] && e.start == e.end == |doc|
    ensures BeforeEnd(doc, [e] + y) == BeforeEnd(doc, y)
    ensures Inserted([e] + y, |doc|) == e.lines + Inserted(y, |doc|)
  {
    var n, all := |doc|, [e] + y;
    assert all[0] == e && all[1..] == y;
    assert AllOutside([e], 0, n - 1) && AllOutside([], 0, n - 1);
    assert [e] + y + [] == all;
    SegmentIgnores(doc, [e], y, [], 0, n - 1);
    hide Segment;
    assert Inserted(all, 0) == [] + Inserted(y, 0) == Inserted(y, 0);
    assert Replacing(all, n - 1) == [] + Replacing(y, n - 1) == Replacing(y, n - 1);
    assert Covered(all, n - 1) == Covered(y, n - 1);
    assert Emit(doc, all, n - 1) == Emit(doc, y, n - 1);
  }

  lemma EndOrder(doc: seq<string>, e: Edit, y: seq<Edit>)
    requires doc != [] && e.start == e.end == |doc| && InsertsIndented(y)
    requires e.lines != [] && !Indented(KindOf(e.lines[0]), 0)
    ensures OnePass(doc, [e] + y) == OnePass(doc, y) + e.lines <==> !HasInsert(y, |doc|)
  {
    InsertedFirst(y, |doc|);
    hide BeforeEnd, OnePass, Inserted, KindOf, HasInsert, InsertsIndented;
    PassToEnd(doc, y);
    PassToEnd(doc, [e] + y);
    SameBeforeEnd(doc, e, y);
    var head, top, late := BeforeEnd(doc, y), e.lines, Inserted(y, |doc|);
    Regroup(head, late, top);
    SameHead(head, top + late, late + top);
    if late == [] {
      assert top + late == top == late + top;
    } else {
      assert (top + late)[0] == top[0] && (late + top)[0] == late[0];
    }
  }

  lemma SameHead(head: seq<string>, x: seq<string>, y: seq<string>)
    ensures head + x == head + y <==> x == y
  {
    if head + x == head + y {
      assert (head + x)[|head|..] == x && (head + y)[|head|..] == y;
    }
  }

  /** A first connection is saved together with env keys. The new connections
      block comes below the file as the env keys leave it exactly if the env
      block gains no key at the end of the file; else its keys slip into the
      new block. */
  lemma NewBlockText(
    h: Host, lines: seq<string>, root: Node, name: string, props: map<string, Value>, replace: bool,
    updates: map<string, Value>)
    requires HostOk(h) && Rooted(lines, root) && updates != map[]
    requires ConnsAt(h, root).None? && EnvAt(h, root).Some? && !EnvGoesLate(h, lines, root, updates)
    requires EnvEdits(h, lines, root, updates).Some?
    ensures var top := TopLines(h, lines, root, Annotated, "connections", Map(map[name := NewEntry(props)]));
            && SetPlan(h, lines, root, name, props, replace, updates).Some?
            && (Spliced(lines, SetPlan(h, lines, root, name, props, replace, updates).value.edits)
                == Spliced(lines, EnvEdits(h, lines, root, updates).value) + top
                <==> !EnvGains(h, lines, root, updates, |lines|))
  {
    var top := TopLines(h, lines, root, Annotated, "connections", Map(map[name := NewEntry(props)]));
    var y, e := EnvEdits(h, lines, root, updates).value, Edit(|lines|, |lines|, top);
    hide HostOk, Rooted, EnvEdits, TopLines, TopAt, EnvGains, EnvGoesLate, NoLateInsert, Applicable, Spliced, OnePass,
         InsertsIndented, KindOf, HasInsert, EntryGoesLate, SetPlan;
    NewBlockPass(h, lines, root, name, props, replace, updates, e, y);
    TopStands(h, lines, root, EnvName(root));
    EnvInserts(h, lines, root, updates, |lines|);
    EnvIndented(h, lines, root, updates);
    TopLinesStart(h, lines, root, Annotated, "connections", Map(map[name := NewEntry(props)]));
    EndOrder(lines, e, y);
  }

  lemma NewBlockPass(
    h: Host, lines: seq<string>, root: Node, name: string, props: map<string, Value>, replace: bool,
    updates: map<string, Value>, e: Edit, y: seq<Edit>)
    requires HostOk(h) && Rooted(lines, root) && updates != map[]
    requires ConnsAt(h, root).None? && !EnvGoesLate(h, lines, root, updates)
    requires EnvEdits(h, lines, root, updates) == Some(y)
    requires ConnPlan(h, lines, root, name, props, replace).Some?
             && ConnPlan(h, lines, root, name, props, replace).value.edits == [e]
    ensures SetPlan(h, lines, root, name, props, replace, updates).Some?
    ensures Spliced(lines, SetPlan(h, lines, root, name, props, replace, updates).value.edits)
            == OnePass(lines, [e] + y)
    ensures Spliced(lines, y) == OnePass(lines, y)
  {
    hide HostOk, Rooted, ConnPlan, EnvEdits, TopAt, EnvGains, EnvGoesLate, NoLateInsert, Applicable, Spliced, OnePass;
    SetPlanApplicable(h, lines, root, name, props, replace, updates);
    SetPlanLate(h, lines, root, name, props, replace, updates);
    EnvEditsApplicable(h, lines, root, updates);
    EnvInserts(h, lines, root, updates, 0);
    SpliceIsOnePass(lines, [e] + y);
    SpliceIsOnePass(lines, y);
  }
}
