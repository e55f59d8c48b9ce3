/** The plans of the env file editor can always be spliced, and exactly when
    the splice does what they say. */
module EnvSplice {
  import opened Text
  import opened Values
  import opened LineGeometry
  import opened LineSplice
  import opened EnvFile
  import opened MappingEdits
  import opened MappingText
  import opened MappingOrder
  import opened MappingValues
  import opened EnvPlan
  import Names

  // ----- the contexts of the two recursive updates

  lemma NestedOrders(h: Host, c: Ctx)
    requires Sorts(h) && c.nestedOrder == h.sortedKeys
    ensures VisitsNested(c)
  {
    forall keys: set<string>
      ensures Names.NoRepeats(c.nestedOrder(keys)) && forall k | k in keys :: k in c.nestedOrder(keys)
    {
      Names.AscendingNoRepeats(h.sortedKeys(keys));
    }
  }

  lemma EntryCtxOk(h: Host, lines: seq<string>, root: Node, replace: bool)
    requires HostOk(h)
    ensures VisitsNested(EntryCtx(h, lines, root, replace)) && RendersLines(EntryCtx(h, lines, root, replace))
  {
    var c := EntryCtx(h, lines, root, replace);
    NestedOrders(h, c);
    forall key, v, col: nat ensures c.renderPair(key, v, col) != [] {
      assert h.renderPair(Annotated, IndentUnit(root), key, v, col) != [];
    }
  }

  lemma EnvCtxOk(h: Host, lines: seq<string>, root: Node)
    requires HostOk(h)
    ensures VisitsNested(EnvCtx(h, lines, root)) && RendersLines(EnvCtx(h, lines, root))
  {
    var c := EnvCtx(h, lines, root);
    NestedOrders(h, c);
    forall key, v, col: nat ensures c.renderPair(key, v, col) != [] {
      assert h.renderPair(Plain, IndentUnit(root), key, v, col) != [];
    }
  }

  lemma SortedVisits(h: Host, updates: map<string, Value>)
    requires Sorts(h)
    ensures Visits(h.sortedKeys(updates.Keys), updates)
  {
    Names.AscendingNoRepeats(h.sortedKeys(updates.Keys));
    assert forall k | k in updates :: k in updates.Keys;
  }

  // ----- where the edits go

  /** The edits keep inside lines a..b, and none inserts before line a. */
  ghost predicate Keep(edits: seq<Edit>, n: nat, a: nat, b: nat) {
    Applicable(edits, n) && AllWithin(edits, a, b)
  }

  lemma OneKeeps(e: Edit, n: nat, a: nat, b: nat)
    requires Within(e, a, b) && b <= n
    ensures Keep([e], n, a, b)
  {
  }

  lemma TwoKeep(e: Edit, f: Edit, n: nat, a: nat, b: nat)
    requires Within(e, a, b) && Within(f, a, b) && b <= n && e.end <= f.start
    ensures Keep([e, f], n, a, b)
  {
  }

  lemma KeepLarger(edits: seq<Edit>, n: nat, a: nat, b: nat, a2: nat, b2: nat)
    requires Keep(edits, n, a, b) && a2 <= a && b <= b2
    ensures Keep(edits, n, a2, b2)
  {
  }

  lemma ChildKeeps(h: Host, lines: seq<string>, unit: nat, b: Section, key: string, val: Value)
    requires Stands(lines, b) && ChildEdits(h, lines, unit, b, key, val).Some?
    ensures Keep(ChildEdits(h, lines, unit, b, key, val).value, |lines|, b.line, End(lines, b))
  {
    hide Keep, KindsOf, BlockUnder, ValueEnd, BlockEnd, SpacedPairs;
    EndsInRange(KindsOf(lines), b.line, b.col);
    var edits := ChildEdits(h, lines, unit, b, key, val).value;
    if b.node.Block? || !EmptyValue(b.node) {
      OneKeeps(edits[0], |lines|, b.line, End(lines, b));
      assert edits == [edits[0]];
    } else {
      TwoKeep(edits[0], edits[1], |lines|, b.line, End(lines, b));
      assert edits == [edits[0], edits[1]];
    }
  }

  /** The mapping under p is updated key by key. */
  lemma BlockKeeps(c: Ctx, k: nat, col: nat, n: Node, props: map<string, Value>, order: seq<string>, drop: bool)
    requires Under(c, k, col, n) && VisitsNested(c) && Visits(order, props)
    ensures Keep(SetEdits(c, k, col, n, props, order, drop), |c.doc|, k + 1, PastBlock(c, k, col))
  {
    hide Under, VisitsNested, Visits, SetEdits;
    SetEditsApplicable(c, k, col, n, props, order, drop);
    SetEditsWithin(c, k, col, n, props, order, drop);
  }

  /** An entry of the connections block, as the update finds it. */
  lemma EntryUnder(c: Ctx, b: Section, i: nat)
    requires Stands(c.doc, b) && b.node.Block? && i < |b.node.pairs| && c.kinds == KindsOf(c.doc)
    ensures var p := b.node.pairs[i];
            && b.line < p.line < PastValue(c, p, b.node.col) <= PastBlock(c, p.line, b.node.col) <= End(c.doc, b)
               <= |c.doc|
            && (p.val.Block? ==> Under(c, p.line, b.node.col, p.val))
  {
    hide KindsOf;
    PairSpan(c, b.line, b.col, b.node, i);
  }

  lemma UpdateKeeps(
    h: Host, lines: seq<string>, root: Node, b: Section, i: nat, props: map<string, Value>, replace: bool)
    requires HostOk(h) && Stands(lines, b) && b.node.Block? && i < |b.node.pairs|
    ensures b.node.pairs[i].line < |lines|
    ensures b.line < b.node.pairs[i].line
    ensures Keep(UpdatePlan(h, lines, root, b.node.pairs[i], b.node.col, props, replace).edits, |lines|,
                 b.node.pairs[i].line, End(lines, b))
  {
    var p, col, c := b.node.pairs[i], b.node.col, EntryCtx(h, lines, root, replace);
    EntryCtxOk(h, lines, root, replace);
    EntryUnder(c, b, i);
    hide HostOk, Stands, Under, VisitsNested, KindsOf, ValueEnd, BlockEnd, SetEdits, Expected, Keep, Visits,
         EntryOrder, UrlLine;
    var edits := UpdatePlan(h, lines, root, p, col, props, replace).edits;
    if p.val.Block? {
      var order := EntryOrder(h, c, p.val, props, replace);
      UpdateVisits(h, c, p.val, props, replace);
      BlockKeeps(c, p.line, col, p.val, props, order, replace);
      KeepLarger(edits, |lines|, p.line + 1, PastBlock(c, p.line, col), p.line, End(lines, b));
    } else {
      OneKeeps(edits[0], |lines|, p.line, End(lines, b));
      assert edits == [edits[0]];
    }
  }

  /** The order of the expected keys visits the ones that are passed. */
  lemma UpdateVisits(h: Host, c: Ctx, n: Node, props: map<string, Value>, replace: bool)
    requires HostOk(h) && n.Block? && c.nestedReplace == replace
    ensures Decode(n).Map? && Visits(EntryOrder(h, c, n, props, replace), props)
  {
    var e := Expected(c, Decode(n), props, replace).entries;
    ConnOrderVisits(h, e);
    forall k | k in props ensures k in e { assert k in Map(props).entries.Keys; }
  }

  /** The edits that write a connection. */
  lemma ConnKeeps(h: Host, lines: seq<string>, root: Node, name: string, props: map<string, Value>, replace: bool)
    requires HostOk(h) && Rooted(lines, root) && ConnPlan(h, lines, root, name, props, replace).Some?
    ensures var edits := ConnPlan(h, lines, root, name, props, replace).value.edits;
            match ConnsAt(h, root)
            case None =>
              edits == [Edit(|lines|, |lines|,
                             TopLines(h, lines, root, Annotated, "connections", Map(map[name := NewEntry(props)])))]
            case Some(b) => Stands(lines, b) && Keep(edits, |lines|, b.line, End(lines, b))
  {
    hide HostOk, Keep, UpdatePlan, ChildEdits, Stands, TopLines, End, TopAt, FlowEntry;
    if ConnsAt(h, root).Some? {
      var b := ConnsAt(h, root).value;
      TopStands(h, lines, root, "connections");
      if b.node.Block? && FindFold(h.fold, b.node.pairs, name) < |b.node.pairs| {
        var i := FindFold(h.fold, b.node.pairs, name);
        UpdateKeeps(h, lines, root, b, i, props, replace);
        KeepLarger(UpdatePlan(h, lines, root, b.node.pairs[i], b.node.col, props, replace).edits,
                   |lines|, b.node.pairs[i].line, End(lines, b), b.line, End(lines, b));
      } else {
        ChildKeeps(h, lines, IndentUnit(root), b, name, NewEntry(props));
      }
    }
  }

  /** The edits that write env keys. */
  lemma EnvKeeps(h: Host, lines: seq<string>, root: Node, updates: map<string, Value>)
    requires HostOk(h) && Rooted(lines, root) && EnvEdits(h, lines, root, updates).Some?
    ensures var edits := EnvEdits(h, lines, root, updates).value;
            match EnvAt(h, root)
            case None => edits == [Edit(|lines|, |lines|, TopLines(h, lines, root, Plain, EnvName(root), Map(updates)))]
            case Some(b) => Stands(lines, b) && Keep(edits, |lines|, b.line, End(lines, b))
  {
    hide Keep, Under, VisitsNested, SetEdits, TopAt, TopLines, KindsOf, ValueEnd, BlockEnd, EnvName, MergeTop, Visits,
         Located, SpacedPairs, Applicable, AllWithin;
    if EnvAt(h, root).Some? {
      var b := EnvAt(h, root).value;
      TopStands(h, lines, root, EnvName(root));
      EndsInRange(KindsOf(lines), b.line, b.col);
      var edits := EnvEdits(h, lines, root, updates).value;
      if b.node.Block? {
        EnvBlockKeeps(h, lines, root, b, updates);
      } else if EmptyValue(b.node) {
        TwoKeep(edits[0], edits[1], |lines|, b.line, End(lines, b));
        assert edits == [edits[0], edits[1]];
      } else {
        OneKeeps(edits[0], |lines|, b.line, End(lines, b));
        assert edits == [edits[0]];
      }
    }
  }

  lemma EnvBlockKeeps(h: Host, lines: seq<string>, root: Node, b: Section, updates: map<string, Value>)
    requires HostOk(h) && Stands(lines, b) && b.node.Block?
    ensures Keep(SetEdits(EnvCtx(h, lines, root), b.line, b.col, b.node, updates, h.sortedKeys(updates.Keys), false),
                 |lines|, b.line, End(lines, b))
  {
    var c := EnvCtx(h, lines, root);
    EnvCtxOk(h, lines, root);
    SortedVisits(h, updates);
    BlockUnderCtx(c, b);
    hide HostOk, Stands, Under, VisitsNested, SetEdits, KindsOf, BlockEnd, Visits, Keep;
    BlockKeeps(c, b.line, b.col, b.node, updates, h.sortedKeys(updates.Keys), false);
    KeepLarger(SetEdits(c, b.line, b.col, b.node, updates, h.sortedKeys(updates.Keys), false),
               |lines|, b.line + 1, End(lines, b), b.line, End(lines, b));
  }

  lemma BlockUnderCtx(c: Ctx, b: Section)
    requires Stands(c.doc, b) && b.node.Block? && c.kinds == KindsOf(c.doc)
    ensures Under(c, b.line, b.col, b.node) && PastBlock(c, b.line, b.col) == End(c.doc, b)
  {
  }

  // ----- the two plans in one edit

  /** Both blocks stand in the file, apart from each other. */
  lemma BlocksApart(h: Host, lines: seq<string>, root: Node)
    requires HostOk(h) && Rooted(lines, root) && ConnsAt(h, root).Some? && EnvAt(h, root).Some?
    ensures var x, y := ConnsAt(h, root).value, EnvAt(h, root).value;
            if x.line < y.line then End(lines, x) <= y.line else End(lines, y) <= x.line
  {
    TopsApart(h, lines, root, "connections", EnvName(root));
  }

  lemma KeepApart(x: seq<Edit>, y: seq<Edit>, n: nat, a: nat, b: nat, a2: nat, b2: nat)
    requires Keep(x, n, a, b) && Keep(y, n, a2, b2) && (b <= a2 || b2 <= a)
    ensures Applicable(x + y, n)
  {
    hide Applicable;
    JoinApplicable(x, y, n);
  }

  lemma AtEndApart(x: seq<Edit>, e: Edit, n: nat)
    requires Applicable(x, n) && e.start == e.end == n
    ensures Applicable(x + [e], n) && Applicable([e] + x, n)
  {
    hide Applicable;
    assert Applicable([e], n) by { EndApplicable(e, n); }
    assert AllApart(x, [e]) && AllApart([e], x) by { EndApart(x, e, n); }
    JoinApplicable(x, [e], n);
    JoinApplicable([e], x, n);
  }

  lemma EndApplicable(e: Edit, n: nat)
    requires e.start == e.end == n
    ensures Applicable([e], n)
  {
  }

  lemma EndApart(x: seq<Edit>, e: Edit, n: nat)
    requires Applicable(x, n) && e.start == e.end == n
    ensures AllApart(x, [e]) && AllApart([e], x)
  {
  }

  /** Whatever Set plans, for the entry and for the env keys together, can be
      spliced into the file. */
  lemma SetPlanApplicable(
    h: Host, lines: seq<string>, root: Node, name: string, props: map<string, Value>, replace: bool,
    updates: map<string, Value>)
    requires HostOk(h) && Rooted(lines, root) && SetPlan(h, lines, root, name, props, replace, updates).Some?
    ensures Applicable(SetPlan(h, lines, root, name, props, replace, updates).value.edits, |lines|)
  {
    hide HostOk, Rooted, ConnPlan, EnvEdits, Keep, Stands, Applicable, TopLines, End, TopAt;
    ConnKeeps(h, lines, root, name, props, replace);
    ConnApplicable(h, lines, root, name, props, replace);
    var x := ConnPlan(h, lines, root, name, props, replace).value.edits;
    if updates != map[] {
      EnvKeeps(h, lines, root, updates);
      EnvEditsApplicable(h, lines, root, updates);
      var y := EnvEdits(h, lines, root, updates).value;
      if ConnsAt(h, root).None? {
        AtEndApart(y, x[0], |lines|);
        assert x == [x[0]];
      } else if EnvAt(h, root).None? {
        AtEndApart(x, y[0], |lines|);
        assert y == [y[0]];
      } else {
        var b, b2 := ConnsAt(h, root).value, EnvAt(h, root).value;
        BlocksApart(h, lines, root);
        KeepApart(x, y, |lines|, b.line, End(lines, b), b2.line, End(lines, b2));
      }
    }
  }

  lemma ConnApplicable(h: Host, lines: seq<string>, root: Node, name: string, props: map<string, Value>, replace: bool)
    requires HostOk(h) && Rooted(lines, root) && ConnPlan(h, lines, root, name, props, replace).Some?
    ensures Applicable(ConnPlan(h, lines, root, name, props, replace).value.edits, |lines|)
  {
    hide HostOk, Rooted, ConnPlan, Stands, TopLines, TopAt;
    ConnKeeps(h, lines, root, name, props, replace);
    if ConnsAt(h, root).None? {
      var edits := ConnPlan(h, lines, root, name, props, replace).value.edits;
      EndApplicable(edits[0], |lines|);
    }
  }

  /** And so can the plan for env keys alone. */
  lemma EnvEditsApplicable(h: Host, lines: seq<string>, root: Node, updates: map<string, Value>)
    requires HostOk(h) && Rooted(lines, root) && EnvEdits(h, lines, root, updates).Some?
    ensures Applicable(EnvEdits(h, lines, root, updates).value, |lines|)
  {
    hide HostOk, Rooted, EnvEdits, Stands, TopLines, TopAt;
    EnvKeeps(h, lines, root, updates);
    if EnvAt(h, root).None? {
      var edits := EnvEdits(h, lines, root, updates).value;
      EndApplicable(edits[0], |lines|);
    }
  }

  // ----- late inserts

  /** The entry is a block mapping whose update goes late. */
  ghost predicate EntryGoesLate(
    h: Host, lines: seq<string>, root: Node, name: string, props: map<string, Value>, replace: bool)
  {
    match ConnsAt(h, root)
    case None => false
    case Some(b) =>
      b.node.Block? &&
      var i := FindFold(h.fold, b.node.pairs, name);
      i < |b.node.pairs| && b.node.pairs[i].val.Block? &&
      var c, n := EntryCtx(h, lines, root, replace), b.node.pairs[i].val;
      GoesLate(c, n, props, EntryOrder(h, c, n, props, replace))
  }

  /** The env block is a block mapping whose update goes late. */
  ghost predicate EnvGoesLate(h: Host, lines: seq<string>, root: Node, updates: map<string, Value>) {
    match EnvAt(h, root)
    case None => false
    case Some(b) => b.node.Block? && GoesLate(EnvCtx(h, lines, root), b.node, updates, h.sortedKeys(updates.Keys))
  }

  /** The env keys put new lines in at line `at`. */
  ghost predicate EnvGains(h: Host, lines: seq<string>, root: Node, updates: map<string, Value>, at: nat) {
    match EnvAt(h, root)
    case None => at == |lines|
    case Some(b) =>
      if b.node.Block? then GainsUnder(EnvCtx(h, lines, root), b.line, b.col, b.node, updates, at)
      else EmptyValue(b.node) && at == End(lines, b)
  }

  /** The connections block is written again from its own line on, and the env
      block right above it gains keys. */
  ghost predicate BlocksGoLate(h: Host, lines: seq<string>, root: Node, updates: map<string, Value>) {
    match ConnsAt(h, root)
    case None => false
    case Some(b) => b.node.Leaf? && EnvGains(h, lines, root, updates, b.line)
  }

  ghost predicate SetGoesLate(
    h: Host, lines: seq<string>, root: Node, name: string, props: map<string, Value>, replace: bool,
    updates: map<string, Value>)
  {
    || EntryGoesLate(h, lines, root, name, props, replace)
    || (updates != map[] && (EnvGoesLate(h, lines, root, updates) || BlocksGoLate(h, lines, root, updates)))
  }

  lemma OneInserts(e: Edit, at: nat)
    ensures HasInsert([e], at) <==> e.start == e.end == at && e.lines != []
    ensures NoLateInsert([e])
  {
    assert [e][0] == e;
  }

  lemma TwoInserts(e: Edit, f: Edit, at: nat)
    requires e.start < e.end <= f.start
    ensures HasInsert([e, f], at) <==> f.start == f.end == at && f.lines != []
    ensures NoLateInsert([e, f])
  {
    assert [e, f][0] == e && [e, f][1] == f;
  }

  /** The lines at which env keys are inserted. */
  lemma EnvInserts(h: Host, lines: seq<string>, root: Node, updates: map<string, Value>, at: nat)
    requires HostOk(h) && Rooted(lines, root) && EnvEdits(h, lines, root, updates).Some? && updates != map[]
    ensures HasInsert(EnvEdits(h, lines, root, updates).value, at) <==> EnvGains(h, lines, root, updates, at)
    ensures NoLateInsert(EnvEdits(h, lines, root, updates).value) <==> !EnvGoesLate(h, lines, root, updates)
  {
    hide Under, VisitsNested, RendersLines, SetEdits, TopAt, KindsOf, ValueEnd, BlockEnd, EnvName, MergeTop, Visits,
         HasInsert, NoLateInsert, GoesLate, GainsUnder, Located, SpacedPairs;
    var edits := EnvEdits(h, lines, root, updates).value;
    if EnvAt(h, root).None? {
      assert h.renderPair(Plain, IndentUnit(root), EnvName(root), Map(updates), 0) != [];
      OneInserts(edits[0], at);
      assert edits == [edits[0]];
    } else {
      var b := EnvAt(h, root).value;
      TopStands(h, lines, root, EnvName(root));
      EndsInRange(KindsOf(lines), b.line, b.col);
      if b.node.Block? {
        var c := EnvCtx(h, lines, root);
        EnvCtxOk(h, lines, root);
        SortedVisits(h, updates);
        BlockUnderCtx(c, b);
        SetInserts(c, b.line, b.col, b.node, updates, h.sortedKeys(updates.Keys), false, at);
        SetEditsLate(c, b.line, b.col, b.node, updates, h.sortedKeys(updates.Keys), false);
      } else if EmptyValue(b.node) {
        var block := h.renderPair(Plain, IndentUnit(root), b.key, Map(updates), b.col);
        assert |block| > 1;
        TwoInserts(edits[0], edits[1], at);
        assert edits == [edits[0], edits[1]];
      } else {
        OneInserts(edits[0], at);
        assert edits == [edits[0]];
      }
    }
  }

  ghost predicate ReplacesAt(edits: seq<Edit>, at: nat) {
    exists i | 0 <= i < |edits| :: edits[i].start == at < edits[i].end
  }

  lemma ReplacesBehind(edits: seq<Edit>, n: nat, a: nat, b: nat, at: nat)
    requires Keep(edits, n, a, b) && at < a
    ensures !ReplacesAt(edits, at)
  {
  }

  /** The edits of a connection are late only within its entry; the line of the
      block is replaced when the block is no block mapping. */
  lemma ConnLate(h: Host, lines: seq<string>, root: Node, name: string, props: map<string, Value>, replace: bool)
    requires HostOk(h) && Rooted(lines, root) && ConnPlan(h, lines, root, name, props, replace).Some?
    ensures var edits := ConnPlan(h, lines, root, name, props, replace).value.edits;
            && (NoLateInsert(edits) <==> !EntryGoesLate(h, lines, root, name, props, replace))
            && (ConnsAt(h, root).Some? ==>
                  (ReplacesAt(edits, ConnsAt(h, root).value.line) <==> ConnsAt(h, root).value.node.Leaf?))
  {
    hide HostOk, Rooted, Keep, UpdatePlan, ChildEdits, Stands, TopLines, End, TopAt, FlowEntry, NoLateInsert,
         ReplacesAt, EntryOrder, GoesLate;
    var edits := ConnPlan(h, lines, root, name, props, replace).value.edits;
    if ConnsAt(h, root).None? {
      OneInserts(edits[0], 0);
      assert edits == [edits[0]];
    } else {
      var b := ConnsAt(h, root).value;
      TopStands(h, lines, root, "connections");
      if b.node.Block? && FindFold(h.fold, b.node.pairs, name) < |b.node.pairs| {
        var i := FindFold(h.fold, b.node.pairs, name);
        UpdateKeeps(h, lines, root, b, i, props, replace);
        UpdateLate(h, lines, root, b, i, props, replace);
        ReplacesBehind(edits, |lines|, b.node.pairs[i].line, End(lines, b), b.line);
      } else {
        ChildLate(h, lines, IndentUnit(root), b, name, NewEntry(props));
      }
    }
  }

  lemma UpdateLate(
    h: Host, lines: seq<string>, root: Node, b: Section, i: nat, props: map<string, Value>, replace: bool)
    requires HostOk(h) && Stands(lines, b) && b.node.Block? && i < |b.node.pairs|
    ensures b.node.pairs[i].line < |lines|
    ensures var p, c := b.node.pairs[i], EntryCtx(h, lines, root, replace);
            NoLateInsert(UpdatePlan(h, lines, root, p, b.node.col, props, replace).edits)
            <==> !(p.val.Block? && GoesLate(c, p.val, props, EntryOrder(h, c, p.val, props, replace)))
  {
    var p, col, c := b.node.pairs[i], b.node.col, EntryCtx(h, lines, root, replace);
    EntryCtxOk(h, lines, root, replace);
    EntryUnder(c, b, i);
    hide HostOk, Stands, Under, VisitsNested, RendersLines, KindsOf, ValueEnd, BlockEnd, SetEdits, Expected, Visits,
         EntryOrder, UrlLine, NoLateInsert, GoesLate;
    var edits := UpdatePlan(h, lines, root, p, col, props, replace).edits;
    if p.val.Block? {
      UpdateVisits(h, c, p.val, props, replace);
      SetEditsLate(c, p.line, col, p.val, props, EntryOrder(h, c, p.val, props, replace), replace);
    } else {
      OneInserts(edits[0], 0);
      assert edits == [edits[0]];
    }
  }

  lemma ChildLate(h: Host, lines: seq<string>, unit: nat, b: Section, key: string, val: Value)
    requires Stands(lines, b) && ChildEdits(h, lines, unit, b, key, val).Some?
    ensures var edits := ChildEdits(h, lines, unit, b, key, val).value;
            NoLateInsert(edits) && (ReplacesAt(edits, b.line) <==> b.node.Leaf?)
  {
    hide KindsOf, BlockUnder, ValueEnd, BlockEnd, SpacedPairs, NoLateInsert;
    EndsInRange(KindsOf(lines), b.line, b.col);
    var edits := ChildEdits(h, lines, unit, b, key, val).value;
    if b.node.Block? || !EmptyValue(b.node) {
      OneInserts(edits[0], 0);
      assert edits == [edits[0]];
    } else {
      TwoInserts(edits[0], edits[1], 0);
      assert edits == [edits[0], edits[1]];
    }
  }

  /** Edits of two ranges, one behind the other, meet at most at one line. */
  lemma MeetAt(x: seq<Edit>, y: seq<Edit>, n: nat, a: nat, b: nat, a2: nat, b2: nat)
    requires Keep(x, n, a, b) && Keep(y, n, a2, b2)
    ensures b <= a2 ==> NoneLate(x, y)
    ensures b2 <= a ==> (NoneLate(x, y) <==> !(ReplacesAt(x, a) && HasInsert(y, a)))
  {
    if i, j :| 0 <= i < |x| && 0 <= j < |y| && LatePair(x[i], y[j]) {
      assert Within(x[i], a, b) && Within(y[j], a2, b2);
    }
    if ReplacesAt(x, a) && HasInsert(y, a) {
      var i :| 0 <= i < |x| && x[i].start == a < x[i].end;
      var j :| 0 <= j < |y| && y[j].start == a && IsInsert(y[j]) && y[j].lines != [];
      assert LatePair(x[i], y[j]);
    }
  }

  lemma NoInsertBefore(y: seq<Edit>, n: nat, a: nat, b: nat, at: nat)
    requires Keep(y, n, a, b) && at <= a
    ensures !HasInsert(y, at)
  {
    forall i | 0 <= i < |y| ensures !(y[i].start == at && IsInsert(y[i])) {
      assert Within(y[i], a, b);
    }
  }

  lemma BothLate(
    h: Host, lines: seq<string>, root: Node, name: string, props: map<string, Value>, replace: bool,
    updates: map<string, Value>)
    requires HostOk(h) && Rooted(lines, root) && updates != map[]
    requires ConnPlan(h, lines, root, name, props, replace).Some? && EnvEdits(h, lines, root, updates).Some?
    ensures NoneLate(ConnPlan(h, lines, root, name, props, replace).value.edits,
                     EnvEdits(h, lines, root, updates).value)
       <==> !BlocksGoLate(h, lines, root, updates)
  {
    hide HostOk, Rooted, ConnPlan, EnvEdits, Keep, Stands, TopLines, TopAt, End, NoneLate, HasInsert, ReplacesAt,
         GainsUnder;
    ConnKeeps(h, lines, root, name, props, replace);
    ConnLate(h, lines, root, name, props, replace);
    EnvKeeps(h, lines, root, updates);
    var x, y := ConnPlan(h, lines, root, name, props, replace).value.edits, EnvEdits(h, lines, root, updates).value;
    if ConnsAt(h, root).None? {
      InsertNeverLate(x[0], y);
      assert x == [x[0]];
    } else {
      var b := ConnsAt(h, root).value;
      TopStands(h, lines, root, "connections");
      EnvInserts(h, lines, root, updates, b.line);
      if EnvAt(h, root).None? {
        EndNeverLate(x, y[0], |lines|, b.line, End(lines, b));
        assert y == [y[0]];
      } else {
        var b2 := EnvAt(h, root).value;
        BlocksApart(h, lines, root);
        MeetAt(x, y, |lines|, b.line, End(lines, b), b2.line, End(lines, b2));
        if b.line < b2.line { NoInsertBefore(y, |lines|, b2.line, End(lines, b2), b.line); }
      }
    }
  }

  lemma InsertNeverLate(e: Edit, y: seq<Edit>)
    requires IsInsert(e)
    ensures NoneLate([e], y)
  {
  }

  lemma EndNeverLate(x: seq<Edit>, e: Edit, n: nat, a: nat, b: nat)
    requires Keep(x, n, a, b) && b <= n && e.start == n
    ensures NoneLate(x, [e])
  {
    forall i | 0 <= i < |x| ensures !LatePair(x[i], [e][0]) {
      assert Within(x[i], a, b);
    }
  }

  /** What Set plans has a late insert exactly when the update of the entry or
      of the env keys goes late, or the two blocks meet. */
  lemma SetPlanLate(
    h: Host, lines: seq<string>, root: Node, name: string, props: map<string, Value>, replace: bool,
    updates: map<string, Value>)
    requires HostOk(h) && Rooted(lines, root) && SetPlan(h, lines, root, name, props, replace, updates).Some?
    ensures NoLateInsert(SetPlan(h, lines, root, name, props, replace, updates).value.edits)
       <==> !SetGoesLate(h, lines, root, name, props, replace, updates)
  {
    hide HostOk, Rooted, ConnPlan, EnvEdits, NoLateInsert, EntryGoesLate, EnvGoesLate, BlocksGoLate;
    ConnLate(h, lines, root, name, props, replace);
    if updates != map[] {
      EnvInserts(h, lines, root, updates, 0);
      BothLate(h, lines, root, name, props, replace, updates);
      JoinNoLateIff(ConnPlan(h, lines, root, name, props, replace).value.edits,
                    EnvEdits(h, lines, root, updates).value);
    }
  }

  /** So the plan is spliced rightly into every file of that many lines exactly
      under that condition. */
  lemma SetPlanExact(
    h: Host, lines: seq<string>, root: Node, name: string, props: map<string, Value>, replace: bool,
    updates: map<string, Value>)
    requires HostOk(h) && Rooted(lines, root) && SetPlan(h, lines, root, name, props, replace, updates).Some?
    ensures var edits := SetPlan(h, lines, root, name, props, replace, updates).value.edits;
            !SetGoesLate(h, lines, root, name, props, replace, updates) <==>
              forall doc: seq<string> | |doc| == |lines| :: Spliced(doc, edits) == OnePass(doc, edits)
  {
    hide HostOk, Rooted, SetPlan, NoLateInsert, SetGoesLate, Applicable, Spliced, OnePass;
    SetPlanApplicable(h, lines, root, name, props, replace, updates);
    SetPlanLate(h, lines, root, name, props, replace, updates);
    SpliceExact(SetPlan(h, lines, root, name, props, replace, updates).value.edits, |lines|);
  }
}
