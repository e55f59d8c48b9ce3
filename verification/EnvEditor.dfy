/** The env file editor: every operation plans line edits, splices them, parses
    the result again, and keeps it only when a comparison of the decoded file
    before and after passes. */
module EnvEditor {
  import opened Text
  import opened Sequences
  import opened Values
  import opened LineGeometry
  import opened LineSplice
  import opened EnvFile
  import opened MappingEdits
  import opened MappingValues
  import opened MappingUpdate
  import opened EnvPlan
  import opened EnvSplice

  // ----- deleting an entry

  /** The lines a deletion takes: head comments, value, and one blank line when
      the entry stood between two, or at the end of the file. */
  function DeletedLines(ks: Kinds, k: nat, col: nat): (r: (nat, nat))
    requires k < |ks|
  {
    var start, end := HeadStart(ks, k, col), ValueEnd(ks, k, col) + 1;
    if start > 0 && ks[start - 1].Blank? then
      if end < |ks| && ks[end].Blank? then (start, end + 1)
      else if end == |ks| then (start - 1, end)
      else (start, end)
    else (start, end)
  }

  function DeleteEdits(h: Host, lines: seq<string>, b: Section, i: nat): seq<Edit>
    requires b.node.Block? && i < |b.node.pairs| && b.node.pairs[i].line < |lines| && b.line < |lines|
  {
    var (start, end) := DeletedLines(KindsOf(lines), b.node.pairs[i].line, b.node.col);
    [Edit(start, end, [])]
    + if |b.node.pairs| == 1 then [Edit(b.line, b.line + 1, [h.emptied(lines[b.line])])] else []
  }

  lemma DeletePlace(ks: Kinds, b: Section, i: nat)
    requires BlockUnder(ks, b.line, b.col, b.node) && i < |b.node.pairs|
    ensures var k, col := b.node.pairs[i].line, b.node.col;
            && b.line < k < |ks|
            && b.line < HeadStart(ks, k, col) <= k <= ValueEnd(ks, k, col) < |ks|
            && var (start, end) := DeletedLines(ks, k, col);
               b.line < start <= HeadStart(ks, k, col) && ValueEnd(ks, k, col) < end <= |ks|
  {
    EntryPlace(ks, b, i);
  }

  /** A deletion never reaches into the lines of another entry. */
  lemma DeleteSparesOthers(ks: Kinds, b: Section, i: nat, j: nat)
    requires BlockUnder(ks, b.line, b.col, b.node) && i < |b.node.pairs| && j < |b.node.pairs| && i != j
    ensures b.node.pairs[i].line < |ks| && b.node.pairs[j].line < |ks|
    ensures var col, k, k2 := b.node.col, b.node.pairs[i].line, b.node.pairs[j].line;
            var (start, end) := DeletedLines(ks, k, col);
            ValueEnd(ks, k2, col) < start || end <= HeadStart(ks, k2, col)
  {
    var col, k, k2 := b.node.col, b.node.pairs[i].line, b.node.pairs[j].line;
    DeletePlace(ks, b, i);
    DeletePlace(ks, b, j);
    if j < i {
      SiblingsApart(ks, k2, k, col);
      ValueEndIs(ks, k2, col);
    } else {
      SiblingsApart(ks, k, k2, col);
      var h := HeadStart(ks, k2, col);
      assert !ks[h].Blank?;
    }
  }

  /** A deletion leaves the file without the lines of the entry; when it was
      the only one, its parent keeps an empty mapping. */
  lemma DeleteText(h: Host, lines: seq<string>, b: Section, i: nat)
    requires Stands(lines, b) && b.node.Block? && i < |b.node.pairs|
    ensures b.node.pairs[i].line < |lines| && b.line < |lines|
    ensures Applicable(DeleteEdits(h, lines, b, i), |lines|)
    ensures var (start, end) := DeletedLines(KindsOf(lines), b.node.pairs[i].line, b.node.col);
            && b.line < start < end <= |lines|
            && Spliced(lines, DeleteEdits(h, lines, b, i))
               == (if |b.node.pairs| == 1
                   then lines[..b.line] + [h.emptied(lines[b.line])] + (lines[b.line + 1..start] + lines[end..])
                   else lines[..start] + lines[end..])
  {
    hide BlockUnder, KindsOf, Spliced, Splice;
    DeletePlace(KindsOf(lines), b, i);
    var (start, end) := DeletedLines(KindsOf(lines), b.node.pairs[i].line, b.node.col);
    hide DeletedLines, HeadStart, ValueEnd;
    var cut := Edit(start, end, []);
    if |b.node.pairs| == 1 {
      var key := Edit(b.line, b.line + 1, [h.emptied(lines[b.line])]);
      assert DeleteEdits(h, lines, b, i) == [cut, key];
      SpliceTwo(lines, cut, key);
      assert lines[b.line + 1..start] + [] == lines[b.line + 1..start];
    } else {
      assert DeleteEdits(h, lines, b, i) == [cut];
      SpliceOne(lines, cut);
      assert lines[..start] + [] == lines[..start];
    }
  }

  lemma SpliceOne(lines: seq<string>, e: Edit)
    requires e.start <= e.end <= |lines|
    ensures Spliced(lines, [e]) == lines[..e.start] + e.lines + lines[e.end..]
  {
    var x := LineEdit(e, 0);
    assert Numbered([e]) == [x] && [x][..0] == [] && [x][1..] == [];
    assert SortBottomUp([x]) == [x];
    var out := Splice(lines, e);
    assert Run(out, []) == out;
    assert Run(lines, [x]) == out;
  }

  /** Two edits, the one further down first. */
  lemma SpliceTwo(lines: seq<string>, e: Edit, f: Edit)
    requires f.start < f.end <= e.start < e.end <= |lines|
    ensures Spliced(lines, [e, f]) == lines[..f.start] + f.lines + (lines[f.end..e.start] + e.lines + lines[e.end..])
  {
    hide Spliced, Splice;
    SplicedPair(lines, e, f);
    SpliceLower(lines, e, f);
  }

  lemma SpliceLower(lines: seq<string>, e: Edit, f: Edit)
    requires f.start < f.end <= e.start < e.end <= |lines|
    ensures Splice(Splice(lines, e), f)
            == lines[..f.start] + f.lines + (lines[f.end..e.start] + e.lines + lines[e.end..])
  {
    var mid := Splice(lines, e);
    assert mid[..f.start] == lines[..f.start];
    assert mid[f.end..] == lines[f.end..e.start] + e.lines + lines[e.end..];
  }

  /** A rename writes one line again. */
  lemma RenameText(h: Host, lines: seq<string>, b: Section, i: nat, name: string)
    requires Stands(lines, b) && b.node.Block? && i < |b.node.pairs|
    ensures b.node.pairs[i].line < |lines|
    ensures var k := b.node.pairs[i].line;
            var edits := [Edit(k, k + 1, [h.renamed(lines[k], name)])];
            && Applicable(edits, |lines|)
            && Spliced(lines, edits) == lines[k := h.renamed(lines[k], name)]
  {
    hide BlockUnder, KindsOf, Spliced;
    DeletePlace(KindsOf(lines), b, i);
    var k := b.node.pairs[i].line;
    SpliceOne(lines, Edit(k, k + 1, [h.renamed(lines[k], name)]));
  }

  // ----- the editor

  datatype EditOptions = EditOptions(replace: bool, allowOverwrite: bool, envUpdates: map<string, Value>,
                                     allowEnvOverwrite: bool)

  class EnvFileEditor {
    const h: Host
    var lines: seq<string>
    var endNL: bool
    var root: Node

    /** The tree the editor holds is always the parse of its lines. */
    ghost predicate Valid() reads this {
      h.parse(lines) == Some(root) && HostOk(h)
    }

    constructor (h: Host, lines: seq<string>, endNL: bool)
      requires h.parse(lines).Some? && HostOk(h)
      ensures Valid() && this.h == h && this.lines == lines && this.endNL == endNL
    {
      this.h, this.lines, this.endNL := h, lines, endNL;
      this.root := h.parse(lines).value;
    }

    lemma RootedHere()
      requires Valid()
      ensures Rooted(lines, root)
    {
    }

    /** Splices ed, parses, checks, and only then takes over the result. */
    method Apply(ed: LineEdits, check: (File, File) -> bool) returns (ok: bool)
      requires Valid() && ed.Valid() && Applicable(ed.Plain(), |lines|)
      modifies this`lines, this`root, this`endNL
      ensures Valid()
      ensures ok <==> h.parse(Spliced(old(lines), ed.Plain())).Some?
                      && check(FileOf(old(root)), FileOf(h.parse(Spliced(old(lines), ed.Plain())).value))
      ensures ok ==> lines == Spliced(old(lines), ed.Plain()) && endNL == (old(lines) == [] || old(endNL))
      ensures !ok ==> lines == old(lines) && root == old(root) && endNL == old(endNL)
    {
      hide HostOk, Applicable, NoLateInsert, OnePass, Spliced, LineEdits.Plain, LineEdits.Valid, FileOf;
      var out := ed.Apply(lines);
      var parsed := h.parse(out);
      if parsed.None? || !check(FileOf(root), FileOf(parsed.value)) {
        return false;
      }
      if lines == [] {
        endNL := true;
      }
      lines, root := out, parsed.value;
      return true;
    }

    // ----- planning

    method FindSpaced(n: Node) returns (spaced: bool)
      requires n.Block? ==> forall i | 0 <= i < |n.pairs| :: n.pairs[i].line < |lines|
      ensures spaced == SpacedPairs(KindsOf(lines), n)
    {
      hide KindsOf, HeadStart, KindOf;
      if !n.Block? {
        return false;
      }
      var i := 1;
      while i < |n.pairs|
        invariant 1 <= i
        invariant forall j | 1 <= j < i && j < |n.pairs| :: !SpacedAbove(KindsOf(lines), n.pairs[j], n.col)
      {
        var first := FindHeadStart(lines, n.pairs[i].line, n.col);
        if first > 0 {
          BlankIs(lines, first - 1);
          if IsBlank(lines[first - 1]) {
            assert SpacedAbove(KindsOf(lines), n.pairs[i], n.col);
            return true;
          }
        }
        i := i + 1;
      }
      return false;
    }

    /** A new block at the end of the file. */
    method AddTopBlock(ed: LineEdits, style: Style, key: string, val: Value)
      requires Valid() && ed.Valid()
      modifies ed
      ensures ed.Valid() && ed.Plain() == old(ed.Plain()) + TopEdits(h, lines, root, style, key, val)
    {
      hide HostOk, Rooted, SpacedPairs, KindsOf, LineEdits.Valid, LineEdits.Plain, IndentUnit, IsBlank, FirstStep;
      RootedHere();
      PairsInFile(lines, root);
      var block := h.renderPair(style, IndentUnit(root), key, val, 0);
      var last := |lines|;
      while last > 0 && IsBlank(lines[last - 1])
        invariant 0 <= last <= |lines|
        invariant forall i | last <= i < |lines| :: IsBlank(lines[i])
      {
        last := last - 1;
      }
      if last > 0 && last == |lines| {
        var spaced := FindSpaced(root);
        if spaced {
          block := [""] + block;
        }
      }
      ed.Insert(|lines|, block);
    }

    /** key: val as the last child of the block b. */
    method AddChild(ed: LineEdits, b: Section, key: string, val: Value) returns (ok: bool)
      requires Valid() && ed.Valid() && Stands(lines, b)
      modifies ed
      ensures ed.Valid() && b.line < |lines|
      ensures var plan := ChildEdits(h, lines, IndentUnit(root), b, key, val);
              && ok == plan.Some?
              && ed.Plain() == if ok then old(ed.Plain()) + plan.value else old(ed.Plain())
    {
      hide HostOk, BlockUnder, SpacedPairs, KindsOf, BlockEnd, ValueEnd, IsBlockEnd, IsValueEnd, LineEdits.Valid,
           LineEdits.Plain, IndentUnit;
      var unit := IndentUnit(root);
      if b.node.Block? {
        ChildrenInFile(lines, b);
        var block := h.renderPair(Annotated, unit, key, val, b.node.col);
        var spaced := FindSpaced(b.node);
        if spaced {
          block := [""] + block;
        }
        var last := FindBlockEnd(lines, b.line, b.col);
        ed.Insert(last + 1, block);
      } else if EmptyValue(b.node) {
        Regroup(ed.Plain(), [Edit(b.line, b.line + 1, [h.cleared(lines[b.line])])],
                     [Edit(End(lines, b), End(lines, b), h.renderPair(Annotated, unit, key, val, b.col + unit))]);
        ed.Replace(b.line, b.line + 1, [h.cleared(lines[b.line])]);
        var last := FindBlockEnd(lines, b.line, b.col);
        ed.Insert(last + 1, h.renderPair(Annotated, unit, key, val, b.col + unit));
      } else if b.node.value.Map? {
        var whole := Map(b.node.value.entries[key := val]);
        var last := FindValueEnd(lines, b.line, b.col);
        ed.Replace(b.line, last + 1, h.renderPair(Annotated, unit, b.key, whole, b.col));
      } else {
        return false;
      }
      return true;
    }

    /** The i-th entry of the connections block b, updated in place. */
    method UpdateEntry(
      ed: LineEdits, b: Section, i: nat, props: map<string, Value>, replace: bool) returns (expected: Option<Value>)
      requires Valid() && ed.Valid() && Stands(lines, b) && b.node.Block? && i < |b.node.pairs|
      modifies ed
      ensures ed.Valid() && b.node.pairs[i].line < |lines|
      ensures var plan := UpdatePlan(h, lines, root, b.node.pairs[i], b.node.col, props, replace);
              ed.Plain() == old(ed.Plain()) + plan.edits && expected == plan.expected
    {
      var p, col, c := b.node.pairs[i], b.node.col, EntryCtx(h, lines, root, replace);
      EntryUnder(c, b, i);
      EntryCtxOk(h, lines, root, replace);
      if p.val.Block? {
        UpdateVisits(h, c, p.val, props, replace);
        hide HostOk, Stands, Under, VisitsNested, KindsOf, ValueEnd, BlockEnd, SetEdits, Expected, Visits, EntryOrder,
             LineEdits.Valid, LineEdits.Plain;
        var merged := Expected(c, Decode(p.val), props, replace);
        var order := OrderKeys(merged.entries);
        var m := new MappingEdit(c, ed);
        m.Set(p.line, col, p.val, props, order, replace);
        return Some(merged);
      }
      expected := RewriteEntry(ed, p, col, props, replace);
    }

    /** `type`, the template order of the type, then the rest by name. */
    method OrderKeys(props: map<string, Value>) returns (order: seq<string>)
      ensures order == ConnOrder(h, props)
    {
      var keys := ["type"] + h.templateOrder(props) + h.sortedKeys(props.Keys);
      order := [];
      for i := 0 to |keys|
        invariant KeysOnce(props, keys[i..], order) == KeysOnce(props, keys, [])
      {
        assert keys[i..][1..] == keys[i + 1..];
        if keys[i] in props && keys[i] !in order {
          order := order + [keys[i]];
        }
      }
      assert keys[|keys|..] == [];
    }

    /** A URL, an empty entry, or a flow mapping: its own lines written again. */
    method RewriteEntry(
      ed: LineEdits, p: Pair, col: nat, props: map<string, Value>, replace: bool) returns (expected: Option<Value>)
      requires ed.Valid() && p.line < |lines| && p.val.Leaf?
      modifies ed
      ensures ed.Valid()
      ensures var plan := UpdatePlan(h, lines, root, p, col, props, replace);
              ed.Plain() == old(ed.Plain()) + plan.edits && expected == plan.expected
    {
      hide KindsOf, ValueEnd, IsValueEnd, IndentUnit, LineEdits.Valid, LineEdits.Plain, EditScalar, Merge;
      if p.val.value.Scalar? && p.val.raw != "" && UrlOnly(props) {
        var m := new MappingEdit(EnvCtx(h, lines, root), ed);
        var done := m.SetScalar(p, col, props["url"]);
        if done {
          return None;
        }
      }
      var whole := if replace then Map(props) else Merge(Map(LeafProps(p.val)), Map(props));
      var style := if p.val.value.Map? && p.val.flow then Flow else Annotated;
      var last := FindValueEnd(lines, p.line, col);
      ed.Replace(p.line, last + 1, h.renderPair(style, IndentUnit(root), p.key, whole, col));
      return Some(whole);
    }

    /** Plans the lines of one connection, new or updated. */
    method PlanConn(
      ed: LineEdits, name: string, props: map<string, Value>, replace: bool) returns (ok: bool, expected: Option<Value>)
      requires Valid() && ed.Valid()
      modifies ed
      ensures ed.Valid() && Rooted(lines, root)
      ensures var plan := ConnPlan(h, lines, root, name, props, replace);
              ok == plan.Some?
                && (ok ==> ed.Plain() == old(ed.Plain()) + plan.value.edits && expected == plan.value.expected)
    {
      RootedHere();
      var conns := ConnsAt(h, root);
      if conns.Some? { TopStands(h, lines, root, "connections"); }
      hide HostOk, Rooted, Stands, LineEdits.Valid, LineEdits.Plain, TopAt, TopEdits, ChildEdits, UpdatePlan,
           IndentUnit, FlowEntry, NewEntry;
      if conns.None? {
        AddTopBlock(ed, Annotated, "connections", Map(map[name := NewEntry(props)]));
        return true, Some(Map(props));
      }
      var b := conns.value;
      if b.node.Block? {
        var i := FindFold(h.fold, b.node.pairs, name);
        if i < |b.node.pairs| {
          expected := UpdateEntry(ed, b, i, props, replace);
          return true, expected;
        }
      }
      if FlowEntry(h, b, name) {
        return false, None;
      }
      ok := AddChild(ed, b, name, NewEntry(props));
      return ok, Some(Map(props));
    }

    /** Plans the lines of env keys. */
    method SetEnvLines(ed: LineEdits, updates: map<string, Value>) returns (ok: bool)
      requires Valid() && ed.Valid()
      modifies ed
      ensures ed.Valid() && Rooted(lines, root)
      ensures var plan := EnvEdits(h, lines, root, updates);
              ok == plan.Some? && (ok ==> ed.Plain() == old(ed.Plain()) + plan.value)
    {
      hide HostOk, Rooted, BlockUnder, Under, VisitsNested, TopAt, EnvName, KindsOf, BlockEnd, ValueEnd, IsBlockEnd,
           IsValueEnd, SetEdits, TopEdits, Visits, LineEdits.Valid, LineEdits.Plain, IndentUnit, MergeTop;
      RootedHere();
      var env := EnvAt(h, root);
      if env.Some? { TopStands(h, lines, root, EnvName(root)); }
      if env.None? {
        AddTopBlock(ed, Plain, EnvName(root), Map(updates));
        return true;
      }
      var b := env.value;
      if b.node.Block? {
        SetEnvBlock(ed, b, updates);
        return true;
      }
      if !b.node.value.Map? && !EmptyValue(b.node) {
        return false;
      }
      if EmptyValue(b.node) {
        SetEmptyEnv(ed, b, updates);
        return true;
      }
      var block := h.renderPair(Plain, IndentUnit(root), b.key, MergeTop(b.node.value, Map(updates)), b.col);
      var last := FindValueEnd(lines, b.line, b.col);
      ed.Replace(b.line, last + 1, block);
      return true;
    }

    method SetEnvBlock(ed: LineEdits, b: Section, updates: map<string, Value>)
      requires Valid() && ed.Valid() && Stands(lines, b) && b.node.Block?
      modifies ed
      ensures ed.Valid()
      ensures ed.Plain() == old(ed.Plain())
                            + SetEdits(EnvCtx(h, lines, root), b.line, b.col, b.node, updates,
                                       h.sortedKeys(updates.Keys), false)
    {
      var c := EnvCtx(h, lines, root);
      EnvCtxOk(h, lines, root);
      SortedVisits(h, updates);
      BlockUnderCtx(c, b);
      hide HostOk, Stands, Under, VisitsNested, KindsOf, SetEdits, Visits, LineEdits.Valid, LineEdits.Plain;
      var m := new MappingEdit(c, ed);
      m.Set(b.line, b.col, b.node, updates, h.sortedKeys(updates.Keys), false);
    }

    method SetEmptyEnv(ed: LineEdits, b: Section, updates: map<string, Value>)
      requires ed.Valid() && b.line < |lines|
      modifies ed
      ensures ed.Valid()
      ensures var block := h.renderPair(Plain, IndentUnit(root), b.key, Map(updates), b.col);
              ed.Plain() == old(ed.Plain()) + [Edit(b.line, b.line + 1, [h.cleared(lines[b.line])]),
                                               Edit(End(lines, b), End(lines, b),
                                                    if block == [] then [] else block[1..])]
    {
      hide KindsOf, BlockEnd, IsBlockEnd, LineEdits.Valid, LineEdits.Plain, IndentUnit;
      var block := h.renderPair(Plain, IndentUnit(root), b.key, Map(updates), b.col);
      var rest := if block == [] then [] else block[1..];
      Regroup(ed.Plain(), [Edit(b.line, b.line + 1, [h.cleared(lines[b.line])])],
              [Edit(End(lines, b), End(lines, b), rest)]);
      ed.Replace(b.line, b.line + 1, [h.cleared(lines[b.line])]);
      var last := FindBlockEnd(lines, b.line, b.col);
      ed.Insert(last + 1, rest);
    }

    // ----- the operations

    /** Creates or updates a connection, and writes env keys in the same edit. */
    method Set(name: string, props: Option<map<string, Value>>, opts: EditOptions) returns (ok: bool)
      requires Valid()
      modifies this`lines, this`root, this`endNL
      ensures Valid() && Rooted(old(lines), old(root))
      ensures ok <==> SetSucceeds(h, old(lines), old(root), name, props, opts)
      ensures !ok ==> lines == old(lines) && root == old(root) && endNL == old(endNL)
      ensures ok ==>
                lines == Spliced(old(lines),
                                 SetPlan(h, old(lines), old(root), h.canon(name), props.value, opts.replace,
                                         opts.envUpdates).value.edits)
      ensures ok ==> Keeps(h.fold, FileOf(old(root)), FileOf(root), {h.fold(h.canon(name))}, opts.envUpdates.Keys)
    {
      RootedHere();
      hide HostOk, Rooted, SetPlan, Applicable, Spliced, Keeps, DropConn, DropEnv, FileOf, HasEntry, LineEdits.Valid,
           LineEdits.Plain;
      var canon := h.canon(name);
      if canon == "" || props.None? || !h.validName(canon) {
        return false;
      }
      if HasEntry(h, root, canon) && !opts.allowOverwrite {
        return false;
      }
      if !EnvAllowed(h, root, opts.envUpdates, opts.allowEnvOverwrite) {
        return false;
      }
      var ed, expected;
      ok, ed, expected := PlanSet(canon, props.value, opts.replace, opts.envUpdates);
      if !ok {
        return false;
      }
      SetPlanApplicable(h, lines, root, canon, props.value, opts.replace, opts.envUpdates);
      ok := ApplySet(ed, canon, opts.envUpdates.Keys, expected);
    }

    method ApplySet(ed: LineEdits, canon: string, keys: set<string>, expected: Option<Value>) returns (ok: bool)
      requires Valid() && ed.Valid() && Applicable(ed.Plain(), |lines|)
      modifies this`lines, this`root, this`endNL
      ensures Valid()
      ensures ok <==> h.parse(Spliced(old(lines), ed.Plain())).Some?
                      && SetAccepted(h, FileOf(old(root)), FileOf(h.parse(Spliced(old(lines), ed.Plain())).value),
                                     canon, keys, expected)
      ensures !ok ==> lines == old(lines) && root == old(root) && endNL == old(endNL)
      ensures ok ==> lines == Spliced(old(lines), ed.Plain())
      ensures ok ==> Keeps(h.fold, FileOf(old(root)), FileOf(root), {h.fold(canon)}, keys)
    {
      hide HostOk, Applicable, Spliced, Keeps, DropConn, DropEnv, FileOf, LineEdits.Valid, LineEdits.Plain;
      var host := h;
      ok := Apply(ed, (before: File, after: File) => SetAccepted(host, before, after, canon, keys, expected));
      if ok {
        ComparisonKeeps(h.fold, FileOf(old(root)), FileOf(root), canon, canon, keys);
        assert {h.fold(canon), h.fold(canon)} == {h.fold(canon)};
      }
    }

    /** The comparison after one connection was removed or got another name. */
    method ApplyWithout(ed: LineEdits, was: string, now: string, check: (File, File) -> bool) returns (ok: bool)
      requires Valid() && ed.Valid() && Applicable(ed.Plain(), |lines|)
      requires forall before, after | check(before, after) ::
                 DropConn(h.fold, before, was) == DropConn(h.fold, after, now)
      modifies this`lines, this`root, this`endNL
      ensures Valid()
      ensures !ok ==> lines == old(lines) && root == old(root) && endNL == old(endNL)
      ensures ok <==> h.parse(Spliced(old(lines), ed.Plain())).Some?
                      && check(FileOf(old(root)), FileOf(h.parse(Spliced(old(lines), ed.Plain())).value))
      ensures ok ==> lines == Spliced(old(lines), ed.Plain()) && check(FileOf(old(root)), FileOf(root))
      ensures ok ==> Keeps(h.fold, FileOf(old(root)), FileOf(root), {h.fold(was), h.fold(now)}, {})
    {
      hide HostOk, Applicable, Spliced, Keeps, DropConn, FileOf, LineEdits.Valid, LineEdits.Plain;
      ok := Apply(ed, check);
      if ok {
        DropNoEnvComparison(h.fold, FileOf(old(root)), FileOf(root), was, now);
      }
    }

    method PlanSet(name: string, props: map<string, Value>, replace: bool, updates: map<string, Value>)
      returns (ok: bool, ed: LineEdits, expected: Option<Value>)
      requires Valid()
      ensures fresh(ed) && ed.Valid() && Rooted(lines, root)
      ensures var plan := SetPlan(h, lines, root, name, props, replace, updates);
              ok == plan.Some? && (ok ==> ed.Plain() == plan.value.edits && expected == plan.value.expected)
    {
      hide HostOk, Rooted, ConnPlan, EnvEdits, LineEdits.Valid, LineEdits.Plain;
      ed := new LineEdits();
      ok, expected := PlanConn(ed, name, props, replace);
      if !ok {
        return;
      }
      ghost var edits := ConnPlan(h, lines, root, name, props, replace).value.edits;
      assert [] + edits == edits;
      if updates != map[] {
        ok := SetEnvLines(ed, updates);
      }
    }

    /** Writes keys under the env block. */
    method SetEnv(updates: map<string, Value>, allowOverwrite: bool) returns (ok: bool)
      requires Valid()
      modifies this`lines, this`root, this`endNL
      ensures Valid() && Rooted(old(lines), old(root))
      ensures ok <==> updates == map[] || SetEnvSucceeds(h, old(lines), old(root), updates, allowOverwrite)
      ensures !ok || updates == map[] ==> lines == old(lines) && root == old(root) && endNL == old(endNL)
      ensures ok && updates != map[] ==> lines == Spliced(old(lines), EnvEdits(h, old(lines), old(root), updates).value)
      ensures ok ==> Keeps(h.fold, FileOf(old(root)), FileOf(root), {}, updates.Keys)
    {
      RootedHere();
      hide HostOk, Rooted, EnvEdits, Applicable, Spliced, Keeps, DropEnv, FileOf, LineEdits.Valid, LineEdits.Plain;
      if updates == map[] {
        KeepsItself(h.fold, FileOf(root), {}, {});
        return true;
      }
      if !EnvAllowed(h, root, updates, allowOverwrite) {
        return false;
      }
      var ed := new LineEdits();
      ok := SetEnvLines(ed, updates);
      if !ok {
        return false;
      }
      EnvEditsApplicable(h, lines, root, updates);
      ghost var edits := EnvEdits(h, lines, root, updates).value;
      assert [] + edits == edits;
      var keys := updates.Keys;
      ok := Apply(ed, (before: File, after: File) => DropEnv(before, keys) == DropEnv(after, keys));
      if ok {
        EnvFile.EnvKeeps(h.fold, FileOf(old(root)), FileOf(root), keys);
      }
    }

    /** Removes one entry with the comment block above it. */
    method Delete(name: string) returns (ok: bool)
      requires Valid()
      modifies this`lines, this`root, this`endNL
      ensures Valid()
      ensures ok <==> DeleteSucceeds(h, old(lines), old(root), name)
      ensures !ok ==> lines == old(lines) && root == old(root) && endNL == old(endNL)
      ensures ok ==> Keeps(h.fold, FileOf(old(root)), FileOf(root), {h.fold(name)}, {})
      ensures ok ==> Deleted(h, old(lines), old(root), name, lines)
    {
      hide *;
      RootedHere();
      DeleteSucceedsIf(h, lines, root, name);
      var conns := ConnsAt(h, root);
      if conns.None? || !conns.value.node.Block? {
        return false;
      }
      var b := conns.value;
      var pairs := b.node.pairs;
      var i := FindFold(h.fold, pairs, name);
      if i == |pairs| {
        return false;
      }
      ConnsStand(h, lines, root);
      DeleteText(h, lines, b, i);
      DeletedIs(h, lines, root, name, b, i);
      var ed := PlanDelete(b, i);
      var fold := h.fold;
      ok := ApplyWithout(ed, name, name, (before: File, after: File) =>
                         DropConn(fold, before, name) == DropConn(fold, after, name));
      assert {fold(name), fold(name)} == {fold(name)};
    }

    method PlanDelete(b: Section, i: nat) returns (ed: LineEdits)
      requires b.node.Block? && i < |b.node.pairs| && b.node.pairs[i].line < |lines| && b.line < |lines|
      ensures fresh(ed) && ed.Valid() && ed.Plain() == DeleteEdits(h, lines, b, i)
    {
      hide KindsOf, HeadStart, ValueEnd, IsValueEnd, IsHeadStart, IsBlank;
      ed := new LineEdits();
      var k, col := b.node.pairs[i].line, b.node.col;
      var start := FindHeadStart(lines, k, col);
      var end := FindValueEnd(lines, k, col);
      end := end + 1;
      if start > 0 && IsBlank(lines[start - 1]) {
        if end < |lines| && IsBlank(lines[end]) {
          end := end + 1;
        } else if end == |lines| {
          start := start - 1;
        }
      }
      ed.Replace(start, end, []);
      if |b.node.pairs| == 1 {
        ed.Replace(b.line, b.line + 1, [h.emptied(lines[b.line])]);
      }
      DeletedLinesAre(lines, k, col);
    }

    /** Re-keys one entry on its own line. The block must be spelled
        `connections` here. */
    method Rename(oldName: string, newName: string) returns (ok: bool)
      requires Valid()
      modifies this`lines, this`root, this`endNL
      ensures Valid()
      ensures ok <==> RenameSucceeds(h, old(lines), old(root), oldName, newName)
      ensures !ok ==> lines == old(lines) && root == old(root) && endNL == old(endNL)
      ensures ok ==> h.validName(h.canon(newName))
      ensures ok ==> Keeps(h.fold, FileOf(old(root)), FileOf(root), {h.fold(oldName), h.fold(h.canon(newName))}, {})
      ensures ok ==> var b, i := RenamedAt(h, old(root), oldName).0, RenamedAt(h, old(root), oldName).1;
                     && b.node.Block? && i < |b.node.pairs| && b.node.pairs[i].line < |old(lines)|
                     && h.took(FileOf(old(root)), b.node.pairs[i].key) == h.took(FileOf(root), h.canon(newName))
                     && var k := b.node.pairs[i].line;
                       lines == old(lines)[k := h.renamed(old(lines)[k], h.canon(newName))]
    {
      RootedHere();
      hide HostOk, Rooted, Stands, Keeps, DropConn, Spliced, Applicable, FileOf, LineEdits.Valid, LineEdits.Plain, Has;
      var canon := h.canon(newName);
      if canon == "" || !h.validName(canon) || !root.Block? || !Has(root.pairs, "connections") {
        return false;
      }
      var (b, i) := RenamedAt(h, root, oldName);
      if !b.node.Block? {
        return false;
      }
      var pairs := b.node.pairs;
      if i == |pairs| {
        return false;
      }
      var other := FindFold(h.fold, pairs, canon);
      if other < |pairs| && other != i {
        return false;
      }
      RenamedStands(h, lines, root, oldName);
      var ed := PlanRename(b, i, canon);
      var fold, key, took := h.fold, pairs[i].key, h.took;
      ok := ApplyWithout(ed, key, canon, (before: File, after: File) =>
                           && DropConn(fold, before, key) == DropConn(fold, after, canon)
                           && took(before, key) == took(after, canon));
    }

    method PlanRename(b: Section, i: nat, name: string) returns (ed: LineEdits)
      requires Stands(lines, b) && b.node.Block? && i < |b.node.pairs|
      ensures fresh(ed) && ed.Valid() && Applicable(ed.Plain(), |lines|) && b.node.pairs[i].line < |lines|
      ensures var k := b.node.pairs[i].line; Spliced(lines, ed.Plain()) == lines[k := h.renamed(lines[k], name)]
    {
      hide Stands, Spliced, Applicable, LineEdits.Valid, LineEdits.Plain;
      RenameText(h, lines, b, i, name);
      ed := new LineEdits();
      var k := b.node.pairs[i].line;
      ed.Replace(k, k + 1, [h.renamed(lines[k], name)]);
      assert [] + [Edit(k, k + 1, [h.renamed(lines[k], name)])] == [Edit(k, k + 1, [h.renamed(lines[k], name)])];
    }
  }

  /** The entry stands in a block of connections, and the lines without it
      parse to a file without it. */
  ghost predicate DeleteSucceeds(h: Host, lines: seq<string>, root: Node, name: string) {
    ConnsAt(h, root).Some? &&
    var b := ConnsAt(h, root).value;
    b.node.Block? &&
    var i := FindFold(h.fold, b.node.pairs, name);
    && i < |b.node.pairs| && b.node.pairs[i].line < |lines| && b.line < |lines|
    && var edited := h.parse(Spliced(lines, DeleteEdits(h, lines, b, i)));
       edited.Some? && DropConn(h.fold, FileOf(root), name) == DropConn(h.fold, FileOf(edited.value), name)
  }

  lemma DeleteSucceedsIf(h: Host, lines: seq<string>, root: Node, name: string)
    requires Rooted(lines, root)
    ensures var conns := ConnsAt(h, root);
            if conns.None? || !conns.value.node.Block?
               || FindFold(h.fold, conns.value.node.pairs, name) == |conns.value.node.pairs|
            then !DeleteSucceeds(h, lines, root, name)
            else var b := conns.value;
                 var i := FindFold(h.fold, b.node.pairs, name);
                 b.node.pairs[i].line < |lines| && b.line < |lines| &&
                 var edited := h.parse(Spliced(lines, DeleteEdits(h, lines, b, i)));
                 DeleteSucceeds(h, lines, root, name) <==>
                   edited.Some? && DropConn(h.fold, FileOf(root), name) == DropConn(h.fold, FileOf(edited.value), name)
  {
    hide Rooted, TopAt, Spliced, DeleteEdits, DropConn, FileOf, Stands;
    if ConnsAt(h, root).Some? {
      ConnsStand(h, lines, root);
      var b := ConnsAt(h, root).value;
      if b.node.Block? && FindFold(h.fold, b.node.pairs, name) < |b.node.pairs| {
        DeleteText(h, lines, b, FindFold(h.fold, b.node.pairs, name));
      }
    }
  }

  /** The new name is proper and free, the entry stands in the block
      `connections`, and with the key's line rewritten the file parses to the
      same under the new name. */
  ghost predicate RenameSucceeds(h: Host, lines: seq<string>, root: Node, oldName: string, newName: string) {
    var canon, b, i := h.canon(newName), RenamedAt(h, root, oldName).0, RenamedAt(h, root, oldName).1;
    && canon != "" && h.validName(canon) && root.Block? && Has(root.pairs, "connections")
    && b.node.Block? && i < |b.node.pairs| && b.node.pairs[i].line < |lines|
    && (FindFold(h.fold, b.node.pairs, canon) == i || FindFold(h.fold, b.node.pairs, canon) == |b.node.pairs|)
    && var p := b.node.pairs[i];
       var edited := h.parse(lines[p.line := h.renamed(lines[p.line], canon)]);
       && edited.Some?
       && DropConn(h.fold, FileOf(root), p.key) == DropConn(h.fold, FileOf(edited.value), canon)
       && h.took(FileOf(root), p.key) == h.took(FileOf(edited.value), canon)
  }

  /** The lines without those of the entry. */
  ghost predicate Deleted(h: Host, lines: seq<string>, root: Node, name: string, out: seq<string>) {
    ConnsAt(h, root).Some? &&
    var b := ConnsAt(h, root).value;
    b.node.Block? &&
    var i := FindFold(h.fold, b.node.pairs, name);
    && i < |b.node.pairs| && b.node.pairs[i].line < |lines| && b.line < |lines|
    && out == Spliced(lines, DeleteEdits(h, lines, b, i))
  }

  lemma DeletedIs(h: Host, lines: seq<string>, root: Node, name: string, b: Section, i: nat)
    requires ConnsAt(h, root) == Some(b) && b.node.Block? && i == FindFold(h.fold, b.node.pairs, name) < |b.node.pairs|
    requires b.node.pairs[i].line < |lines| && b.line < |lines|
    ensures Deleted(h, lines, root, name, Spliced(lines, DeleteEdits(h, lines, b, i)))
  {
    hide TopAt, Spliced, DeleteEdits;
  }

  lemma ConnsStand(h: Host, lines: seq<string>, root: Node)
    requires Rooted(lines, root) && ConnsAt(h, root).Some?
    ensures Stands(lines, ConnsAt(h, root).value)
  {
    hide Stands, Rooted;
    TopStands(h, lines, root, "connections");
  }

  /** The block `connections` and the place of an entry in it. */
  function RenamedAt(h: Host, root: Node, name: string): (Section, nat) {
    if root.Block? && Has(root.pairs, "connections") then
      var p := root.pairs[Find(root.pairs, "connections")];
      (Section(p.key, p.line, root.col, p.val), if p.val.Block? then FindFold(h.fold, p.val.pairs, name) else 0)
    else (Section("", 0, 0, root), 0)
  }

  lemma RenamedStands(h: Host, lines: seq<string>, root: Node, name: string)
    requires Rooted(lines, root) && root.Block? && Has(root.pairs, "connections")
    ensures Stands(lines, RenamedAt(h, root, name).0)
  {
    PairStands(lines, root, Find(root.pairs, "connections"));
  }

  lemma PairStands(lines: seq<string>, root: Node, i: nat)
    requires Rooted(lines, root) && root.Block? && i < |root.pairs|
    ensures Stands(lines, Section(root.pairs[i].key, root.pairs[i].line, root.col, root.pairs[i].val))
  {
    var ks, p := KindsOf(lines), root.pairs[i];
    assert NestedAt(ks, p, root.col);
    EndsInRange(ks, p.line, root.col);
  }

  lemma PairsInFile(lines: seq<string>, root: Node)
    requires Rooted(lines, root)
    ensures root.Block? ==> forall i | 0 <= i < |root.pairs| :: root.pairs[i].line < |lines|
  {
  }

  lemma ChildrenInFile(lines: seq<string>, b: Section)
    requires Stands(lines, b) && b.node.Block?
    ensures forall i | 0 <= i < |b.node.pairs| :: b.node.pairs[i].line < |lines|
  {
  }

  lemma BlankIs(lines: seq<string>, i: nat)
    requires i < |lines|
    ensures KindsOf(lines)[i].Blank? <==> IsBlank(lines[i])
  {
    hide IsBlank;
  }

  // ----- what the operations check

  /** What Set asks of its arguments before it edits anything. */
  predicate SetAllowed(h: Host, root: Node, name: string, props: Option<map<string, Value>>, opts: EditOptions) {
    && h.canon(name) != "" && props.Some? && h.validName(h.canon(name))
    && (!HasEntry(h, root, h.canon(name)) || opts.allowOverwrite)
    && EnvAllowed(h, root, opts.envUpdates, opts.allowEnvOverwrite)
  }

  /** The keys are proper, and unless overwriting is allowed no update changes
      a value the env block has. */
  predicate EnvAllowed(h: Host, root: Node, updates: map<string, Value>, allowOverwrite: bool) {
    && (forall k | k in updates :: h.validEnvKey(k))
    && (allowOverwrite || forall k | k in updates :: k in EnvNow(root) ==> Same(EnvNow(root)[k], updates[k]))
  }

  /** What the env block holds. */
  function EnvNow(root: Node): map<string, Value> {
    if root.Block? && Has(root.pairs, EnvName(root)) then
      var v := Decode(root.pairs[Find(root.pairs, EnvName(root))].val);
      if v.Map? then v.entries else map[]
    else map[]
  }

  /** The comparison after Set: nothing else changed, and the entry, if it is a
      mapping, holds what was expected. */
  predicate SetAccepted(h: Host, before: File, after: File, canon: string, keys: set<string>, expected: Option<Value>) {
    && DropEnv(DropConn(h.fold, before, canon), keys) == DropEnv(DropConn(h.fold, after, canon), keys)
    && match h.took(after, canon)
       case None => true
       case Some(v) => v.Map? ==> expected.Some? && Same(expected.value, v)
  }

  predicate SetSucceeds(
    h: Host, lines: seq<string>, root: Node, name: string, props: Option<map<string, Value>>, opts: EditOptions)
    requires Rooted(lines, root)
  {
    SetAllowed(h, root, name, props, opts) &&
    var plan := SetPlan(h, lines, root, h.canon(name), props.value, opts.replace, opts.envUpdates);
    plan.Some? &&
    var edited := h.parse(Spliced(lines, plan.value.edits));
    edited.Some?
      && SetAccepted(h, FileOf(root), FileOf(edited.value), h.canon(name), opts.envUpdates.Keys, plan.value.expected)
  }

  predicate SetEnvSucceeds(h: Host, lines: seq<string>, root: Node, updates: map<string, Value>, allowOverwrite: bool)
    requires Rooted(lines, root)
  {
    EnvAllowed(h, root, updates, allowOverwrite) &&
    var plan := EnvEdits(h, lines, root, updates);
    plan.Some? &&
    var edited := h.parse(Spliced(lines, plan.value));
    edited.Some? && DropEnv(FileOf(root), updates.Keys) == DropEnv(FileOf(edited.value), updates.Keys)
  }

  lemma DeletedLinesAre(lines: seq<string>, k: nat, col: nat)
    requires k < |lines|
    ensures var ks := KindsOf(lines);
            var start, end := HeadStart(ks, k, col), ValueEnd(ks, k, col) + 1;
            DeletedLines(ks, k, col)
            == if start > 0 && IsBlank(lines[start - 1]) then
                 if end < |lines| && IsBlank(lines[end]) then (start, end + 1)
                 else if end == |lines| then (start - 1, end) else (start, end)
               else (start, end)
  {
    hide HeadStart, ValueEnd, TrimSpace;
  }

  // ----- a whole run

  datatype Op =
    | OpSet(name: string, props: Option<map<string, Value>>, opts: EditOptions)
    | OpSetEnv(updates: map<string, Value>, allowOverwrite: bool)
    | OpDelete(name: string)
    | OpRename(oldName: string, newName: string)

  /** The connections an operation names, up to case. */
  function Names(h: Host, op: Op): set<string> {
    match op
    case OpSet(name, _, _) => {h.fold(h.canon(name))}
    case OpSetEnv(_, _) => {}
    case OpDelete(name) => {h.fold(name)}
    case OpRename(a, b) => {h.fold(a), h.fold(h.canon(b))}
  }

  function EnvKeys(op: Op): set<string> {
    match op
    case OpSet(_, _, opts) => opts.envUpdates.Keys
    case OpSetEnv(updates, _) => updates.Keys
    case _ => {}
  }

  function AllNames(h: Host, ops: seq<Op>): set<string> {
    if ops == [] then {} else AllNames(h, ops[..|ops| - 1]) + Names(h, ops[|ops| - 1])
  }

  function AllEnvKeys(ops: seq<Op>): set<string> {
    if ops == [] then {} else AllEnvKeys(ops[..|ops| - 1]) + EnvKeys(ops[|ops| - 1])
  }

  /** The lines after an operation on the parse of these, if it succeeds. */
  ghost function AfterOp(h: Host, lines: seq<string>, op: Op): Option<seq<string>> {
    var parsed := h.parse(lines);
    if parsed.None? || !Rooted(lines, parsed.value) then None else
      var root := parsed.value;
      match op
      case OpSet(name, props, opts) =>
        if SetSucceeds(h, lines, root, name, props, opts) then
          var plan := SetPlan(h, lines, root, h.canon(name), props.value, opts.replace, opts.envUpdates);
          Some(Spliced(lines, plan.value.edits))
        else None
      case OpSetEnv(updates, allowOverwrite) =>
        if updates == map[] then Some(lines)
        else if SetEnvSucceeds(h, lines, root, updates, allowOverwrite)
        then Some(Spliced(lines, EnvEdits(h, lines, root, updates).value)) else None
      case OpDelete(name) =>
        if DeleteSucceeds(h, lines, root, name) then
          var b := ConnsAt(h, root).value;
          Some(Spliced(lines, DeleteEdits(h, lines, b, FindFold(h.fold, b.node.pairs, name))))
        else None
      case OpRename(oldName, newName) =>
        if RenameSucceeds(h, lines, root, oldName, newName) then
          var (b, i) := RenamedAt(h, root, oldName);
          var k := b.node.pairs[i].line;
          Some(lines[k := h.renamed(lines[k], h.canon(newName))])
        else None
  }

  /** The lines after a run: an operation that fails leaves them. */
  ghost function AfterOps(h: Host, lines: seq<string>, ops: seq<Op>): seq<string> {
    if ops == [] then lines else
      var before := AfterOps(h, lines, ops[..|ops| - 1]);
      match AfterOp(h, before, ops[|ops| - 1])
      case None => before
      case Some(after) => after
  }

  ghost function FailedOps(h: Host, lines: seq<string>, ops: seq<Op>): nat {
    if ops == [] then 0 else
      var n := |ops| - 1;
      FailedOps(h, lines, ops[..n]) + if AfterOp(h, AfterOps(h, lines, ops[..n]), ops[n]).None? then 1 else 0
  }

  method Step(e: EnvFileEditor, op: Op) returns (ok: bool)
    requires e.Valid()
    modifies e`lines, e`root, e`endNL
    ensures e.Valid()
    ensures !ok ==> e.lines == old(e.lines) && e.root == old(e.root) && e.endNL == old(e.endNL)
    ensures ok <==> AfterOp(e.h, old(e.lines), op).Some?
    ensures ok ==> e.lines == AfterOp(e.h, old(e.lines), op).value
    ensures Keeps(e.h.fold, FileOf(old(e.root)), FileOf(e.root), Names(e.h, op), EnvKeys(op))
  {
    hide *;
    e.RootedHere();
    ParseHere(e);
    KeepsItself(e.h.fold, FileOf(e.root), Names(e.h, op), EnvKeys(op));
    NamesIs(e.h, op);
    match op {
      case OpSet(name, props, opts) =>
        AfterSet(e.h, e.lines, e.root, name, props, opts);
        ok := e.Set(name, props, opts);
      case OpSetEnv(updates, allowOverwrite) =>
        AfterSetEnv(e.h, e.lines, e.root, updates, allowOverwrite);
        ok := e.SetEnv(updates, allowOverwrite);
      case OpDelete(name) =>
        AfterDelete(e.h, e.lines, e.root, name);
        ok := e.Delete(name);
      case OpRename(oldName, newName) =>
        AfterRename(e.h, e.lines, e.root, oldName, newName);
        ok := e.Rename(oldName, newName);
    }
  }

  lemma NamesIs(h: Host, op: Op)
    ensures match op
            case OpSet(name, _, opts) => Names(h, op) == {h.fold(h.canon(name))} && EnvKeys(op) == opts.envUpdates.Keys
            case OpSetEnv(updates, _) => Names(h, op) == {} && EnvKeys(op) == updates.Keys
            case OpDelete(name) => Names(h, op) == {h.fold(name)} && EnvKeys(op) == {}
            case OpRename(was, now) => Names(h, op) == {h.fold(was), h.fold(h.canon(now))} && EnvKeys(op) == {}
  {
  }

  lemma AfterSet(
    h: Host, lines: seq<string>, root: Node, name: string, props: Option<map<string, Value>>, opts: EditOptions)
    requires h.parse(lines) == Some(root) && Rooted(lines, root)
    ensures AfterOp(h, lines, OpSet(name, props, opts)).Some? <==> SetSucceeds(h, lines, root, name, props, opts)
    ensures SetSucceeds(h, lines, root, name, props, opts) ==>
              props.Some?
              && var plan := SetPlan(h, lines, root, h.canon(name), props.value, opts.replace, opts.envUpdates);
                 plan.Some? && AfterOp(h, lines, OpSet(name, props, opts)) == Some(Spliced(lines, plan.value.edits))
  {
    hide Rooted, SetPlan, Spliced, SetAccepted, HasEntry, EnvAllowed, FileOf;
  }

  lemma AfterSetEnv(
    h: Host, lines: seq<string>, root: Node, updates: map<string, Value>, allowOverwrite: bool)
    requires h.parse(lines) == Some(root) && Rooted(lines, root)
    ensures AfterOp(h, lines, OpSetEnv(updates, allowOverwrite)).Some?
       <==> updates == map[] || SetEnvSucceeds(h, lines, root, updates, allowOverwrite)
    ensures updates == map[] ==> AfterOp(h, lines, OpSetEnv(updates, allowOverwrite)) == Some(lines)
    ensures updates != map[] && SetEnvSucceeds(h, lines, root, updates, allowOverwrite) ==>
              var plan := EnvEdits(h, lines, root, updates);
              plan.Some? && AfterOp(h, lines, OpSetEnv(updates, allowOverwrite)) == Some(Spliced(lines, plan.value))
  {
    hide Rooted, EnvEdits, Spliced, EnvAllowed, FileOf, DropEnv;
  }

  lemma AfterDelete(h: Host, lines: seq<string>, root: Node, name: string)
    requires h.parse(lines) == Some(root) && Rooted(lines, root)
    ensures AfterOp(h, lines, OpDelete(name)).Some? <==> DeleteSucceeds(h, lines, root, name)
    ensures forall out | Deleted(h, lines, root, name, out) && DeleteSucceeds(h, lines, root, name) ::
              AfterOp(h, lines, OpDelete(name)) == Some(out)
  {
    hide Rooted, TopAt, Spliced, DeleteEdits, FileOf, DropConn;
  }

  lemma AfterRename(h: Host, lines: seq<string>, root: Node, oldName: string, newName: string)
    requires h.parse(lines) == Some(root) && Rooted(lines, root)
    ensures AfterOp(h, lines, OpRename(oldName, newName)).Some? <==> RenameSucceeds(h, lines, root, oldName, newName)
    ensures RenameSucceeds(h, lines, root, oldName, newName) ==>
              var b, i := RenamedAt(h, root, oldName).0, RenamedAt(h, root, oldName).1;
              && b.node.Block? && i < |b.node.pairs| && b.node.pairs[i].line < |lines|
              && var k := b.node.pairs[i].line;
                 AfterOp(h, lines, OpRename(oldName, newName))
                   == Some(lines[k := h.renamed(lines[k], h.canon(newName))])
  {
    hide Rooted, RenamedAt, FileOf, DropConn, Has;
  }

  lemma ParseHere(e: EnvFileEditor)
    requires e.Valid()
    ensures e.h.parse(e.lines) == Some(e.root)
  {
    hide HostOk;
  }

  /** After any run of operations the editor still holds the parse of its
      lines, and every connection and env key that no operation names has the
      value it started with. */
  method RunAll(e: EnvFileEditor, ops: seq<Op>) returns (failed: nat)
    requires e.Valid()
    modifies e`lines, e`root, e`endNL
    ensures e.Valid()
    ensures Keeps(e.h.fold, FileOf(old(e.root)), FileOf(e.root), AllNames(e.h, ops), AllEnvKeys(ops))
    ensures e.lines == AfterOps(e.h, old(e.lines), ops) && failed == FailedOps(e.h, old(e.lines), ops)
    ensures failed == |ops| ==> e.lines == old(e.lines) && e.root == old(e.root)
  {
    hide Keeps, FileOf, HostOk, AfterOp;
    failed := 0;
    KeepsItself(e.h.fold, FileOf(e.root), AllNames(e.h, []), AllEnvKeys([]));
    for i := 0 to |ops|
      invariant e.Valid() && failed <= i
      invariant failed == i ==> e.lines == old(e.lines) && e.root == old(e.root)
      invariant e.lines == AfterOps(e.h, old(e.lines), ops[..i]) && failed == FailedOps(e.h, old(e.lines), ops[..i])
      invariant Keeps(e.h.fold, FileOf(old(e.root)), FileOf(e.root), AllNames(e.h, ops[..i]), AllEnvKeys(ops[..i]))
    {
      ghost var file := FileOf(e.root);
      var ok := Step(e, ops[i]);
      if !ok {
        failed := failed + 1;
      }
      KeepsTransitive(e.h.fold, FileOf(old(e.root)), file, FileOf(e.root), AllNames(e.h, ops[..i]),
                      AllEnvKeys(ops[..i]),
                      Names(e.h, ops[i]), EnvKeys(ops[i]));
      assert ops[..i + 1][..i] == ops[..i];
    }
    assert ops[..|ops|] == ops;
  }
}
