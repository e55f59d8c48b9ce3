/** Saving properties over an existing connection: the update of its block
    mapping, spliced, parsed again and compared. */
module EntryUpdate {
  import opened Text
  import opened Values
  import opened LineGeometry
  import opened LineSplice
  import opened EnvFile
  import opened MappingEdits
  import opened MappingText
  import opened MappingOrder
  import opened MappingValues
  import opened MappingUpdate
  import opened EnvPlan
  import opened EnvSplice
  import opened EnvEditor
  import opened SaveText

  /** The connection with this name is a block mapping. */
  predicate IsBlockEntry(h: Host, root: Node, name: string) {
    match ConnsAt(h, root)
    case None => false
    case Some(b) =>
      b.node.Block? &&
      var i := FindFold(h.fold, b.node.pairs, h.canon(name));
      i < |b.node.pairs| && b.node.pairs[i].val.Block?
  }

  function EntryCol(h: Host, root: Node, name: string): nat
    requires IsBlockEntry(h, root, name)
  {
    ConnsAt(h, root).value.node.col
  }

  function EntryOf(h: Host, root: Node, name: string): (p: Pair)
    requires IsBlockEntry(h, root, name)
    ensures p.val.Block?
  {
    var b := ConnsAt(h, root).value;
    b.node.pairs[FindFold(h.fold, b.node.pairs, h.canon(name))]
  }

  /** One save over a block entry: what it starts from. */
  datatype Save = Save(c: Ctx, p: Pair, col: nat, props: map<string, Value>, order: seq<string>, replace: bool) {
    ghost predicate Valid() {
      && Under(c, p.line, col, p.val) && VisitsNested(c) && RendersLines(c) && Visits(order, props)
      && c.nestedReplace == replace
    }

    function Edits(): seq<Edit>
      requires p.val.Block?
    {
      SetEdits(c, p.line, col, p.val, props, order, replace)
    }

    /** The value the new lines of the entry are laid out for. */
    function Laid(): Value
      requires p.val.Block? && |c.kinds| == |c.doc|
    {
      NestedValue(ItemsMap(OutSet(c, p.line, col, p.val, props, order, replace)))
    }

    function Wanted(): (r: Value)
      requires p.val.Block?
      ensures r.Map?
    {
      Expected(c, Decode(p.val), props, replace)
    }
  }

  function SaveOf(
    h: Host, lines: seq<string>, root: Node, name: string, props: map<string, Value>, replace: bool): (s: Save)
    requires IsBlockEntry(h, root, name)
    ensures s.p.val.Block? && |s.c.kinds| == |s.c.doc| && s.c.doc == lines && s.props == props && s.replace == replace
  {
    var c, p := EntryCtx(h, lines, root, replace), EntryOf(h, root, name);
    Save(c, p, EntryCol(h, root, name), props, EntryOrder(h, c, p.val, props, replace), replace)
  }

  /** The lines below the entry's key are those of the saved entry, all others
      stay. */
  ghost predicate Writes(
    h: Host, lines: seq<string>, root: Node, name: string, props: map<string, Value>, replace: bool, out: seq<string>)
  {
    IsBlockEntry(h, root, name) &&
    var p, col := EntryOf(h, root, name), EntryCol(h, root, name);
    var past := BlockEnd(KindsOf(lines), p.line, col) + 1;
    && p.line < past <= |lines|
    && out == lines[..p.line + 1] + (EntryLines(h, lines, root, p, col, props, replace) + lines[past..])
  }

  /** The name is one a connection may have, and the parser reads the edited
      lines as they are laid out: the entry anew, everything else as before. */
  ghost predicate Understood(h: Host, before: File, name: string, s: Save) {
    && h.canon(name) != "" && h.validName(h.canon(name)) && s.p.val.Block? && |s.c.kinds| == |s.c.doc|
    && h.parse(Spliced(s.c.doc, s.Edits())).Some?
    && var after := FileOf(h.parse(Spliced(s.c.doc, s.Edits())).value);
      DropConn(h.fold, before, h.canon(name)) == DropConn(h.fold, after, h.canon(name))
      && DroppedConns(h.fold, after, h.canon(name)) == {s.Laid()}
  }

  /** Updates a block entry: merged, or replaced. On success the rest of the
      file is byte for byte what it was, unless the update goes late; and a
      mapping that then stands under the name holds what it must. Where the
      parser reads the new lines as they are laid out, the save goes through
      exactly if no nested mapping that changes is set to the empty map, and
      leaves a wrong value exactly if the entry itself is replaced by it. */
  method Update(e: EnvFileEditor, name: string, props: map<string, Value>, replace: bool) returns (ok: bool)
    requires e.Valid() && IsBlockEntry(e.h, e.root, name)
    modifies e`lines, e`root, e`endNL
    ensures e.Valid()
    ensures Rooted(old(e.lines), old(e.root))
    ensures ok
            <==> SetSucceeds(e.h, old(e.lines), old(e.root), name, Some(props), EditOptions(replace, true, map[], true))
    ensures !ok ==> e.lines == old(e.lines) && e.root == old(e.root) && e.endNL == old(e.endNL)
    ensures ok ==> Keeps(e.h.fold, FileOf(old(e.root)), FileOf(e.root), {e.h.fold(e.h.canon(name))}, {})
    ensures var s := SaveOf(e.h, old(e.lines), old(e.root), name, props, replace);
            var took := e.h.took(FileOf(e.root), e.h.canon(name));
            && (ok ==> e.lines == Spliced(old(e.lines), s.Edits()))
            && (ok && !GoesLate(s.c, s.p.val, props, s.order) ==>
                  Writes(e.h, old(e.lines), old(e.root), name, props, replace, e.lines))
            && (ok && took.Some? && took.value.Map? ==> Same(s.Wanted(), took.value))
            && (Understood(e.h, FileOf(old(e.root)), name, s) ==>
                  && (ok <==> Faithful(s.c, s.p.val, props))
                  && (ok ==> took.Some? && (Same(took.value, s.Wanted()) <==> !(replace && props == map[]))))
  {
    hide *;
    ghost var s := SaveOf(e.h, e.lines, e.root, name, props, replace);
    ghost var before, doc, root := FileOf(e.root), e.lines, e.root;
    e.RootedHere();
    HostHere(e);
    EntryPlan(e.h, e.lines, e.root, name, props, replace);
    SaveValid(e.h, e.lines, e.root, name, props, replace);
    var opts := EditOptions(replace, true, map[], true);
    assert opts.replace == replace && opts.envUpdates == map[] && opts.envUpdates.Keys == {};
    ok := e.Set(name, Some(props), opts);
    HostHere(e);
    SaveSucceeds(e.h, doc, root, name, props, replace, opts);
    if !GoesLate(s.c, s.p.val, props, s.order) { SaveWrites(e.h, doc, root, name, props, replace); }
    if Understood(e.h, before, name, s) { SaveOutcome(e.h, before, name, s); }
    ParsedHere(e);
    if ok { SaveAccepted(e.h, before, FileOf(e.root), e.h.canon(name), s.Wanted()); }
  }

  lemma SaveAccepted(h: Host, before: File, after: File, canon: string, wanted: Value)
    requires SetAccepted(h, before, after, canon, {}, Some(wanted))
    ensures var took := h.took(after, canon); took.Some? && took.value.Map? ==> Same(wanted, took.value)
  {
    hide DropConn, DropEnv, Same;
  }

  lemma ParsedHere(e: EnvFileEditor)
    requires e.Valid()
    ensures e.h.parse(e.lines) == Some(e.root)
  {
    hide HostOk;
  }

  lemma HostHere(e: EnvFileEditor)
    requires e.Valid()
    ensures HostOk(e.h)
  {
    hide HostOk;
  }

  /** What Set plans for the entry. */
  lemma EntryPlan(h: Host, lines: seq<string>, root: Node, name: string, props: map<string, Value>, replace: bool)
    requires Rooted(lines, root) && IsBlockEntry(h, root, name)
    ensures var s := SaveOf(h, lines, root, name, props, replace);
            SetPlan(h, lines, root, h.canon(name), props, replace, map[]) == Some(Plan(s.Edits(), Some(s.Wanted())))
  {
    hide Rooted, TopAt, SetEdits, Expected, EntryOrder;
    TopStands(h, lines, root, "connections");
    hide Stands;
  }

  lemma SaveValid(h: Host, lines: seq<string>, root: Node, name: string, props: map<string, Value>, replace: bool)
    requires HostOk(h) && Rooted(lines, root) && IsBlockEntry(h, root, name)
    ensures SaveOf(h, lines, root, name, props, replace).Valid()
  {
    hide HostOk, Rooted, TopAt, Stands, Under, VisitsNested, RendersLines, Visits, EntryOrder, KindsOf;
    TopStands(h, lines, root, "connections");
    var c, b := EntryCtx(h, lines, root, replace), ConnsAt(h, root).value;
    EntryCtxOk(h, lines, root, replace);
    EntryUnder(c, b, FindFold(h.fold, b.node.pairs, h.canon(name)));
    UpdateVisits(h, c, EntryOf(h, root, name).val, props, replace);
  }

  /** When Set succeeds on such an entry. */
  lemma SaveSucceeds(
    h: Host, lines: seq<string>, root: Node, name: string, props: map<string, Value>, replace: bool, opts: EditOptions)
    requires Rooted(lines, root) && IsBlockEntry(h, root, name)
    requires opts == EditOptions(replace, true, map[], true)
    ensures var s := SaveOf(h, lines, root, name, props, replace);
            SetSucceeds(h, lines, root, name, Some(props), opts)
            <==> && h.canon(name) != "" && h.validName(h.canon(name))
                 && h.parse(Spliced(lines, s.Edits())).Some?
                 && SetAccepted(h, FileOf(root), FileOf(h.parse(Spliced(lines, s.Edits())).value), h.canon(name), {},
                                Some(s.Wanted()))
  {
    hide Rooted, SetPlan, SetAccepted, FileOf, HasEntry, Spliced, SaveOf, Save.Edits, Save.Wanted, IsBlockEntry,
         EnvNow, Same;
    EntryPlan(h, lines, root, name, props, replace);
    assert opts.envUpdates.Keys == {};
  }

  lemma SaveWrites(
    h: Host, lines: seq<string>, root: Node, name: string, props: map<string, Value>, replace: bool)
    requires IsBlockEntry(h, root, name)
    requires var s := SaveOf(h, lines, root, name, props, replace);
             s.Valid() && !GoesLate(s.c, s.p.val, props, s.order)
    ensures var s := SaveOf(h, lines, root, name, props, replace);
            Writes(h, lines, root, name, props, replace, Spliced(lines, s.Edits()))
  {
    hide Under, VisitsNested, RendersLines, Visits, GoesLate, SetEdits, OutSet, Spliced, TextOf, EntryLines, BlockEnd,
         KindsOf, TopAt, EntryOrder;
    var s := SaveOf(h, lines, root, name, props, replace);
    UpdateInPlace(s.c, s.p.line, s.col, s.p.val, props, s.order, replace);
    EntryLinesAre(h, lines, root, s.p, s.col, props, replace);
  }

  /** What the comparison says where the new lines are understood. */
  lemma SaveOutcome(h: Host, before: File, name: string, s: Save)
    requires s.Valid() && HostOk(h) && Understood(h, before, name, s)
    ensures h.canon(name) != "" && h.validName(h.canon(name)) && h.parse(Spliced(s.c.doc, s.Edits())).Some?
    ensures var after := FileOf(h.parse(Spliced(s.c.doc, s.Edits())).value);
            && h.took(after, h.canon(name)) == Some(s.Laid())
            && (SetAccepted(h, before, after, h.canon(name), {}, Some(s.Wanted())) <==> Faithful(s.c, s.p.val, s.props))
            && (Faithful(s.c, s.p.val, s.props) ==> (Same(s.Laid(), s.Wanted()) <==> !(s.replace && s.props == map[])))
  {
    LaidIs(s);
    hide Save.Valid, HostOk, DropConn, DroppedConns, FileOf, Faithful, Spliced, Same, Save.Edits, Save.Laid,
         Save.Wanted, DropEnv, SetAccepted;
    var after := FileOf(h.parse(Spliced(s.c.doc, s.Edits())).value);
    TookLaid(h, after, h.canon(name), s.Laid());
    AcceptedBy(h, before, after, h.canon(name), s.Wanted(), s.Laid());
  }

  /** The comparison of the decoded file, when only the entry has changed. */
  lemma AcceptedBy(h: Host, before: File, after: File, canon: string, wanted: Value, value: Value)
    requires DropConn(h.fold, before, canon) == DropConn(h.fold, after, canon) && h.took(after, canon) == Some(value)
    ensures SetAccepted(h, before, after, canon, {}, Some(wanted)) <==> (value.Map? ==> Same(value, wanted))
  {
    hide DropConn, DropEnv, Same;
    if Same(value, wanted) { SameSymmetric(value, wanted); }
    if Same(wanted, value) { SameSymmetric(wanted, value); }
  }

  lemma TookLaid(h: Host, after: File, name: string, value: Value)
    requires HostOk(h) && DroppedConns(h.fold, after, name) == {value}
    ensures h.took(after, name) == Some(value)
  {
    hide DroppedConns;
    assert Takes(h);
    assert value in DroppedConns(h.fold, after, name);
  }

  /** The entry is laid out as wanted exactly if the update is faithful and
      leaves a key; with no key left it reads as null. */
  lemma LaidIs(s: Save)
    requires s.Valid()
    ensures Same(s.Laid(), s.Wanted()) <==> Faithful(s.c, s.p.val, s.props) && !(s.replace && s.props == map[])
    ensures s.Laid() == NULL <==> s.replace && s.props == map[]
    ensures !s.Laid().Map? ==> s.Laid() == NULL
    ensures s.replace && s.props == map[] ==> Faithful(s.c, s.p.val, s.props)
  {
    hide Under, VisitsNested, RendersLines, Visits, OutSet, Expected, ItemsMap, Decode;
    SetValues(s.c, s.p.line, s.col, s.p.val, s.props, s.order, s.replace);
    LeftWithNothing(s.c, s.p.line, s.col, s.p.val, s.props, s.order, s.replace);
  }

  /** Replacing an entry by no properties is refused by nothing: the save goes
      through, and a bare key that reads as null is left. */
  lemma EmptyEntryAccepted(h: Host, before: File, name: string, s: Save)
    requires s.Valid() && HostOk(h) && Understood(h, before, name, s) && s.replace && s.props == map[]
    ensures var after := FileOf(h.parse(Spliced(s.c.doc, s.Edits())).value);
            && SetAccepted(h, before, after, h.canon(name), {}, Some(s.Wanted()))
            && h.took(after, h.canon(name)) == Some(NULL) && !Same(NULL, s.Wanted())
  {
    hide HostOk, Save.Valid, DropConn, DroppedConns, FileOf, Spliced, SetAccepted, Understood, Save.Edits, Save.Laid,
         Save.Wanted;
    SaveOutcome(h, before, name, s);
    LaidIs(s);
  }
}
