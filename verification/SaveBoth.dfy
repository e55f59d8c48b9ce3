/** One save that updates a block entry and writes env keys under a block
    mapping: what it makes of the file, and when both hold what they must. */
module SaveBoth {
  import opened Text
  import opened Values
  import opened LineGeometry
  import opened LineSplice
  import opened EnvFile
  import opened MappingEdits
  import opened MappingText
  import opened MappingOrder
  import opened MappingValues
  import opened EnvPlan
  import opened EnvSplice
  import opened EnvEditor
  import EnvText
  import opened EntryUpdate
  import opened SaveText
  import EnvUpdate

  /** The entry and the env block are block mappings, and there are env keys to
      write. */
  predicate HasBoth(h: Host, root: Node, name: string, updates: map<string, Value>) {
    IsBlockEntry(h, root, name) && EnvUpdate.IsEnvBlock(h, root) && updates != map[]
  }

  function EnvOnly(h: Host, lines: seq<string>, root: Node, updates: map<string, Value>): seq<Edit>
    requires EnvUpdate.IsEnvBlock(h, root)
  {
    var b := EnvUpdate.EnvBlock(h, root);
    SetEdits(EnvCtx(h, lines, root), b.line, b.col, b.node, updates, h.sortedKeys(updates.Keys), false)
  }

  /** The edits of the entry, then those of the env block. */
  function BothEdits(h: Host, lines: seq<string>, root: Node, s: Save, updates: map<string, Value>): seq<Edit>
    requires EnvUpdate.IsEnvBlock(h, root) && s.p.val.Block?
  {
    s.Edits() + EnvOnly(h, lines, root, updates)
  }

  /** The name is one a connection may have, and the parser reads the edited
      lines as they are laid out: the entry and the env block anew, everything
      else as before. */
  ghost predicate Understood(
    h: Host, lines: seq<string>, root: Node, name: string, s: Save, updates: map<string, Value>)
  {
    && Rooted(lines, root) && EnvUpdate.IsEnvBlock(h, root)
    && h.canon(name) != "" && h.validName(h.canon(name)) && s.p.val.Block? && |s.c.kinds| == |s.c.doc|
    && h.parse(Spliced(lines, BothEdits(h, lines, root, s, updates))).Some?
    && var after := FileOf(h.parse(Spliced(lines, BothEdits(h, lines, root, s, updates))).value);
      && DropConn(h.fold, after, h.canon(name))
         == DropConn(h.fold, FileOf(root), h.canon(name))
              [EnvUpdate.EnvBlock(h, root).key := NestedValue(ItemsMap(EnvUpdate.EnvItems(h, lines, root, updates)))]
      && DroppedConns(h.fold, after, h.canon(name)) == {s.Laid()}
  }

  /** Two stretches of the lines are replaced, all others stay. */
  ghost predicate TwoReplaced(
    doc: seq<string>, a: nat, b: nat, x: seq<string>, a2: nat, b2: nat, y: seq<string>, out: seq<string>)
  {
    a <= b <= a2 <= b2 <= |doc| && out == doc[..a] + (x + (doc[b..a2] + (y + doc[b2..])))
  }

  /** The lines of the entry and of the env block are those of the updated
      mappings, all others stay. */
  ghost predicate Writes(
    h: Host, lines: seq<string>, root: Node, name: string, props: map<string, Value>, replace: bool,
    updates: map<string, Value>, out: seq<string>)
  {
    IsBlockEntry(h, root, name) && EnvUpdate.IsEnvBlock(h, root) &&
    var p, col, b := EntryOf(h, root, name), EntryCol(h, root, name), EnvUpdate.EnvBlock(h, root);
    var entry, past := EntryLines(h, lines, root, p, col, props, replace), BlockEnd(KindsOf(lines), p.line, col) + 1;
    var env := EnvLines(h, lines, root, b, updates);
    if p.line < b.line then TwoReplaced(lines, p.line + 1, past, entry, b.line + 1, End(lines, b), env, out)
    else TwoReplaced(lines, b.line + 1, End(lines, b), env, p.line + 1, past, entry, out)
  }

  /** Updates a block entry and writes env keys in one edit. Unless the plan
      goes late, both become the text of the updated mapping. Where the parser
      reads the new lines as they are laid out, the save goes through exactly
      if it is allowed and the entry's update is faithful; the env block
      then holds the updates exactly if they are faithful too, and the entry
      what it must exactly if it is not replaced by no properties. */
  method Update(e: EnvFileEditor, name: string, props: map<string, Value>, opts: EditOptions) returns (ok: bool)
    requires e.Valid() && HasBoth(e.h, e.root, name, opts.envUpdates)
    modifies e`lines, e`root, e`endNL
    ensures e.Valid()
    ensures Rooted(old(e.lines), old(e.root))
    ensures ok <==> SetSucceeds(e.h, old(e.lines), old(e.root), name, Some(props), opts)
    ensures !ok ==> e.lines == old(e.lines) && e.root == old(e.root) && e.endNL == old(e.endNL)
    ensures ok ==>
              Keeps(e.h.fold, FileOf(old(e.root)), FileOf(e.root), {e.h.fold(e.h.canon(name))}, opts.envUpdates.Keys)
    ensures ok
            && !SetGoesLate(e.h, old(e.lines), old(e.root), e.h.canon(name), props, opts.replace, opts.envUpdates) ==>
              Writes(e.h, old(e.lines), old(e.root), name, props, opts.replace, opts.envUpdates, e.lines)
    ensures var s := SaveOf(e.h, old(e.lines), old(e.root), name, props, opts.replace);
            var took := e.h.took(FileOf(e.root), e.h.canon(name));
            Understood(e.h, old(e.lines), old(e.root), name, s, opts.envUpdates) ==>
              && (ok <==> opts.allowOverwrite && EnvAllowed(e.h, old(e.root), opts.envUpdates, opts.allowEnvOverwrite)
                          && Faithful(s.c, s.p.val, props))
              && (ok ==>
                    && took.Some? && (Same(took.value, s.Wanted()) <==> !(opts.replace && props == map[]))
                    && EnvUpdate.Holds(e.h, old(e.root), FileOf(e.root), opts.envUpdates)
                       == Faithful(EnvCtx(e.h, old(e.lines), old(e.root)), EnvUpdate.EnvBlock(e.h, old(e.root)).node,
                                   opts.envUpdates))
  {
    hide *;
    ghost var doc, root, updates := e.lines, e.root, opts.envUpdates;
    BothHere(e.h, root, name, updates);
    ghost var s := SaveOf(e.h, doc, root, name, props, opts.replace);
    e.RootedHere();
    HostHere(e);
    SaveValid(e.h, doc, root, name, props, opts.replace);
    BothPlan(e.h, doc, root, name, props, opts.replace, updates);
    ok := e.Set(name, Some(props), opts);
    ParsedHere(e);
    BothSucceeds(e.h, doc, root, name, props, opts);
    if !SetGoesLate(e.h, doc, root, e.h.canon(name), props, opts.replace, updates) {
      BothWrites(e.h, doc, root, name, props, opts.replace, updates);
    }
    if Understood(e.h, doc, root, name, s, updates) { BothOutcome(e.h, doc, root, name, s, updates); }
  }

  lemma BothHere(h: Host, root: Node, name: string, updates: map<string, Value>)
    ensures HasBoth(h, root, name, updates)
            <==> IsBlockEntry(h, root, name) && EnvUpdate.IsEnvBlock(h, root) && updates != map[]
  {
  }

  lemma BothPlan(
    h: Host, lines: seq<string>, root: Node, name: string, props: map<string, Value>, replace: bool,
    updates: map<string, Value>)
    requires HostOk(h) && Rooted(lines, root)
    requires IsBlockEntry(h, root, name) && EnvUpdate.IsEnvBlock(h, root) && updates != map[]
    ensures var s := SaveOf(h, lines, root, name, props, replace);
            SetPlan(h, lines, root, h.canon(name), props, replace, updates)
            == Some(Plan(BothEdits(h, lines, root, s, updates), Some(s.Wanted())))
  {
    hide HostOk, Rooted, SetEdits, Expected, EntryOrder, IsBlockEntry, EnvUpdate.IsEnvBlock, SaveOf, ConnPlan,
         EnvEdits, Save.Edits, Save.Wanted, EnvUpdate.EnvBlock, EnvCtx;
    EntryPlan(h, lines, root, name, props, replace);
    EnvUpdate.EnvPlanned(h, lines, root, updates);
  }

  lemma BothSucceeds(
    h: Host, lines: seq<string>, root: Node, name: string, props: map<string, Value>, opts: EditOptions)
    requires HostOk(h) && Rooted(lines, root)
    requires IsBlockEntry(h, root, name) && EnvUpdate.IsEnvBlock(h, root) && opts.envUpdates != map[]
    ensures var s := SaveOf(h, lines, root, name, props, opts.replace);
            var edited := h.parse(Spliced(lines, BothEdits(h, lines, root, s, opts.envUpdates)));
            SetSucceeds(h, lines, root, name, Some(props), opts)
            <==> && h.canon(name) != "" && h.validName(h.canon(name))
                 && opts.allowOverwrite && EnvAllowed(h, root, opts.envUpdates, opts.allowEnvOverwrite)
                 && edited.Some?
                 && SetAccepted(h, FileOf(root), FileOf(edited.value), h.canon(name), opts.envUpdates.Keys,
                                Some(s.Wanted()))
  {
    hide HostOk, Rooted, SetPlan, SetAccepted, FileOf, HasEntry, Spliced, SaveOf, Save.Wanted, IsBlockEntry, BothEdits,
         EnvAllowed, EnvUpdate.IsEnvBlock;
    BothPlan(h, lines, root, name, props, opts.replace, opts.envUpdates);
    EntryThere(h, root, name);
  }

  lemma EntryThere(h: Host, root: Node, name: string)
    requires IsBlockEntry(h, root, name)
    ensures HasEntry(h, root, h.canon(name))
  {
    hide TopAt;
  }

  // ----- what the two blocks hold

  lemma BothOutcome(h: Host, lines: seq<string>, root: Node, name: string, s: Save, updates: map<string, Value>)
    requires s.Valid() && HostOk(h) && Understood(h, lines, root, name, s, updates)
    ensures h.canon(name) != "" && h.validName(h.canon(name))
    ensures h.parse(Spliced(lines, BothEdits(h, lines, root, s, updates))).Some?
    ensures var after := FileOf(h.parse(Spliced(lines, BothEdits(h, lines, root, s, updates))).value);
            && h.took(after, h.canon(name)) == Some(s.Laid())
            && (SetAccepted(h, FileOf(root), after, h.canon(name), updates.Keys, Some(s.Wanted()))
                <==> Faithful(s.c, s.p.val, s.props))
            && (Faithful(s.c, s.p.val, s.props) ==> (Same(s.Laid(), s.Wanted()) <==> !(s.replace && s.props == map[])))
            && EnvUpdate.Holds(h, root, after, updates)
               == Faithful(EnvCtx(h, lines, root), EnvUpdate.EnvBlock(h, root).node, updates)
  {
    hide Save.Valid, HostOk, Rooted, DropConn, DroppedConns, FileOf, Faithful, Spliced, Same, Save.Laid, Save.Wanted,
         DropEnv, SetAccepted, BothEdits, EnvUpdate.IsEnvBlock, EnvUpdate.EnvBlock, EnvUpdate.EnvItems,
         EnvUpdate.EnvWanted, EnvCtx, NestedValue, ItemsMap, Decode;
    LaidIs(s);
    var after := FileOf(h.parse(Spliced(lines, BothEdits(h, lines, root, s, updates))).value);
    TookLaid(h, after, h.canon(name), s.Laid());
    EnvUpdate.EnvDecodes(h, lines, root);
    EnvUpdate.EnvBlockOutcome(h, lines, root, updates);
    var b, m := EnvUpdate.EnvBlock(h, root), ItemsMap(EnvUpdate.EnvItems(h, lines, root, updates));
    DropConnEntry(h.fold, FileOf(root), h.canon(name), b.key, "");
    DropConnEntry(h.fold, after, h.canon(name), b.key, "");
    EnvUpdate.DropsAlike(DropConn(h.fold, FileOf(root), h.canon(name)), b.key, Decode(b.node).entries, m, updates.Keys);
    AcceptedWith(h, FileOf(root), after, h.canon(name), updates.Keys, s.Wanted(), s.Laid());
  }

  lemma AcceptedWith(h: Host, before: File, after: File, canon: string, keys: set<string>, wanted: Value, value: Value)
    requires DropEnv(DropConn(h.fold, before, canon), keys) == DropEnv(DropConn(h.fold, after, canon), keys)
    requires h.took(after, canon) == Some(value)
    ensures SetAccepted(h, before, after, canon, keys, Some(wanted)) <==> (value.Map? ==> Same(value, wanted))
  {
    hide DropConn, DropEnv, Same;
    if Same(value, wanted) { SameSymmetric(value, wanted); }
    if Same(wanted, value) { SameSymmetric(wanted, value); }
  }

  // ----- what becomes of the lines

  /** The edits of a block mapping that are planned under its key. */
  ghost predicate Region(doc: seq<string>, edits: seq<Edit>, a: nat, b: nat, text: seq<string>) {
    a <= b <= |doc| && Keep(edits, |doc|, a, b) && Segment(doc, edits, a, b) == text
  }

  lemma BothRegions(
    doc: seq<string>, x: seq<Edit>, a: nat, b: nat, s: seq<string>, y: seq<Edit>, a2: nat, b2: nat, t: seq<string>)
    requires Region(doc, x, a, b, s) && Region(doc, y, a2, b2, t) && (b < a2 || b2 < a)
    requires Applicable(x + y, |doc|) && NoLateInsert(x + y)
    ensures b < a2 ==> TwoReplaced(doc, a, b, s, a2, b2, t, Spliced(doc, x + y))
    ensures b2 < a ==> TwoReplaced(doc, a2, b2, t, a, b, s, Spliced(doc, x + y))
  {
    hide Segment, Keep, Applicable, NoLateInsert, Spliced, OnePass, Within, EnvText.SameIn;
    SpliceIsOnePass(doc, x + y);
    EnvText.JoinWithin(x, y, |doc|, a, b, a2, b2);
    EnvText.FirstRegion(doc, x, y, a, b, a2, b2);
    if b < a2 {
      EnvText.TwoRegions(doc, x + y, x, a, b, y, a2, b2);
    } else {
      EnvText.TwoRegions(doc, x + y, y, a2, b2, x, a, b);
    }
  }

  lemma MappingRegion(c: Ctx, k: nat, col: nat, n: Node, props: map<string, Value>, order: seq<string>, drop: bool)
    requires Under(c, k, col, n) && VisitsNested(c) && RendersLines(c) && Visits(order, props)
    ensures k + 1 <= PastBlock(c, k, col) && |c.kinds| == |c.doc|
    ensures Region(c.doc, SetEdits(c, k, col, n, props, order, drop), k + 1, PastBlock(c, k, col),
                   TextOf(OutSet(c, k, col, n, props, order, drop)))
  {
    hide Under, VisitsNested, RendersLines, Visits, SetEdits, OutSet, BlockEnd, Segment, Applicable, AllWithin, TextOf;
    SetRegion(c, k, col, n, props, order, drop);
    SetEditsWithin(c, k, col, n, props, order, drop);
    SetEditsApplicable(c, k, col, n, props, order, drop);
  }

  /** The lines of the entry do not reach into those of the env block. */
  lemma RegionsApart(h: Host, lines: seq<string>, root: Node, name: string, props: map<string, Value>, replace: bool)
    requires HostOk(h) && Rooted(lines, root) && IsBlockEntry(h, root, name) && EnvUpdate.IsEnvBlock(h, root)
    ensures var s, b := SaveOf(h, lines, root, name, props, replace), EnvUpdate.EnvBlock(h, root);
            if s.p.line < b.line then BlockEnd(KindsOf(lines), s.p.line, s.col) < b.line else End(lines, b) <= s.p.line
  {
    hide HostOk, Rooted, TopAt, KindsOf, Stands, EntryOrder, EnvName, BlockEnd;
    BlocksApart(h, lines, root);
    TopStands(h, lines, root, "connections");
    TopStands(h, lines, root, EnvName(root));
    var b := ConnsAt(h, root).value;
    EntryUnder(EntryCtx(h, lines, root, replace), b, FindFold(h.fold, b.node.pairs, h.canon(name)));
  }

  lemma EntryRegion(
    h: Host, lines: seq<string>, root: Node, name: string, props: map<string, Value>, replace: bool)
    requires IsBlockEntry(h, root, name) && SaveOf(h, lines, root, name, props, replace).Valid()
    ensures var s := SaveOf(h, lines, root, name, props, replace);
            Region(lines, s.Edits(), s.p.line + 1, BlockEnd(KindsOf(lines), s.p.line, s.col) + 1,
                   EntryLines(h, lines, root, s.p, s.col, props, replace))
  {
    hide Under, VisitsNested, RendersLines, Visits, SetEdits, OutSet, BlockEnd, Region, TextOf, EntryLines, TopAt,
         KindsOf, EntryOrder;
    var s := SaveOf(h, lines, root, name, props, replace);
    MappingRegion(s.c, s.p.line, s.col, s.p.val, s.props, s.order, s.replace);
    EntryLinesAre(h, lines, root, s.p, s.col, props, replace);
  }

  lemma EnvRegion(h: Host, lines: seq<string>, root: Node, updates: map<string, Value>)
    requires HostOk(h) && Rooted(lines, root) && EnvUpdate.IsEnvBlock(h, root)
    ensures var b := EnvUpdate.EnvBlock(h, root);
            Region(lines, EnvOnly(h, lines, root, updates), b.line + 1, End(lines, b),
                   EnvLines(h, lines, root, b, updates))
  {
    hide HostOk, Rooted, EnvUpdate.IsEnvBlock, EnvUpdate.EnvBlock, EnvCtx, Under, VisitsNested, RendersLines, Visits,
         SetEdits, OutSet, PastBlock, End, Region, TextOf, EnvLines;
    EnvUpdate.EnvPlanned(h, lines, root, updates);
    var b := EnvUpdate.EnvBlock(h, root);
    MappingRegion(EnvCtx(h, lines, root), b.line, b.col, b.node, updates, h.sortedKeys(updates.Keys), false);
    EnvLinesAre(h, lines, root, b, updates);
  }

  lemma BothFit(
    h: Host, lines: seq<string>, root: Node, name: string, props: map<string, Value>, replace: bool,
    updates: map<string, Value>)
    requires HostOk(h) && Rooted(lines, root)
    requires IsBlockEntry(h, root, name) && EnvUpdate.IsEnvBlock(h, root) && updates != map[]
    requires !SetGoesLate(h, lines, root, h.canon(name), props, replace, updates)
    ensures var s := SaveOf(h, lines, root, name, props, replace);
            Applicable(BothEdits(h, lines, root, s, updates), |lines|)
              && NoLateInsert(BothEdits(h, lines, root, s, updates))
  {
    hide HostOk, Rooted, IsBlockEntry, EnvUpdate.IsEnvBlock, SaveOf, SetGoesLate, SetPlan, BothEdits, Applicable,
         NoLateInsert;
    BothPlan(h, lines, root, name, props, replace, updates);
    SetPlanApplicable(h, lines, root, h.canon(name), props, replace, updates);
    SetPlanLate(h, lines, root, h.canon(name), props, replace, updates);
  }

  lemma BothWrites(
    h: Host, lines: seq<string>, root: Node, name: string, props: map<string, Value>, replace: bool,
    updates: map<string, Value>)
    requires HostOk(h) && Rooted(lines, root)
    requires IsBlockEntry(h, root, name) && EnvUpdate.IsEnvBlock(h, root) && updates != map[]
    requires !SetGoesLate(h, lines, root, h.canon(name), props, replace, updates)
    ensures var s := SaveOf(h, lines, root, name, props, replace);
            Writes(h, lines, root, name, props, replace, updates, Spliced(lines, BothEdits(h, lines, root, s, updates)))
  {
    hide HostOk, Rooted, IsBlockEntry, EnvUpdate.IsEnvBlock, EnvUpdate.EnvBlock, EntryOf, EntryCol, EnvCtx,
         SetGoesLate, SetPlan, SetEdits, Save.Edits, Save.Valid, EnvLines, EntryLines, BlockEnd, KindsOf, End, Region,
         Applicable, NoLateInsert, Spliced, TwoReplaced, EntryOrder;
    var s, b := SaveOf(h, lines, root, name, props, replace), EnvUpdate.EnvBlock(h, root);
    SaveValid(h, lines, root, name, props, replace);
    BothFit(h, lines, root, name, props, replace, updates);
    RegionsApart(h, lines, root, name, props, replace);
    EntryRegion(h, lines, root, name, props, replace);
    EnvRegion(h, lines, root, updates);
    BothRegions(lines, s.Edits(), s.p.line + 1, BlockEnd(KindsOf(lines), s.p.line, s.col) + 1,
                EntryLines(h, lines, root, s.p, s.col, props, replace),
                EnvOnly(h, lines, root, updates), b.line + 1, End(lines, b), EnvLines(h, lines, root, b, updates));
  }
}
