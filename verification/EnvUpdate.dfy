/** Writing keys under an env block that is a block mapping. The comparison
    after the edit leaves the named keys out, so it does not look at what they
    hold; what a save that goes through leaves is stated here. */
module EnvUpdate {
  import opened Text
  import opened Values
  import opened LineGeometry
  import opened LineSplice
  import opened EnvFile
  import opened MappingEdits
  import opened MappingText
  import opened MappingOrder
  import opened MappingValues
  import opened MappingUpdate
  import opened EnvPlan
  import opened EnvSplice
  import opened EnvEditor
  import opened SaveText

  /** The env block is a block mapping under one of its two proper names. */
  predicate IsEnvBlock(h: Host, root: Node) {
    match EnvAt(h, root)
    case None => false
    case Some(b) => b.node.Block? && (b.key == "env" || b.key == "variables")
  }

  function EnvBlock(h: Host, root: Node): (b: Section)
    requires IsEnvBlock(h, root)
    ensures b.node.Block? && (b.key == "env" || b.key == "variables")
  {
    EnvAt(h, root).value
  }

  function EnvItems(h: Host, lines: seq<string>, root: Node, updates: map<string, Value>): seq<Item>
    requires IsEnvBlock(h, root)
  {
    var b := EnvBlock(h, root);
    OutSet(EnvCtx(h, lines, root), b.line, b.col, b.node, updates, h.sortedKeys(updates.Keys), false)
  }

  /** What the block must hold: each update under its key, the rest as it was. */
  function EnvWanted(h: Host, root: Node, updates: map<string, Value>): Value
    requires IsEnvBlock(h, root)
  {
    MergeTop(Decode(EnvBlock(h, root).node), Map(updates))
  }

  /** The parser reads the edited lines as they are laid out: the env block
      anew, everything else as before. */
  ghost predicate Understood(h: Host, lines: seq<string>, root: Node, updates: map<string, Value>) {
    IsEnvBlock(h, root) && Rooted(lines, root) &&
    var plan := EnvEdits(h, lines, root, updates);
    && plan.Some? && h.parse(Spliced(lines, plan.value)).Some?
    && FileOf(h.parse(Spliced(lines, plan.value)).value)
       == FileOf(root)[EnvBlock(h, root).key := NestedValue(ItemsMap(EnvItems(h, lines, root, updates)))]
  }

  /** The lines of the block are those of the updated mapping. */
  ghost predicate Writes(h: Host, lines: seq<string>, root: Node, updates: map<string, Value>, out: seq<string>) {
    IsEnvBlock(h, root) &&
    var b := EnvBlock(h, root);
    && b.line < End(lines, b) <= |lines|
    && out == lines[..b.line + 1] + (EnvLines(h, lines, root, b, updates) + lines[End(lines, b)..])
  }

  /** Writes env keys. Where the parser reads the new lines as they are laid
      out, the save goes through whenever the keys are allowed, and the block
      then holds the updates exactly if no nested mapping that changes is set
      to the empty map. */
  method Update(e: EnvFileEditor, updates: map<string, Value>, allowOverwrite: bool) returns (ok: bool)
    requires e.Valid() && IsEnvBlock(e.h, e.root) && updates != map[]
    modifies e`lines, e`root, e`endNL
    ensures e.Valid()
    ensures Rooted(old(e.lines), old(e.root))
    ensures ok <==> SetEnvSucceeds(e.h, old(e.lines), old(e.root), updates, allowOverwrite)
    ensures !ok ==> e.lines == old(e.lines) && e.root == old(e.root) && e.endNL == old(e.endNL)
    ensures ok ==> Keeps(e.h.fold, FileOf(old(e.root)), FileOf(e.root), {}, updates.Keys)
    ensures ok && !EnvGoesLate(e.h, old(e.lines), old(e.root), updates) ==>
              Writes(e.h, old(e.lines), old(e.root), updates, e.lines)
    ensures Understood(e.h, old(e.lines), old(e.root), updates) ==>
              && (ok <==> EnvAllowed(e.h, old(e.root), updates, allowOverwrite))
              && (ok ==> Holds(e.h, old(e.root), FileOf(e.root), updates)
                         == Faithful(EnvCtx(e.h, old(e.lines), old(e.root)), EnvBlock(e.h, old(e.root)).node, updates))
  {
    hide *;
    e.RootedHere();
    HostHere(e);
    ghost var doc, root := e.lines, e.root;
    EnvPlanned(e.h, doc, root, updates);
    ok := e.SetEnv(updates, allowOverwrite);
    ParsedHere(e);
    Succeeds(e.h, doc, root, updates, allowOverwrite);
    if !EnvGoesLate(e.h, doc, root, updates) { EnvWrites(e.h, doc, root, updates); }
    if Understood(e.h, doc, root, updates) { EnvOutcome(e.h, doc, root, updates); }
  }

  /** The block holds the updates. */
  predicate Holds(h: Host, root: Node, after: File, updates: map<string, Value>) {
    IsEnvBlock(h, root) && EnvBlock(h, root).key in after
    && Same(after[EnvBlock(h, root).key], EnvWanted(h, root, updates))
  }

  lemma ParsedHere(e: EnvFileEditor)
    requires e.Valid()
    ensures e.h.parse(e.lines) == Some(e.root)
  {
    hide HostOk;
  }

  lemma HostHere(e: EnvFileEditor)
    requires e.Valid()
    ensures HostOk(e.h)
  {
    hide HostOk;
  }

  lemma EnvPlanned(h: Host, lines: seq<string>, root: Node, updates: map<string, Value>)
    requires HostOk(h) && Rooted(lines, root) && IsEnvBlock(h, root)
    ensures var c, b := EnvCtx(h, lines, root), EnvBlock(h, root);
            && EnvEdits(h, lines, root, updates)
               == Some(SetEdits(c, b.line, b.col, b.node, updates, h.sortedKeys(updates.Keys), false))
            && Under(c, b.line, b.col, b.node) && VisitsNested(c) && RendersLines(c)
               && Visits(h.sortedKeys(updates.Keys), updates)
            && PastBlock(c, b.line, b.col) == End(lines, b) && c.doc == lines
  {
    hide Rooted, TopAt, SetEdits, EnvName, VisitsNested, RendersLines, Visits, BlockUnder, KindsOf, BlockEnd;
    TopStands(h, lines, root, EnvName(root));
    EnvCtxOk(h, lines, root);
    SortedVisits(h, updates);
    BlockUnderCtx(EnvCtx(h, lines, root), EnvBlock(h, root));
  }

  lemma Succeeds(h: Host, lines: seq<string>, root: Node, updates: map<string, Value>, allowOverwrite: bool)
    requires Rooted(lines, root) && EnvEdits(h, lines, root, updates).Some?
    ensures var edited := h.parse(Spliced(lines, EnvEdits(h, lines, root, updates).value));
            SetEnvSucceeds(h, lines, root, updates, allowOverwrite)
            <==> EnvAllowed(h, root, updates, allowOverwrite) && edited.Some?
                 && DropEnv(FileOf(root), updates.Keys) == DropEnv(FileOf(edited.value), updates.Keys)
  {
    hide Rooted, EnvEdits, EnvAllowed, DropEnv, FileOf, Spliced;
  }

  lemma EnvWrites(h: Host, lines: seq<string>, root: Node, updates: map<string, Value>)
    requires HostOk(h) && Rooted(lines, root) && IsEnvBlock(h, root) && !EnvGoesLate(h, lines, root, updates)
    ensures EnvEdits(h, lines, root, updates).Some?
    ensures Writes(h, lines, root, updates, Spliced(lines, EnvEdits(h, lines, root, updates).value))
  {
    EnvPlanned(h, lines, root, updates);
    var c, b, order := EnvCtx(h, lines, root), EnvBlock(h, root), h.sortedKeys(updates.Keys);
    NotLate(h, lines, root, updates);
    hide *;
    UpdateInPlace(c, b.line, b.col, b.node, updates, order, false);
    EnvLinesAre(h, lines, root, b, updates);
    WritesIs(h, lines, root, updates, Spliced(lines, EnvEdits(h, lines, root, updates).value));
  }

  lemma NotLate(h: Host, lines: seq<string>, root: Node, updates: map<string, Value>)
    requires IsEnvBlock(h, root) && !EnvGoesLate(h, lines, root, updates)
    ensures !GoesLate(EnvCtx(h, lines, root), EnvBlock(h, root).node, updates, h.sortedKeys(updates.Keys))
  {
    hide GoesLate, TopAt;
  }

  lemma WritesIs(h: Host, lines: seq<string>, root: Node, updates: map<string, Value>, out: seq<string>)
    requires IsEnvBlock(h, root)
    requires var b := EnvBlock(h, root);
             var c := EnvCtx(h, lines, root);
             && b.line < PastBlock(c, b.line, b.col) <= |lines| && |c.kinds| == |c.doc|
                && PastBlock(c, b.line, b.col) == End(lines, b)
             && out == lines[..b.line + 1]
                       + (EnvLines(h, lines, root, b, updates)
                          + lines[PastBlock(c, b.line, b.col)..])
    ensures Writes(h, lines, root, updates, out)
  {
    hide EnvLines, KindsOf, BlockEnd;
  }

  /** What the save leaves where the new lines are understood. */
  lemma EnvOutcome(h: Host, lines: seq<string>, root: Node, updates: map<string, Value>)
    requires HostOk(h) && Understood(h, lines, root, updates)
    ensures EnvEdits(h, lines, root, updates).Some?
            && h.parse(Spliced(lines, EnvEdits(h, lines, root, updates).value)).Some?
    ensures var after := FileOf(h.parse(Spliced(lines, EnvEdits(h, lines, root, updates).value)).value);
            && DropEnv(FileOf(root), updates.Keys) == DropEnv(after, updates.Keys)
            && Holds(h, root, after, updates) == Faithful(EnvCtx(h, lines, root), EnvBlock(h, root).node, updates)
  {
    hide HostOk, Rooted, EnvItems, Spliced, EnvEdits, IsEnvBlock, EnvBlock, EnvWanted, Faithful, Decode, ItemsMap,
         DropEnv, FileOf, Same, EnvCtx, NestedValue;
    EnvDecodes(h, lines, root);
    EnvBlockOutcome(h, lines, root, updates);
    var b := EnvBlock(h, root);
    DropsAlike(FileOf(root), b.key, Decode(b.node).entries, ItemsMap(EnvItems(h, lines, root, updates)), updates.Keys);
  }

  lemma EnvBlockOutcome(h: Host, lines: seq<string>, root: Node, updates: map<string, Value>)
    requires HostOk(h) && Rooted(lines, root) && IsEnvBlock(h, root)
    ensures Decode(EnvBlock(h, root).node).Map?
    ensures var m, n := ItemsMap(EnvItems(h, lines, root, updates)), EnvBlock(h, root).node;
            && NestedValue(m) == Map(m)
            && (Same(Map(m), EnvWanted(h, root, updates)) <==> Faithful(EnvCtx(h, lines, root), n, updates))
            && m - updates.Keys == Decode(n).entries - updates.Keys
  {
    EnvPlanned(h, lines, root, updates);
    hide HostOk, Rooted, EnvEdits, IsEnvBlock, EnvBlock, Under, VisitsNested, RendersLines, Visits, SetEdits, OutSet,
         Faithful, Decode, ItemsMap, Same, KindsOf, MergeTop, NestedValue;
    var c, b := EnvCtx(h, lines, root), EnvBlock(h, root);
    BlockOutcome(c, b.line, b.col, b.node, updates, h.sortedKeys(updates.Keys));
  }

  /** The updated mapping is a mapping, holds the updates exactly if they are
      faithful, and holds its other keys as before. */
  lemma BlockOutcome(c: Ctx, k: nat, col: nat, n: Node, updates: map<string, Value>, order: seq<string>)
    requires Under(c, k, col, n) && VisitsNested(c) && c.nestedReplace && Visits(order, updates)
    ensures Decode(n).Map?
    ensures var m := ItemsMap(OutSet(c, k, col, n, updates, order, false));
            && NestedValue(m) == Map(m)
            && (Same(Map(m), MergeTop(Decode(n), Map(updates))) <==> Faithful(c, n, updates))
            && m - updates.Keys == Decode(n).entries - updates.Keys
  {
    DecodesToMap(n);
    LeftWithNothing(c, k, col, n, updates, order, false);
    SetValues(c, k, col, n, updates, order, false);
    OthersStay(c, k, col, n, updates, order, ItemsMap(OutSet(c, k, col, n, updates, order, false)));
    hide Under, VisitsNested, Visits, OutSet, ItemsMap, Faithful, Same, Decode, MergeTop;
  }

  lemma DecodesToMap(n: Node)
    requires n.Block?
    ensures Decode(n).Map? && Decode(n) == Map(DecodePairs(n, 0))
  {
  }

  /** The file holds the block's value under its key. */
  lemma EnvDecodes(h: Host, lines: seq<string>, root: Node)
    requires Rooted(lines, root) && IsEnvBlock(h, root)
    ensures var b := EnvBlock(h, root); b.key in FileOf(root) && FileOf(root)[b.key] == Decode(b.node)
  {
    var i := FindFold(h.fold, root.pairs, EnvName(root));
    assert DistinctKeys(root.pairs);
    FindIs(root.pairs, i);
    DecodeLookup(root, 0, root.pairs[i].key);
  }

  /** Keys that are not updated keep their value exactly. */
  lemma OthersStay(
    c: Ctx, k: nat, col: nat, n: Node, updates: map<string, Value>, order: seq<string>, m: map<string, Value>)
    requires Under(c, k, col, n) && Visits(order, updates) && m == ItemsMap(OutSet(c, k, col, n, updates, order, false))
    ensures m - updates.Keys == DecodePairs(n, 0) - updates.Keys
  {
    var d := DecodePairs(n, 0);
    forall key | key !in updates ensures Lookup(m, key) == Lookup(d, key) {
      OutSetLookup(c, k, col, n, updates, order, false, key);
      DecodeLookup(n, 0, key);
    }
    hide Under, OutSet, ItemsMap, DecodePairs, Visits;
    var x, y := m - updates.Keys, d - updates.Keys;
    forall key ensures Lookup(x, key) == Lookup(y, key) {
      if key !in updates { assert Lookup(m, key) == Lookup(d, key); }
    }
    SameLookups(x, y);
  }

  lemma SameLookups(x: map<string, Value>, y: map<string, Value>)
    requires forall key :: Lookup(x, key) == Lookup(y, key)
    ensures x == y
  {
    forall key ensures key in x <==> key in y { assert Lookup(x, key) == Lookup(y, key); }
    forall key | key in x ensures x[key] == y[key] { assert Lookup(x, key) == Lookup(y, key); }
    assert x.Keys == y.Keys;
  }

  /** The two files with this block put in, or taken out, are one file. */
  lemma SameWith(file: File, block: string, v: Value, w: Value)
    ensures file[block := v][block := w] == file[block := w]
    ensures file[block := v] - {block} == file - {block}
  {
  }

  lemma DropsAlikeIn(file: File, block: string, m: map<string, Value>, m2: map<string, Value>, keys: set<string>)
    requires block in file && file[block] == Map(m) && m - keys == m2 - keys
    ensures DropEnvBlock(file, block, keys) == DropEnvBlock(file[block := Map(m2)], block, keys)
  {
    SameWith(file, block, Map(m2), Map(m - keys));
  }

  lemma DropsAlike(file: File, block: string, m: map<string, Value>, m2: map<string, Value>, keys: set<string>)
    requires block == "env" || block == "variables"
    requires block in file && file[block] == Map(m) && m - keys == m2 - keys
    ensures DropEnv(file, keys) == DropEnv(file[block := Map(m2)], keys)
  {
    hide DropEnvBlock;
    if block == "env" {
      DropsAlikeIn(file, block, m, m2, keys);
    } else {
      DropsApart(file, Map(m2), keys);
      DropsAlikeIn(DropEnvBlock(file, "env", keys), block, m, m2, keys);
    }
  }

  lemma DropsApart(file: File, v: Value, keys: set<string>)
    requires "variables" in file
    ensures DropEnvBlock(file["variables" := v], "env", keys) == DropEnvBlock(file, "env", keys)["variables" := v]
    ensures "variables" in DropEnvBlock(file, "env", keys)
            && DropEnvBlock(file, "env", keys)["variables"] == file["variables"]
  {
    assert file["variables" := v] - {"env"} == (file - {"env"})["variables" := v];
    if "env" in file && file["env"].Map? {
      var rest := Map(file["env"].entries - keys);
      assert file["variables" := v]["env" := rest] == file["env" := rest]["variables" := v];
    }
  }
}
