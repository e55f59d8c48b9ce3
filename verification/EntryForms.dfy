/** What the editor makes of names, blocks and entries in each of the forms a
    file can have them in. */
module EntryForms {
  import opened Text
  import opened Sequences
  import opened Values
  import opened LineGeometry
  import opened LineSplice
  import opened EnvFile
  import opened MappingEdits
  import opened MappingText
  import opened MappingValues
  import opened EnvPlan
  import opened EnvSplice
  import opened EnvEditor

  // ----- the blocks and the entries of a file

  lemma FileLookup(lines: seq<string>, root: Node, key: string)
    requires Rooted(lines, root)
    ensures key in FileOf(root) <==> root.Block? && Has(root.pairs, key)
    ensures key in FileOf(root) ==> FileOf(root)[key] == Decode(root.pairs[Find(root.pairs, key)].val)
  {
    if root.Block? { DecodeLookup(root, 0, key); }
  }

  /** The env block goes by its old name exactly in a file that has only that. */
  lemma EnvNameIs(lines: seq<string>, root: Node)
    requires Rooted(lines, root)
    ensures EnvName(root) == if "env" !in FileOf(root) && "variables" in FileOf(root) then "variables" else "env"
  {
    FileLookup(lines, root, "env");
    FileLookup(lines, root, "variables");
  }

  /** Writing env keys is allowed exactly if the keys are proper and, without
      leave to overwrite, none that the file's env block holds would change. */
  lemma EnvAllowedIs(h: Host, lines: seq<string>, root: Node, updates: map<string, Value>, allowOverwrite: bool)
    requires Rooted(lines, root)
    ensures EnvAllowed(h, root, updates, allowOverwrite) <==>
              forall k | k in updates ::
                h.validEnvKey(k)
                && (allowOverwrite || match EntryAt(FileOf(root), EnvName(root), k)
                                      case None => true
                                      case Some(v) => Same(v, updates[k]))
  {
    hide Same, Decode;
    FileLookup(lines, root, EnvName(root));
  }

  /** A file has a connection exactly if its connections block, however its name
      is spelled, holds a key that folds to the name. */
  lemma HasEntryIs(h: Host, lines: seq<string>, root: Node, name: string)
    requires Rooted(lines, root)
    ensures HasEntry(h, root, name) <==>
              match ConnsAt(h, root)
              case None => false
              case Some(b) =>
                Decode(b.node).Map? && exists k :: k in Decode(b.node).entries && h.fold(k) == h.fold(name)
  {
    hide TopAt;
    if ConnsAt(h, root).Some? && ConnsAt(h, root).value.node.Block? {
      TopStands(h, lines, root, "connections");
      var b := ConnsAt(h, root).value;
      var i := FindFold(h.fold, b.node.pairs, name);
      forall k ensures k in Decode(b.node).entries <==> Has(b.node.pairs, k) { DecodeLookup(b.node, 0, k); }
      hide Decode, Find;
      if i < |b.node.pairs| { FindIs(b.node.pairs, i); }
      forall k | k in Decode(b.node).entries && h.fold(k) == h.fold(name) ensures i < |b.node.pairs| {
        assert b.node.pairs[Find(b.node.pairs, k)].key == k;
      }
    }
  }

  /** The indentation step of a file is that of its first nested mapping, kept
      between two and nine; two where there is none. */
  lemma IndentUnitIs(lines: seq<string>, root: Node)
    requires Rooted(lines, root) && root.Block?
    ensures 2 <= IndentUnit(root) <= 9
    ensures (forall i | 0 <= i < |root.pairs| :: !root.pairs[i].val.Block?) ==> IndentUnit(root) == 2
    ensures forall i | 0 <= i < |root.pairs| && root.pairs[i].val.Block?
                       && (forall j | 0 <= j < i :: !root.pairs[j].val.Block?) ::
              var step := root.pairs[i].val.col - root.col;
              step > 0 && IndentUnit(root) == if step < 2 then 2 else if step > 9 then 9 else step
  {
    var ks := KindsOf(lines);
    forall i | 0 <= i < |root.pairs| ensures root.pairs[i].val.Block? ==> root.pairs[i].val.col > root.col {
      assert NestedAt(ks, root.pairs[i], root.col);
    }
    hide Rooted, KindsOf, FirstStep;
    if forall i | 0 <= i < |root.pairs| :: !root.pairs[i].val.Block? {
      FirstStepAt(root.pairs, root.col, |root.pairs|);
    }
    forall i | 0 <= i < |root.pairs| && root.pairs[i].val.Block? && (forall j | 0 <= j < i :: !root.pairs[j].val.Block?)
      ensures FirstStep(root.pairs, root.col) == root.pairs[i].val.col - root.col
    {
      FirstStepAt(root.pairs, root.col, i);
    }
  }

  lemma {:induction false} FirstStepAt(pairs: seq<Pair>, col: nat, i: nat)
    requires i <= |pairs| && forall j | 0 <= j < i :: !pairs[j].val.Block?
    ensures i == |pairs| ==> FirstStep(pairs, col) == 0
    ensures i < |pairs| && pairs[i].val.Block? && pairs[i].val.col > col ==>
              FirstStep(pairs, col) == pairs[i].val.col - col
  {
    if i > 0 { FirstStepAt(pairs[1..], col, i - 1); }
  }

  // ----- a new connection

  /** A new connection is written as a text exactly if it has a url and nothing
      else, and read again it has the props it was written for. */
  lemma NewEntryReads(props: map<string, Value>, inline: bool, flow: bool)
    ensures NewEntry(props).Scalar? <==> props.Keys == {"url"}
    ensures (forall url | props == map["url" := Scalar("!!str", url)] && url != "" ::
               NewEntry(props) == Scalar("!!str", url)
               && LeafProps(Leaf(NewEntry(props), inline, url, flow)) == props)
    ensures props.Keys != {"url"} ==>
              NewEntry(props) == Map(props) && LeafProps(Leaf(NewEntry(props), inline, "", flow)) == props
  {
    forall url | props == map["url" := Scalar("!!str", url)] ensures props.Keys == {"url"} {
    }
  }

  /** In a block of connections the new one comes last, behind a blank line if
      one stands above some entry but the first. */
  lemma NewInBlock(h: Host, lines: seq<string>, root: Node, name: string, props: map<string, Value>, replace: bool)
    requires Rooted(lines, root) && ConnsAt(h, root).Some? && ConnsAt(h, root).value.node.Block?
    requires !HasEntry(h, root, name)
    ensures var b := ConnsAt(h, root).value;
            var past, plan := End(lines, b), SetPlan(h, lines, root, name, props, replace, map[]);
            var pair := h.renderPair(Annotated, IndentUnit(root), name, NewEntry(props), b.node.col);
            && plan.Some? && plan.value.expected == Some(Map(props)) && past <= |lines|
            && Spliced(lines, plan.value.edits)
               == lines[..past] + (if SpacedPairs(KindsOf(lines), b.node) then [""] + pair else pair) + lines[past..]
  {
    hide Rooted, TopAt, Spliced, SpacedPairs, KindsOf, NewEntry, IndentUnit, Stands;
    TopStands(h, lines, root, "connections");
    var b := ConnsAt(h, root).value;
    var past := End(lines, b);
    var pair := h.renderPair(Annotated, IndentUnit(root), name, NewEntry(props), b.node.col);
    SpliceOne(lines, Edit(past, past, if SpacedPairs(KindsOf(lines), b.node) then [""] + pair else pair));
  }

  /** A block without a value, or with an empty one. */
  predicate NoValue(n: Node) {
    n.Leaf? && match n.value
               case Map(m) => m == map[]
               case Scalar(tag, _) => tag == "!!null"
               case List(_) => false
  }

  /** Such a block takes the new connection one step further in, below its
      comments. */
  lemma NewInEmpty(h: Host, lines: seq<string>, root: Node, name: string, props: map<string, Value>, replace: bool)
    requires Rooted(lines, root) && ConnsAt(h, root).Some? && NoValue(ConnsAt(h, root).value.node)
    ensures var b := ConnsAt(h, root).value;
            b.line < |lines| &&
            var pair := h.renderPair(Annotated, IndentUnit(root), name, NewEntry(props), b.col + IndentUnit(root));
            SetPlan(h, lines, root, name, props, replace, map[])
            == Some(Plan([Edit(b.line, b.line + 1, [h.cleared(lines[b.line])]),
                          Edit(End(lines, b), End(lines, b), pair)],
                         Some(Map(props))))
  {
    hide Rooted, TopAt, KindsOf, NewEntry, IndentUnit, Stands, End;
    TopStands(h, lines, root, "connections");
  }

  // ----- an entry that is no block mapping

  /** What an entry holds that is a url, a mapping in flow style, or nothing. */
  function Holds(n: Node): map<string, Value>
    requires n.Leaf?
  {
    match n.value
    case Map(m) => m
    case Scalar(_, _) => if n.raw == "" then map[] else map["url" := Scalar("!!str", n.raw)]
    case List(_) => map[]
  }

  /** Such an entry is written again with what it must hold, in flow style if it
      was; but where all that is saved over a url is another one, and its line
      can hold it, only that line changes. */
  lemma LeafSaved(
    h: Host, lines: seq<string>, root: Node, p: Pair, col: nat, props: map<string, Value>, replace: bool)
    requires p.line < |lines| && p.val.Leaf?
    ensures var line := if p.val.value.Scalar? && p.val.raw != "" && props.Keys == {"url"} && p.val.inline
                           && ValueEnd(KindsOf(lines), p.line, col) == p.line
                        then h.scalarLine(false, lines[p.line], props["url"]) else None;
            var holds := Map(if replace then props else Merge(Map(Holds(p.val)), Map(props)).entries);
            var style := if p.val.value.Map? && p.val.flow then Flow else Annotated;
            UpdatePlan(h, lines, root, p, col, props, replace)
            == if line.Some? then Plan([Edit(p.line, p.line + 1, [line.value])], None)
               else Plan([Edit(p.line, ValueEnd(KindsOf(lines), p.line, col) + 1,
                               h.renderPair(style, IndentUnit(root), p.key, holds, col))], Some(holds))
  {
    hide KindsOf, IndentUnit, Merge;
  }

  /** A url that gets other props becomes one of them. */
  lemma UrlGrows(n: Node, props: map<string, Value>)
    requires n.Leaf? && n.value.Scalar? && n.raw != ""
    ensures Merge(Map(Holds(n)), Map(props)) == Map(map["url" := Scalar("!!str", n.raw)] + props)
  {
    var m, w := Merge(Map(Holds(n)), Map(props)), map["url" := Scalar("!!str", n.raw)] + props;
    assert m.entries.Keys == w.Keys;
    forall k | k in w ensures m.entries[k] == w[k] {
    }
    assert m.entries == w;
  }

  // ----- an env block that is no block mapping

  /** Env keys are written below an env block without a value; one in flow style
      is written again. */
  lemma EnvLeafSaved(h: Host, lines: seq<string>, root: Node, updates: map<string, Value>)
    requires Rooted(lines, root) && EnvAt(h, root).Some? && EnvAt(h, root).value.node.Leaf?
    ensures var b := EnvAt(h, root).value;
            b.line < |lines| &&
            EnvEdits(h, lines, root, updates) ==
              if NoValue(b.node) then
                var block := h.renderPair(Plain, IndentUnit(root), b.key, Map(updates), b.col);
                Some([Edit(b.line, b.line + 1, [h.cleared(lines[b.line])]),
                      Edit(End(lines, b), End(lines, b), if block == [] then [] else block[1..])])
              else match b.node.value
                case Map(m) =>
                  Some([Edit(b.line, ValueEnd(KindsOf(lines), b.line, b.col) + 1,
                             h.renderPair(Plain, IndentUnit(root), b.key, Map(m + updates), b.col))])
                case _ => None
  {
    hide Rooted, TopAt, KindsOf, IndentUnit, Stands, BlockEnd, EnvName;
    TopStands(h, lines, root, EnvName(root));
  }
}
