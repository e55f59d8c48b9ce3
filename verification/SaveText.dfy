/** The lines of a mapping that is saved over, told from the file, the encoder
    and the new values alone. */
module SaveText {
  import opened Text
  import opened Sequences
  import opened Values
  import opened LineGeometry
  import opened LineSplice
  import opened MappingEdits
  import opened MappingText
  import opened MappingValues
  import opened EnvPlan

  /** How the values of a mapping are written: by this encoder, indented by
      unit, and, inside a connection, with a comment at new references; replace
      makes a map value take the place of a nested mapping. */
  datatype Look = Look(h: Host, lines: seq<string>, unit: nat, conn: bool, replace: bool)

  function StyleOf(w: Look): Style {
    if w.conn then Annotated else Plain
  }

  function Concat(texts: seq<seq<string>>): seq<string> {
    if texts == [] then [] else texts[0] + Concat(texts[1..])
  }

  /** Just past the value of a key, and past the comments that belong to it. */
  function Past(w: Look, line: nat, col: nat): (nat, nat) {
    (ValueEnd(KindsOf(w.lines), line, col) + 1, BlockEnd(KindsOf(w.lines), line, col) + 1)
  }

  function HeadOf(w: Look, line: nat, col: nat): nat {
    if line <= |w.lines| then HeadStart(KindsOf(w.lines), line, col) else line
  }

  /** What a key must hold after v is saved over cur. */
  function MustHold(replace: bool, cur: Value, v: Value): Value {
    if !replace && cur.Map? && v.Map? then Merge(cur, v) else v
  }

  /** The line of the key with the new scalar, where it can hold it. */
  function ScalarOf(w: Look, p: Pair, col: nat, v: Value): Option<string> {
    if p.val.Leaf? && p.val.inline && p.line < |w.lines| && Past(w, p.line, col).0 == p.line + 1
    then w.h.scalarLine(w.conn, w.lines[p.line], v) else None
  }

  /** The lines that take the place of the value: the key's line with the new
      scalar, or the pair with what it must hold. */
  function Again(w: Look, p: Pair, col: nat, v: Value): seq<string> {
    match ScalarOf(w, p, col, v)
    case Some(line) => [line]
    case None =>
      var holds := MustHold(w.replace, Decode(p.val), v);
      var flow := p.val.Leaf? && p.val.flow && (holds.Map? || holds.List?);
      w.h.renderPair(if flow then Flow else StyleOf(w), w.unit, p.key, holds, col)
  }

  /** The lines of a pair, from its comments on, after v is set on its key. */
  function PairAfter(w: Look, p: Pair, col: nat, v: Value): seq<string>
    decreases p, 0
  {
    var head, (e, b) := HeadOf(w, p.line, col), Past(w, p.line, col);
    if Same(Decode(p.val), v) then Cut(w.lines, head, b)
    else if v.Map? && p.val.Block? then
      Cut(w.lines, head, p.line + 1)
      + MappingAfter(w, p.line, col, p.val, v.entries, w.h.sortedKeys(v.entries.Keys), w.replace)
    else Cut(w.lines, head, p.line) + Again(w, p, col, v) + Cut(w.lines, e, b)
  }

  /** Where the pair before the i-th ended. */
  function FromOf(w: Look, k: nat, n: Node, i: nat): nat
    requires n.Block? && i <= |n.pairs|
  {
    if i == 0 then k + 1 else Past(w, n.pairs[i - 1].line, n.col).1
  }

  /** The lines between the pair before and this one, and its own. */
  function Kept(w: Look, k: nat, n: Node, props: map<string, Value>, drop: bool, i: nat): seq<string>
    requires n.Block? && i < |n.pairs|
    decreases n, 0
  {
    var p := n.pairs[i];
    var from := FromOf(w, k, n, i);
    var (e, b) := Past(w, p.line, n.col);
    Cut(w.lines, from, HeadOf(w, p.line, n.col))
    + if p.key in props then PairAfter(w, p, n.col, props[p.key])
      else Cut(w.lines, if drop then e else HeadOf(w, p.line, n.col), b)
  }

  /** The lines of the mapping under the key on line k after props are set on
      it: its pairs in their order, and then each key it lacks, in the order
      visited, with the value passed for it. */
  function MappingAfter(
    w: Look, k: nat, col: nat, n: Node, props: map<string, Value>, order: seq<string>, drop: bool): seq<string>
    requires n.Block?
    decreases n, 1
  {
    var added := AddedKeys(n.pairs, props, order);
    Concat(seq(|n.pairs|, i requires 0 <= i < |n.pairs| => Kept(w, k, n, props, drop, i)))
    + Cut(w.lines, FromOf(w, k, n, |n.pairs|), Past(w, k, col).1)
    + Concat(seq(|added|, i requires 0 <= i < |added| => NewLines(w, n.col, props, added[i])))
  }

  function NewLines(w: Look, col: nat, props: map<string, Value>, key: string): seq<string> {
    if key in props then w.h.renderPair(StyleOf(w), w.unit, key, props[key], col) else []
  }

  /** The lines below the key of an entry after a save: its keys are visited in
      the order of a connection that holds what the entry must. */
  function EntryLines(
    h: Host, lines: seq<string>, root: Node, p: Pair, col: nat, props: map<string, Value>, replace: bool): seq<string>
    requires p.val.Block?
  {
    var holds := if replace then Map(props) else Merge(Decode(p.val), Map(props));
    MappingAfter(Look(h, lines, IndentUnit(root), true, replace), p.line, col, p.val, props,
                 ConnOrder(h, holds.entries), replace)
  }

  /** The lines below the key of the env block after updates are written: each
      replaces what its key held, and keys are visited by name. */
  function EnvLines(h: Host, lines: seq<string>, root: Node, b: Section, updates: map<string, Value>): seq<string>
    requires b.node.Block?
  {
    MappingAfter(Look(h, lines, IndentUnit(root), false, true), b.line, b.col, b.node, updates,
                 h.sortedKeys(updates.Keys), false)
  }

  // ----- the edits lead to these lines

  ghost function KeptFrom(w: Look, k: nat, n: Node, props: map<string, Value>, drop: bool, i: nat): seq<seq<string>>
    requires n.Block? && i <= |n.pairs|
  {
    seq(|n.pairs| - i, j requires 0 <= j < |n.pairs| - i => Kept(w, k, n, props, drop, i + j))
  }

  /** The parts of the editor write as the look says. */
  ghost predicate Writes(c: Ctx, w: Look) {
    && c.doc == w.lines && c.kinds == KindsOf(w.lines) && c.nestedReplace == w.replace
    && (forall keys :: c.nestedOrder(keys) == w.h.sortedKeys(keys))
    && (forall line, v :: c.scalarLine(line, v) == w.h.scalarLine(w.conn, line, v))
    && (forall key, v, col :: c.renderPair(key, v, col) == w.h.renderPair(StyleOf(w), w.unit, key, v, col))
    && (forall key, v, col :: c.renderFlow(key, v, col) == w.h.renderPair(Flow, w.unit, key, v, col))
  }

  lemma EntryWrites(h: Host, lines: seq<string>, root: Node, replace: bool)
    ensures Writes(EntryCtx(h, lines, root, replace), Look(h, lines, IndentUnit(root), true, replace))
  {
    hide IndentUnit, KindsOf;
  }

  lemma EnvWrites(h: Host, lines: seq<string>, root: Node)
    ensures Writes(EnvCtx(h, lines, root), Look(h, lines, IndentUnit(root), false, true))
  {
    hide IndentUnit, KindsOf;
  }

  lemma {:induction false} AddedIs(c: Ctx, w: Look, col: nat, props: map<string, Value>, keys: seq<string>)
    requires Writes(c, w)
    ensures TextOf(AddedItems(c, col, props, keys))
         == Concat(seq(|keys|, i requires 0 <= i < |keys| => NewLines(w, col, props, keys[i])))
  {
    if keys != [] {
      var rest := keys[1..];
      AddedIs(c, w, col, props, rest);
      var texts := seq(|keys|, i requires 0 <= i < |keys| => NewLines(w, col, props, keys[i]));
      assert texts[1..] == seq(|rest|, i requires 0 <= i < |rest| => NewLines(w, col, props, rest[i]));
      hide Writes, Concat;
      AddedHead(c, w, col, props, keys[0], AddedItems(c, col, props, rest));
      ConcatHead(texts);
    }
  }

  lemma ConcatHead(texts: seq<seq<string>>)
    requires texts != []
    ensures Concat(texts) == texts[0] + Concat(texts[1..])
  {
  }

  lemma AddedHead(c: Ctx, w: Look, col: nat, props: map<string, Value>, key: string, rest: seq<Item>)
    requires Writes(c, w)
    ensures var head := if key in props then [Entry(key, c.renderPair(key, props[key], col), props[key])] else [];
            TextOf(head + rest) == NewLines(w, col, props, key) + TextOf(rest)
  {
    if key in props {
      var it := Entry(key, c.renderPair(key, props[key], col), props[key]);
      assert ([it] + rest)[0] == it && ([it] + rest)[1..] == rest;
    } else {
      assert [] + rest == rest;
    }
  }

  lemma WritesSpans(c: Ctx, w: Look, p: Pair, col: nat)
    requires Writes(c, w) && |c.kinds| == |c.doc| && p.line < |c.doc|
    ensures Past(w, p.line, col) == (PastValue(c, p, col), PastBlock(c, p.line, col))
    ensures HeadOf(w, p.line, col) == Head(c, p, col)
  {
    hide KindsOf, HeadStart, BlockEnd, ValueEnd;
  }

  /** A pair that is not saved key by key. */
  lemma FlatIs(c: Ctx, w: Look, p: Pair, col: nat, v: Value)
    requires Writes(c, w) && |c.kinds| == |c.doc| && p.line < |c.doc|
    requires Head(c, p, col) <= p.line < PastValue(c, p, col) <= PastBlock(c, p.line, col) <= |c.doc|
    requires Same(Decode(p.val), v) || !v.Map? || !p.val.Block?
    ensures ItemText(OutKey(c, p, col, v)) == PairAfter(w, p, col, v)
  {
    WritesSpans(c, w, p, col);
    AgainIs(c, w, p, col, v);
    hide KindsOf, HeadStart, BlockEnd, ValueEnd, Same, Decode, Writes, EditScalar, LinesAgain, Again, ScalarOf, Past,
         HeadOf, Rewritten;
  }

  lemma AgainIs(c: Ctx, w: Look, p: Pair, col: nat, v: Value)
    requires Writes(c, w) && |c.kinds| == |c.doc| && p.line < |c.doc|
    ensures ScalarOf(w, p, col, v) == EditScalar(c, p, col, v)
    ensures EditScalar(c, p, col, v).Some? ==>
              Again(w, p, col, v) == [EditScalar(c, p, col, v).value] && PastValue(c, p, col) == p.line + 1
    ensures EditScalar(c, p, col, v).None? ==>
              Again(w, p, col, v) == LinesAgain(c, p, col, Rewritten(c, Decode(p.val), v))
  {
    hide KindsOf, HeadStart, BlockEnd, ValueEnd, Merge, Decode;
  }

  lemma {:induction false} PairIs(c: Ctx, w: Look, k: nat, col: nat, n: Node, i: nat, v: Value)
    requires Under(c, k, col, n) && i < |n.pairs| && Writes(c, w)
    ensures n.pairs[i].line < |c.doc|
    ensures ItemText(OutKey(c, n.pairs[i], n.col, v)) == PairAfter(w, n.pairs[i], n.col, v)
    decreases n, 0
  {
    hide Under, Writes, HeadStart, BlockEnd, ValueEnd, Same, Decode, OutSet, MappingAfter, KindsOf, TextOf, OutKey,
         PairAfter;
    var p := n.pairs[i];
    PairSpan(c, k, col, n, i);
    if !Same(Decode(p.val), v) && v.Map? && p.val.Block? {
      MappingIs(c, w, p.line, n.col, p.val, v.entries, c.nestedOrder(v.entries.Keys), c.nestedReplace);
      NestedIs(c, w, p, n.col, v);
    } else {
      FlatIs(c, w, p, n.col, v);
    }
  }

  lemma NestedIs(c: Ctx, w: Look, p: Pair, col: nat, v: Value)
    requires Writes(c, w) && |c.kinds| == |c.doc| && p.line < |c.doc| && Head(c, p, col) <= p.line
    requires !Same(Decode(p.val), v) && v.Map? && p.val.Block?
    requires var order := c.nestedOrder(v.entries.Keys);
             TextOf(OutSet(c, p.line, col, p.val, v.entries, order, c.nestedReplace))
             == MappingAfter(w, p.line, col, p.val, v.entries, order, c.nestedReplace)
    ensures ItemText(OutKey(c, p, col, v)) == PairAfter(w, p, col, v)
  {
    WritesSpans(c, w, p, col);
    hide KindsOf, HeadStart, BlockEnd, ValueEnd, Same, Decode, OutSet, MappingAfter, TextOf;
  }

  lemma {:induction false} PairSetIs(
    c: Ctx, w: Look, k: nat, col: nat, n: Node, props: map<string, Value>, drop: bool, i: nat)
    requires Under(c, k, col, n) && i < |n.pairs| && Writes(c, w)
    ensures n.pairs[i].line < |c.doc|
    ensures var p := n.pairs[i];
            var from := FromOf(w, k, n, i);
            Kept(w, k, n, props, drop, i)
            == Cut(c.doc, from, Head(c, p, n.col)) + ItemText(OutPair(c, p, n.col, props, drop))
    decreases n, 1
  {
    var p := n.pairs[i];
    hide Under, Writes, HeadStart, BlockEnd, ValueEnd, KindsOf, OutKey, PairAfter, TextOf;
    PairSpan(c, k, col, n, i);
    WritesDoc(c, w);
    WritesSpans(c, w, p, n.col);
    if p.key in props { PairIs(c, w, k, col, n, i, props[p.key]); }
  }

  lemma WritesDoc(c: Ctx, w: Look)
    requires Writes(c, w)
    ensures c.doc == w.lines && c.nestedReplace == w.replace
  {
  }

  /** The pairs from the i-th on. */
  lemma {:induction false} PairsAre(
    c: Ctx, w: Look, k: nat, col: nat, n: Node, props: map<string, Value>, drop: bool, i: nat, to: nat)
    requires Under(c, k, col, n) && i <= |n.pairs| && Writes(c, w)
    ensures TextOf(OutPairs(c, n, props, drop, i, FromOf(w, k, n, i), to))
         == Concat(KeptFrom(w, k, n, props, drop, i)) + Cut(w.lines, FromOf(w, k, n, |n.pairs|), to)
    decreases n, 2, |n.pairs| - i
  {
    hide Under, Writes, HeadStart, BlockEnd, ValueEnd, KindsOf, OutPair, Kept, Cut, TextOf;
    WritesDoc(c, w);
    var tail := Cut(w.lines, FromOf(w, k, n, |n.pairs|), to);
    if i < |n.pairs| {
      var p, from := n.pairs[i], FromOf(w, k, n, i);
      PairSpan(c, k, col, n, i);
      WritesSpans(c, w, p, n.col);
      PairSetIs(c, w, k, col, n, props, drop, i);
      PairsAre(c, w, k, col, n, props, drop, i + 1, to);
      assert FromOf(w, k, n, i + 1) == PastBlock(c, p.line, n.col);
      var rest := OutPairs(c, n, props, drop, i + 1, PastBlock(c, p.line, n.col), to);
      TextOfPair(Cut(c.doc, from, Head(c, p, n.col)), OutPair(c, p, n.col, props, drop), rest);
      var texts := KeptFrom(w, k, n, props, drop, i);
      assert texts[1..] == KeptFrom(w, k, n, props, drop, i + 1);
      Regroup(texts[0], Concat(texts[1..]), tail);
    } else {
      TextOfOne(tail);
      assert [] + tail == tail;
    }
  }

  lemma TextOfOne(lines: seq<string>)
    ensures TextOf([Filler(lines)]) == lines
  {
    assert [Filler(lines)][1..] == [];
    assert lines + [] == lines;
  }

  lemma TextOfPair(gap: seq<string>, it: Item, rest: seq<Item>)
    ensures TextOf([Filler(gap), it] + rest) == (gap + ItemText(it)) + TextOf(rest)
  {
    hide ItemText;
    var all := [Filler(gap), it] + rest;
    assert all[1..] == [it] + rest && ([it] + rest)[1..] == rest;
    assert TextOf(all) == ItemText(Filler(gap)) + (ItemText(it) + TextOf(rest));
    assert ItemText(Filler(gap)) == gap by { FillerText(gap); }
    Regroup(gap, ItemText(it), TextOf(rest));
  }

  lemma FillerText(gap: seq<string>)
    ensures ItemText(Filler(gap)) == gap
  {
  }

  lemma {:induction false} MappingIs(
    c: Ctx, w: Look, k: nat, col: nat, n: Node, props: map<string, Value>, order: seq<string>, drop: bool)
    requires Under(c, k, col, n) && Writes(c, w)
    ensures TextOf(OutSet(c, k, col, n, props, order, drop)) == MappingAfter(w, k, col, n, props, order, drop)
    decreases n, 3
  {
    hide Under, Writes, OutPairs, AddedItems, Kept, BlockEnd, HeadStart, ValueEnd, KindsOf, TextOf, Cut, Concat,
         NewLines;
    var to, added := PastBlock(c, k, col), AddedKeys(n.pairs, props, order);
    UnderLine(c, k, col, n);
    WritesDoc(c, w);
    WritesSpans(c, w, Pair("", k, n), col);
    PairsAre(c, w, k, col, n, props, drop, 0, to);
    AddedIs(c, w, n.col, props, added);
    TextOfConcat(OutPairs(c, n, props, drop, 0, k + 1, to), AddedItems(c, n.col, props, added));
    assert KeptFrom(w, k, n, props, drop, 0)
        == seq(|n.pairs|, i requires 0 <= i < |n.pairs| => Kept(w, k, n, props, drop, i));
  }

  lemma UnderLine(c: Ctx, k: nat, col: nat, n: Node)
    requires Under(c, k, col, n)
    ensures |c.kinds| == |c.doc| && k < |c.doc|
  {
    hide Under;
  }

  /** The edited entry has these lines. */
  lemma EntryLinesAre(
    h: Host, lines: seq<string>, root: Node, p: Pair, col: nat, props: map<string, Value>, replace: bool)
    requires Under(EntryCtx(h, lines, root, replace), p.line, col, p.val)
    ensures var c := EntryCtx(h, lines, root, replace);
            TextOf(OutSet(c, p.line, col, p.val, props, EntryOrder(h, c, p.val, props, replace), replace))
            == EntryLines(h, lines, root, p, col, props, replace)
  {
    hide Under, OutSet, MappingAfter, TextOf, IndentUnit, KindsOf, Writes, ConnOrder;
    var c := EntryCtx(h, lines, root, replace);
    EntryWrites(h, lines, root, replace);
    MappingIs(c, Look(h, lines, IndentUnit(root), true, replace), p.line, col, p.val, props,
              EntryOrder(h, c, p.val, props, replace), replace);
  }

  lemma EnvLinesAre(h: Host, lines: seq<string>, root: Node, b: Section, updates: map<string, Value>)
    requires Under(EnvCtx(h, lines, root), b.line, b.col, b.node)
    ensures TextOf(OutSet(EnvCtx(h, lines, root), b.line, b.col, b.node, updates, h.sortedKeys(updates.Keys), false))
         == EnvLines(h, lines, root, b, updates)
  {
    hide Under, OutSet, MappingAfter, TextOf, IndentUnit, KindsOf, Writes;
    EnvWrites(h, lines, root);
    MappingIs(EnvCtx(h, lines, root), Look(h, lines, IndentUnit(root), false, true), b.line, b.col, b.node, updates,
              h.sortedKeys(updates.Keys), false);
  }

  /** Each key saved must hold what the whole entry is to hold under it, and a
      key it lacks the value passed for it. */
  lemma MustHoldIs(c: Ctx, n: Node, props: map<string, Value>, drop: bool, key: string)
    requires n.Block? && DistinctKeys(n.pairs) && (drop ==> c.nestedReplace) && key in props
    ensures var wanted := Expected(c, Decode(n), props, drop).entries;
            key in wanted && wanted[key] == if Has(n.pairs, key)
                                            then MustHold(c.nestedReplace, Decode(n.pairs[Find(n.pairs, key)].val),
                                                          props[key])
                                            else props[key]
  {
    ExpectedLookup(c, n, props, drop, key);
    hide Expected, Decode, Has, Find, Merge;
  }
}
