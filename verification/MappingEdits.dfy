/** The in-place update of one block mapping: the line edits it emits, the text
    they lead to, and the values that text holds. */
module MappingEdits {
  import opened Text
  import opened Sequences
  import opened Values
  import opened LineGeometry
  import opened LineSplice
  import Names

  /** What the parser reports: a block mapping has its keys at one column, each
      on its own line. Anything else is a leaf with its decoded value; inline
      is set for a scalar whose text starts on the line of its key; raw is the
      text of a scalar as it stands in the file; flow is set for a mapping or a
      list in flow style. */
  datatype Node =
    | Leaf(value: Value, inline: bool, raw: string, flow: bool)
    | Block(col: nat, pairs: seq<Pair>)

  datatype Pair = Pair(key: string, line: nat, val: Node)

  /** The file being edited and the parts of the editor that render YAML. */
  datatype Ctx = Ctx(
    doc: seq<string>,
    kinds: Kinds,
    nestedReplace: bool,                              // a map value replaces a nested mapping
    nestedOrder: set<string> -> seq<string>,          // the visiting order of a nested mapping
    scalarLine: (string, Value) -> Option<string>,    // the key line with a new scalar, when it can hold it
    renderPair: (string, Value, nat) -> seq<string>,  // `key: val` as block lines at a column
    renderFlow: (string, Value, nat) -> seq<string>)  // the same with val in flow style

  function Decode(n: Node): Value
    decreases n, 1
  {
    match n
    case Leaf(v, _, _, _) => v
    case Block(_, _) => Map(DecodePairs(n, 0))
  }

  function DecodePairs(n: Node, i: nat): map<string, Value>
    requires n.Block? && i <= |n.pairs|
    decreases n, 0, |n.pairs| - i
  {
    if i == |n.pairs| then map[]
    else map[n.pairs[i].key := Decode(n.pairs[i].val)] + DecodePairs(n, i + 1)
  }

  ghost predicate DistinctKeys(pairs: seq<Pair>) {
    DistinctBy(pairs, (p: Pair) => p.key)
  }

  /** The position of the pair with this key, or |pairs|. */
  function Find(pairs: seq<Pair>, key: string): (i: nat)
    ensures i <= |pairs| && (i < |pairs| ==> pairs[i].key == key)
    ensures forall j | 0 <= j < i :: pairs[j].key != key
  {
    if pairs == [] || pairs[0].key == key then 0 else 1 + Find(pairs[1..], key)
  }

  predicate Has(pairs: seq<Pair>, key: string) {
    Find(pairs, key) < |pairs|
  }

  /** The positions of a parsed tree fit the lines: key lines of one mapping
      come in order at its column, and the keys of a nested mapping sit deeper
      among the value lines of their parent. */
  ghost predicate Located(ks: Kinds, n: Node, lo: nat, hi: nat)
    decreases n
  {
    match n
    case Leaf(v, inline, _, _) => inline ==> v.Scalar?
    case Block(col, pairs) =>
      && pairs != [] && DistinctKeys(pairs) && hi <= |ks|
      && (forall i | 0 <= i < |pairs| :: lo <= pairs[i].line < hi && KeyLine(ks[pairs[i].line], col))
      && (forall i, j | 0 <= i < j < |pairs| :: pairs[i].line < pairs[j].line)
      && (forall i | 0 <= i < |pairs| :: NestedAt(ks, pairs[i], col))
  }

  ghost predicate NestedAt(ks: Kinds, p: Pair, col: nat)
    requires p.line < |ks|
    decreases p
  {
    && (p.val.Block? ==> col < p.val.col)
    && ValueEnd(ks, p.line, col) < |ks|
    && Located(ks, p.val, p.line + 1, ValueEnd(ks, p.line, col) + 1)
  }

  /** n is the block mapping under the key on line k at column col. */
  ghost predicate BlockUnder(ks: Kinds, k: nat, col: nat, n: Node): (ok: bool)
    ensures ok ==> k < |ks| && n.Block? && n.pairs != [] && DistinctKeys(n.pairs)
  {
    && k < |ks| && n.Block? && col < n.col
    && KeyLine(ks[k], col)
    && ValueEnd(ks, k, col) < |ks|
    && Located(ks, n, k + 1, ValueEnd(ks, k, col) + 1)
  }

  ghost predicate Under(c: Ctx, k: nat, col: nat, n: Node): (ok: bool)
    ensures ok ==> |c.kinds| == |c.doc| && k < |c.doc| && n.Block? && n.pairs != [] && DistinctKeys(n.pairs)
  {
    |c.kinds| == |c.doc| && BlockUnder(c.kinds, k, col, n)
  }

  /** order visits each key of props once; it may name other keys too. */
  ghost predicate Visits(order: seq<string>, props: map<string, Value>) {
    Names.NoRepeats(order) && forall k | k in props :: k in order
  }

  ghost predicate VisitsNested(c: Ctx) {
    forall keys: set<string> :: Names.NoRepeats(c.nestedOrder(keys)) && forall k | k in keys :: k in c.nestedOrder(keys)
  }

  // ----- the spans of a pair

  function Head(c: Ctx, p: Pair, col: nat): nat
    requires p.line <= |c.kinds|
  {
    HeadStart(c.kinds, p.line, col)
  }

  /** Just past the value of the pair. */
  function PastValue(c: Ctx, p: Pair, col: nat): nat {
    ValueEnd(c.kinds, p.line, col) + 1
  }

  /** Just past the comments under the pair: where its new children go. */
  function PastBlock(c: Ctx, k: nat, col: nat): nat {
    BlockEnd(c.kinds, k, col) + 1
  }

  // ----- the edits

  function EditScalar(c: Ctx, p: Pair, col: nat, v: Value): Option<string>
    requires p.line < |c.doc|
  {
    if p.val.Leaf? && p.val.inline && ValueEnd(c.kinds, p.line, col) == p.line
    then c.scalarLine(c.doc[p.line], v)
    else None
  }

  /** The value a pair is rendered with when its lines are written again. */
  function Rewritten(c: Ctx, cur: Value, v: Value): Value {
    if v.Map? && !c.nestedReplace && cur.Map? then Merge(cur, v) else v
  }

  /** The lines of a pair that is written again. A flow value that stays a
      mapping or a list stays in flow style. */
  function LinesAgain(c: Ctx, p: Pair, col: nat, w: Value): seq<string> {
    if p.val.Leaf? && p.val.flow && (w.Map? || w.List?) then c.renderFlow(p.key, w, col)
       else c.renderPair(p.key, w, col)
  }

  function KeyEdits(c: Ctx, p: Pair, col: nat, v: Value): seq<Edit>
    requires p.line < |c.doc|
    decreases p, 0, 0
  {
    var cur := Decode(p.val);
    if Same(cur, v) then []
    else if v.Map? && p.val.Block? then
      SetEdits(c, p.line, col, p.val, v.entries, c.nestedOrder(v.entries.Keys), c.nestedReplace)
    else match EditScalar(c, p, col, v)
      case Some(line) => [Edit(p.line, p.line + 1, [line])]
      case None => [Edit(p.line, PastValue(c, p, col), LinesAgain(c, p, col, Rewritten(c, cur, v)))]
  }

  function VisitEdits(c: Ctx, n: Node, props: map<string, Value>, order: seq<string>): seq<Edit>
    requires n.Block?
    decreases n, |order|, 0
  {
    if order == [] then []
    else
      var i := Find(n.pairs, order[0]);
      (if order[0] in props && i < |n.pairs| && n.pairs[i].line < |c.doc|
       then KeyEdits(c, n.pairs[i], n.col, props[order[0]]) else [])
      + VisitEdits(c, n, props, order[1..])
  }

  function DropEdits(c: Ctx, pairs: seq<Pair>, col: nat, props: map<string, Value>): seq<Edit> {
    if pairs == [] then []
    else
      (if pairs[0].key !in props && pairs[0].line < |c.kinds|
       then [Edit(Head(c, pairs[0], col), PastValue(c, pairs[0], col), [])] else [])
      + DropEdits(c, pairs[1..], col, props)
  }

  /** The keys of props the mapping does not have, in visiting order. */
  function AddedKeys(pairs: seq<Pair>, props: map<string, Value>, order: seq<string>): seq<string> {
    if order == [] then []
    else (if order[0] in props && !Has(pairs, order[0]) then [order[0]] else []) + AddedKeys(pairs, props, order[1..])
  }

  function RenderAdded(c: Ctx, col: nat, props: map<string, Value>, keys: seq<string>): seq<string> {
    if keys == [] then []
    else (if keys[0] in props then c.renderPair(keys[0], props[keys[0]], col) else [])
         + RenderAdded(c, col, props, keys[1..])
  }

  function AddEdits(c: Ctx, k: nat, col: nat, n: Node, props: map<string, Value>, order: seq<string>): seq<Edit>
    requires n.Block?
  {
    var added := AddedKeys(n.pairs, props, order);
    if added == [] then []
    else [Edit(PastBlock(c, k, col), PastBlock(c, k, col), RenderAdded(c, n.col, props, added))]
  }

  /** All edits that set props on the mapping n under the key at (k, col). */
  function SetEdits(
    c: Ctx, k: nat, col: nat, n: Node, props: map<string, Value>, order: seq<string>, drop: bool): seq<Edit>
    requires n.Block?
    decreases n, |order|, 1
  {
    VisitEdits(c, n, props, order)
    + (if drop then DropEdits(c, n.pairs, n.col, props) else [])
    + AddEdits(c, k, col, n, props, order)
  }

  // ----- the edited mapping

  /** The lines of an edited mapping, with the values they stand for. */
  datatype Item =
    | Filler(lines: seq<string>)
    | Entry(key: string, lines: seq<string>, value: Value)
    | Nested(key: string, lead: seq<string>, items: seq<Item>)

  function TextOf(items: seq<Item>): seq<string> {
    if items == [] then [] else ItemText(items[0]) + TextOf(items[1..])
  }

  function ItemText(it: Item): seq<string> {
    match it
    case Filler(ls) => ls
    case Entry(_, ls, _) => ls
    case Nested(_, lead, items) => lead + TextOf(items)
  }

  function ItemsMap(items: seq<Item>): map<string, Value> {
    if items == [] then map[] else ItemMap(items[0]) + ItemsMap(items[1..])
  }

  function ItemMap(it: Item): map<string, Value> {
    match it
    case Filler(_) => map[]
    case Entry(key, _, v) => map[key := v]
    case Nested(key, _, items) => map[key := NestedValue(ItemsMap(items))]
  }

  /** A key with nothing left under it reads as null. */
  function NestedValue(m: map<string, Value>): Value {
    if m == map[] then NULL else Map(m)
  }

  /** The pair after the value v is set on it. */
  function OutKey(c: Ctx, p: Pair, col: nat, v: Value): Item
    requires |c.kinds| == |c.doc| && p.line < |c.doc|
    decreases p, 0, 0
  {
    var cur := Decode(p.val);
    var h, e, b := Head(c, p, col), PastValue(c, p, col), PastBlock(c, p.line, col);
    EndsInRange(c.kinds, p.line, col);
    if Same(cur, v) then Entry(p.key, c.doc[h..b], cur)
    else if v.Map? && p.val.Block? then
      Nested(p.key, c.doc[h..p.line + 1],
             OutSet(c, p.line, col, p.val, v.entries, c.nestedOrder(v.entries.Keys), c.nestedReplace))
    else match EditScalar(c, p, col, v)
      case Some(line) => Entry(p.key, c.doc[h..p.line] + [line] + c.doc[p.line + 1..b], v)
      case None =>
        var w := Rewritten(c, cur, v);
        Entry(p.key, c.doc[h..p.line] + LinesAgain(c, p, col, w) + c.doc[e..b], w)
  }

  function OutPair(c: Ctx, p: Pair, col: nat, props: map<string, Value>, drop: bool): Item
    requires |c.kinds| == |c.doc| && p.line < |c.doc|
    decreases p, 1, 0
  {
    var h, e, b := Head(c, p, col), PastValue(c, p, col), PastBlock(c, p.line, col);
    EndsInRange(c.kinds, p.line, col);
    if p.key in props then OutKey(c, p, col, props[p.key])
    else if drop then Filler(c.doc[e..b])
    else Entry(p.key, c.doc[h..b], Decode(p.val))
  }

  /** lines[a..b] where the range makes sense. */
  function Cut(doc: seq<string>, a: nat, b: nat): seq<string> {
    if a <= b <= |doc| then doc[a..b] else []
  }

  /** The pairs from the i-th on, with the lines between them; from is where
      the pair before ended. */
  function OutPairs(c: Ctx, n: Node, props: map<string, Value>, drop: bool, i: nat, from: nat, to: nat): seq<Item>
    requires n.Block? && i <= |n.pairs| && |c.kinds| == |c.doc|
    decreases n, 0, |n.pairs| - i
  {
    if i == |n.pairs| then [Filler(Cut(c.doc, from, to))]
    else
      var p := n.pairs[i];
      if p.line < |c.doc| then
        [Filler(Cut(c.doc, from, Head(c, p, n.col))), OutPair(c, p, n.col, props, drop)]
        + OutPairs(c, n, props, drop, i + 1, PastBlock(c, p.line, n.col), to)
      else []
  }

  function AddedItems(c: Ctx, col: nat, props: map<string, Value>, keys: seq<string>): seq<Item> {
    if keys == [] then []
    else (if keys[0] in props then [Entry(keys[0], c.renderPair(keys[0], props[keys[0]], col), props[keys[0]])] else [])
         + AddedItems(c, col, props, keys[1..])
  }

  /** The mapping after props are set on it: the old pairs in file order, then
      the new ones in visiting order. */
  function OutSet(
    c: Ctx, k: nat, col: nat, n: Node, props: map<string, Value>, order: seq<string>, drop: bool): seq<Item>
    requires n.Block? && |c.kinds| == |c.doc|
    decreases n, 1, 0
  {
    OutPairs(c, n, props, drop, 0, k + 1, PastBlock(c, k, col))
    + AddedItems(c, n.col, props, AddedKeys(n.pairs, props, order))
  }
}
