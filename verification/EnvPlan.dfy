/** The edits each operation of the env file editor plans from one parse, that
    they can be spliced, and when they are spliced rightly. */
module EnvPlan {
  import opened Text
  import opened Values
  import opened LineGeometry
  import opened LineSplice
  import opened EnvFile
  import opened MappingEdits
  import opened MappingText
  import opened MappingOrder
  import opened MappingValues
  import Names

  /** How a pair is rendered: as block lines, as block lines with a comment at
      each reference to a variable, or with its value in flow form. */
  datatype Style = Plain | Annotated | Flow

  /** What the editor takes from elsewhere: the parser with its key check, the
      case folding of names, the ways it writes a key line again, the order of
      keys, and the encoder. */
  datatype Host = Host(
    parse: seq<string> -> Option<Node>,
    fold: string -> string,
    canon: string -> string,                          // trimmed, upper case
    validName: string -> bool,
    validEnvKey: string -> bool,
    took: (File, string) -> Option<Value>,            // the value a name is removed with
    emptied: string -> string,                        // the key line with `{}` for its value
    cleared: string -> string,                        // the key line without its empty value
    renamed: (string, string) -> string,              // the key line with another key
    sortedKeys: set<string> -> seq<string>,
    templateOrder: map<string, Value> -> seq<string>, // of the entry's type
    scalarLine: (bool, string, Value) -> Option<string>,
    renderPair: (Style, nat, string, Value, nat) -> seq<string>)

  /** A block at the top level of the file. */
  datatype Section = Section(key: string, line: nat, col: nat, node: Node)

  function FileOf(root: Node): File {
    match Decode(root)
    case Map(m) => m
    case _ => map[]
  }

  /** The file is empty, or a block mapping whose positions fit the lines. */
  ghost predicate Rooted(lines: seq<string>, root: Node) {
    match root
    case Leaf(v, _, _, _) => v == Map(map[])
    case Block(_, _) => Located(KindsOf(lines), root, 0, |lines|)
  }

  ghost predicate Sorts(h: Host) {
    forall keys: set<string> ::
      Names.Ascending(h.sortedKeys(keys)) && forall k :: k in keys <==> k in h.sortedKeys(keys)
  }

  /** A pair is rendered from its key on, a block mapping with its keys below. */
  ghost predicate Renders(h: Host) {
    forall style, unit, key, v, col ::
      var r := h.renderPair(style, unit, key, v, col);
      && r != [] && KeyLine(KindOf(r[0]), col)
      && (style != Flow && v.Map? && v.entries != map[] ==> |r| > 1 && Indented(KindOf(r[1]), col))
  }

  predicate Indented(x: Kind, col: nat) {
    x.Content? && x.indent > col
  }

  ghost predicate Takes(h: Host) {
    forall file, name ::
      match h.took(file, name)
      case None => DroppedConns(h.fold, file, name) == {}
      case Some(v) => v in DroppedConns(h.fold, file, name)
  }

  ghost predicate HostOk(h: Host) {
    && (forall lines :: h.parse(lines).Some? ==> Rooted(lines, h.parse(lines).value))
    && Sorts(h) && Renders(h) && Takes(h)
    && h.fold("connections") != h.fold("env") && h.fold("connections") != h.fold("variables")
  }

  /** The position of the first pair whose key folds to name, or |pairs|. */
  function FindFold(fold: string -> string, pairs: seq<Pair>, name: string): (i: nat)
    ensures i <= |pairs| && (i < |pairs| ==> fold(pairs[i].key) == fold(name))
    ensures forall j | 0 <= j < i :: fold(pairs[j].key) != fold(name)
  {
    if pairs == [] || fold(pairs[0].key) == fold(name) then 0 else 1 + FindFold(fold, pairs[1..], name)
  }

  function TopAt(h: Host, root: Node, name: string): Option<Section> {
    if root.Block? && FindFold(h.fold, root.pairs, name) < |root.pairs| then
      var p := root.pairs[FindFold(h.fold, root.pairs, name)];
      Some(Section(p.key, p.line, root.col, p.val))
    else None
  }

  function ConnsAt(h: Host, root: Node): Option<Section> {
    TopAt(h, root, "connections")
  }

  /** `env`, or the legacy `variables` in a file that has only that. */
  function EnvName(root: Node): string {
    if root.Block? && !Has(root.pairs, "env") && Has(root.pairs, "variables") then "variables" else "env"
  }

  function EnvAt(h: Host, root: Node): Option<Section> {
    TopAt(h, root, EnvName(root))
  }

  // ----- where the blocks of the file are

  function End(lines: seq<string>, b: Section): nat {
    BlockEnd(KindsOf(lines), b.line, b.col) + 1
  }

  /** A block at the top: on its own line, and its mapping below it. */
  ghost predicate Stands(lines: seq<string>, b: Section) {
    && b.line < |lines| && KeyLine(KindsOf(lines)[b.line], b.col)
    && (b.node.Block? ==> BlockUnder(KindsOf(lines), b.line, b.col, b.node))
  }

  lemma TopStands(h: Host, lines: seq<string>, root: Node, name: string)
    requires Rooted(lines, root) && TopAt(h, root, name).Some?
    ensures Stands(lines, TopAt(h, root, name).value)
    ensures var b := TopAt(h, root, name).value; b.line < End(lines, b) <= |lines|
  {
    hide KindsOf, HeadStart, BlockEnd, ValueEnd;
    var ks := KindsOf(lines);
    var p := root.pairs[FindFold(h.fold, root.pairs, name)];
    assert NestedAt(ks, p, root.col);
    EndsInRange(ks, p.line, root.col);
  }

  /** Two blocks at the top do not reach into one another. */
  lemma TopsApart(h: Host, lines: seq<string>, root: Node, a: string, b: string)
    requires Rooted(lines, root) && TopAt(h, root, a).Some? && TopAt(h, root, b).Some?
    requires h.fold(a) != h.fold(b)
    ensures var x, y := TopAt(h, root, a).value, TopAt(h, root, b).value;
            && (x.line < y.line ==> End(lines, x) <= y.line)
            && (y.line < x.line ==> End(lines, y) <= x.line)
            && x.line != y.line
  {
    var ks := KindsOf(lines);
    var i, j := FindFold(h.fold, root.pairs, a), FindFold(h.fold, root.pairs, b);
    var p, q := root.pairs[i], root.pairs[j];
    hide HeadStart, ValueEnd, BlockEnd, NestedAt, KindsOf;
    if i < j { SiblingsApart(ks, p.line, q.line, root.col); } else { SiblingsApart(ks, q.line, p.line, root.col); }
  }

  // ----- the order of keys in an entry

  /** order, and then each key of props in keys that is not there yet. */
  function KeysOnce(props: map<string, Value>, keys: seq<string>, order: seq<string>): seq<string> {
    if keys == [] then order
    else KeysOnce(props, keys[1..], if keys[0] in props && keys[0] !in order then order + [keys[0]] else order)
  }

  /** `type`, the template order of the type, then the rest by name. */
  function ConnOrder(h: Host, props: map<string, Value>): seq<string> {
    KeysOnce(props, ["type"] + h.templateOrder(props) + h.sortedKeys(props.Keys), [])
  }

  lemma {:induction false} KeysOnceIs(props: map<string, Value>, keys: seq<string>, order: seq<string>)
    requires Names.NoRepeats(order)
    ensures Names.NoRepeats(KeysOnce(props, keys, order)) && order <= KeysOnce(props, keys, order)
    ensures forall k :: k in KeysOnce(props, keys, order) <==> k in order || (k in keys && k in props)
  {
    if keys != [] {
      var next := if keys[0] in props && keys[0] !in order then order + [keys[0]] else order;
      KeysOnceIs(props, keys[1..], next);
      assert forall k :: k in keys <==> k == keys[0] || k in keys[1..];
    }
  }

  /** Every key of the entry once, `type` first. */
  lemma ConnOrderVisits(h: Host, props: map<string, Value>)
    requires Sorts(h)
    ensures Visits(ConnOrder(h, props), props)
    ensures forall k | k in ConnOrder(h, props) :: k in props
    ensures "type" in props ==> ConnOrder(h, props) != [] && ConnOrder(h, props)[0] == "type"
  {
    var rest := h.templateOrder(props) + h.sortedKeys(props.Keys);
    var keys := ["type"] + rest;
    assert ["type"] + h.templateOrder(props) + h.sortedKeys(props.Keys) == keys;
    KeysOnceIs(props, keys, []);
    assert forall k | k in props :: k in props.Keys;
    assert keys[1..] == rest;
    if "type" in props {
      KeysOnceIs(props, rest, ["type"]);
      assert KeysOnce(props, keys, []) == KeysOnce(props, rest, [] + ["type"]);
      assert [] + ["type"] == ["type"];
    }
  }

  /** The keys an update of the entry n visits, in order. */
  function EntryOrder(h: Host, c: Ctx, n: Node, props: map<string, Value>, replace: bool): seq<string>
    requires n.Block?
  {
    ConnOrder(h, Expected(c, Decode(n), props, replace).entries)
  }

  // ----- the columns of the file

  function FirstStep(pairs: seq<Pair>, col: nat): nat {
    if pairs == [] then 0
    else if pairs[0].val.Block? && pairs[0].val.col > col then pairs[0].val.col - col
    else FirstStep(pairs[1..], col)
  }

  /** The indentation step of the file. */
  function IndentUnit(root: Node): nat {
    var step := if root.Block? then FirstStep(root.pairs, root.col) else 0;
    if step == 0 then 2 else if step < 2 then 2 else if step > 9 then 9 else step
  }

  /** A blank line stands above the pair and its comments. */
  predicate SpacedAbove(ks: Kinds, p: Pair, col: nat) {
    p.line <= |ks| && HeadStart(ks, p.line, col) > 0 && ks[HeadStart(ks, p.line, col) - 1].Blank?
  }

  /** Blank lines separate the pairs of a mapping. */
  predicate SpacedPairs(ks: Kinds, n: Node) {
    n.Block? && exists i | 1 <= i < |n.pairs| :: SpacedAbove(ks, n.pairs[i], n.col)
  }

  function Spaced(spaced: bool, lines: seq<string>): seq<string> {
    if spaced then [""] + lines else lines
  }

  // ----- the plans

  predicate UrlOnly(props: map<string, Value>) {
    props.Keys == {"url"}
  }

  /** A lone url is written as a string. */
  function NewEntry(props: map<string, Value>): Value {
    if UrlOnly(props)
       then Scalar("!!str", if props["url"].Scalar? && props["url"].tag == "!!str" then props["url"].text else "")
    else Map(props)
  }

  predicate EmptyValue(n: Node) {
    n.Leaf? && (n.value == Map(map[]) || (n.value.Scalar? && n.value.tag == "!!null"))
  }

  /** The lines of a new block at the end of the file. */
  function TopLines(h: Host, lines: seq<string>, root: Node, style: Style, key: string, val: Value): seq<string> {
    Spaced(lines != [] && !IsBlank(lines[|lines| - 1]) && SpacedPairs(KindsOf(lines), root),
           h.renderPair(style, IndentUnit(root), key, val, 0))
  }

  function TopEdits(h: Host, lines: seq<string>, root: Node, style: Style, key: string, val: Value): seq<Edit> {
    [Edit(|lines|, |lines|, TopLines(h, lines, root, style, key, val))]
  }

  /** key: val as the last child of the block b. */
  function ChildEdits(h: Host, lines: seq<string>, unit: nat, b: Section, key: string, val: Value): Option<seq<Edit>>
    requires b.line < |lines|
  {
    var past := End(lines, b);
    if b.node.Block? then
      Some([Edit(past, past,
                 Spaced(SpacedPairs(KindsOf(lines), b.node), h.renderPair(Annotated, unit, key, val, b.node.col)))])
    else if EmptyValue(b.node) then
      Some([Edit(b.line, b.line + 1, [h.cleared(lines[b.line])]),
            Edit(past, past, h.renderPair(Annotated, unit, key, val, b.col + unit))])
    else if b.node.value.Map? then
      Some([Edit(b.line, ValueEnd(KindsOf(lines), b.line, b.col) + 1,
                 h.renderPair(Annotated, unit, b.key, Map(b.node.value.entries[key := val]), b.col))])
    else None
  }

  function EntryCtx(h: Host, lines: seq<string>, root: Node, replace: bool): Ctx {
    var unit := IndentUnit(root);
    Ctx(lines, KindsOf(lines), replace, h.sortedKeys,
        (line, v) => h.scalarLine(true, line, v),
        (key, v, col: nat) => h.renderPair(Annotated, unit, key, v, col),
        (key, v, col: nat) => h.renderPair(Flow, unit, key, v, col))
  }

  function EnvCtx(h: Host, lines: seq<string>, root: Node): Ctx {
    var unit := IndentUnit(root);
    Ctx(lines, KindsOf(lines), true, h.sortedKeys,
        (line, v) => h.scalarLine(false, line, v),
        (key, v, col: nat) => h.renderPair(Plain, unit, key, v, col),
        (key, v, col: nat) => h.renderPair(Flow, unit, key, v, col))
  }

  /** Planned edits, and what they say the entry will hold. */
  datatype Plan = Plan(edits: seq<Edit>, expected: Option<Value>)

  /** What an entry that is no block mapping holds: a text is its url. */
  function LeafProps(n: Node): map<string, Value>
    requires n.Leaf?
  {
    if n.value.Map? then n.value.entries
    else if n.value.Scalar? && n.raw != "" then map["url" := Scalar("!!str", n.raw)]
    else map[]
  }

  /** The edits of an existing entry, the pair p at column col. */
  function UpdatePlan(
    h: Host, lines: seq<string>, root: Node, p: Pair, col: nat, props: map<string, Value>, replace: bool): Plan
    requires p.line < |lines|
  {
    if p.val.Block? then
      var c := EntryCtx(h, lines, root, replace);
      var expected := Expected(c, Decode(p.val), props, replace);
      Plan(SetEdits(c, p.line, col, p.val, props, EntryOrder(h, c, p.val, props, replace), replace), Some(expected))
    else
      var line := UrlLine(h, lines, root, p, col, props);
      if line.Some? then Plan([Edit(p.line, p.line + 1, [line.value])], None)
      else
        var expected := if replace then Map(props) else Merge(Map(LeafProps(p.val)), Map(props));
        var style := if p.val.value.Map? && p.val.flow then Flow else Annotated;
        Plan([Edit(p.line, ValueEnd(KindsOf(lines), p.line, col) + 1,
                   h.renderPair(style, IndentUnit(root), p.key, expected, col))], Some(expected))
  }

  /** The line of a one-line URL entry with its new url. */
  function UrlLine(
    h: Host, lines: seq<string>, root: Node, p: Pair, col: nat, props: map<string, Value>): Option<string>
    requires p.line < |lines|
  {
    if p.val.Leaf? && p.val.value.Scalar? && p.val.raw != "" && UrlOnly(props)
    then EditScalar(EnvCtx(h, lines, root), p, col, props["url"])
    else None
  }

  /** The entry stands in the block of connections. */
  predicate HasEntry(h: Host, root: Node, name: string) {
    match ConnsAt(h, root)
    case None => false
    case Some(b) =>
      if b.node.Block? then FindFold(h.fold, b.node.pairs, name) < |b.node.pairs|
      else FlowEntry(h, b, name)
  }

  /** The entry stands inside a flow mapping. */
  predicate FlowEntry(h: Host, b: Section, name: string) {
    b.node.Leaf? && b.node.value.Map? && exists k | k in b.node.value.entries :: h.fold(k) == h.fold(name)
  }

  function ConnPlan(
    h: Host, lines: seq<string>, root: Node, name: string, props: map<string, Value>, replace: bool): Option<Plan>
    requires Rooted(lines, root)
  {
    match ConnsAt(h, root)
    case None =>
      Some(Plan(TopEdits(h, lines, root, Annotated, "connections", Map(map[name := NewEntry(props)])),
                Some(Map(props))))
    case Some(b) =>
      TopStands(h, lines, root, "connections");
      if b.node.Block? && FindFold(h.fold, b.node.pairs, name) < |b.node.pairs| then
        var p := b.node.pairs[FindFold(h.fold, b.node.pairs, name)];
        EntryPlace(KindsOf(lines), b, FindFold(h.fold, b.node.pairs, name));
        Some(UpdatePlan(h, lines, root, p, b.node.col, props, replace))
      else if FlowEntry(h, b, name) then None
      else match ChildEdits(h, lines, IndentUnit(root), b, name, NewEntry(props))
        case None => None
        case Some(edits) => Some(Plan(edits, Some(Map(props))))
  }

  /** The edits that put updates under the env block. */
  function EnvEdits(h: Host, lines: seq<string>, root: Node, updates: map<string, Value>): Option<seq<Edit>>
    requires Rooted(lines, root)
  {
    match EnvAt(h, root)
    case None => Some(TopEdits(h, lines, root, Plain, EnvName(root), Map(updates)))
    case Some(b) =>
      TopStands(h, lines, root, EnvName(root));
      var unit := IndentUnit(root);
      if b.node.Block? then
        Some(SetEdits(EnvCtx(h, lines, root), b.line, b.col, b.node, updates, h.sortedKeys(updates.Keys), false))
      else if EmptyValue(b.node) then
        var block := h.renderPair(Plain, unit, b.key, Map(updates), b.col);
        Some([Edit(b.line, b.line + 1, [h.cleared(lines[b.line])]),
              Edit(End(lines, b), End(lines, b), if block == [] then [] else block[1..])])
      else if b.node.value.Map? then
        Some([Edit(b.line, ValueEnd(KindsOf(lines), b.line, b.col) + 1,
                   h.renderPair(Plain, unit, b.key, MergeTop(b.node.value, Map(updates)), b.col))])
      else None
  }

  function SetPlan(
    h: Host, lines: seq<string>, root: Node, name: string, props: map<string, Value>, replace: bool,
    updates: map<string, Value>): Option<Plan>
    requires Rooted(lines, root)
  {
    var plan := ConnPlan(h, lines, root, name, props, replace);
    if plan.None? || updates == map[] then plan
    else match EnvEdits(h, lines, root, updates)
      case None => None
      case Some(edits) => Some(Plan(plan.value.edits + edits, plan.value.expected))
  }

  // ----- the entries of the connections block

  lemma EntryPlace(ks: Kinds, b: Section, i: nat)
    requires BlockUnder(ks, b.line, b.col, b.node) && i < |b.node.pairs|
    ensures var k, col := b.node.pairs[i].line, b.node.col;
            && b.line < k < |ks| && KeyLine(ks[k], col) && KeyLine(ks[b.line], b.col)
            && b.line < HeadStart(ks, k, col) <= k <= ValueEnd(ks, k, col) < |ks|
  {
    var k, col := b.node.pairs[i].line, b.node.col;
    ChildInside(ks, b.line, b.col, k, col);
    EndsInRange(ks, k, col);
  }
}
