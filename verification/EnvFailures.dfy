/** Files and saves on which the env file editor does not do what it is asked:
    a value is lost in silence, or a proper save is refused. */
module EnvFailures {
  import opened Text
  import opened Values
  import opened LineGeometry
  import opened LineSplice
  import opened EnvFile
  import opened MappingEdits
  import opened MappingText
  import opened MappingOrder
  import opened MappingValues
  import opened EnvPlan
  import opened EnvSplice
  import opened EnvEditor
  import EnvUpdate
  import Names

  function Int(text: string): Value {
    Scalar("!!int", text)
  }

  function Str(text: string): Value {
    Scalar("!!str", text)
  }

  lemma SortedOne(h: Host, a: string)
    requires Sorts(h)
    ensures h.sortedKeys({a}) == [a]
  {
    assert forall k :: k in {a} <==> k in [a];
    Names.AscendingUnique(h.sortedKeys({a}), [a]);
  }

  lemma SortedTwo(h: Host, a: string, b: string)
    requires Sorts(h) && Names.Less(a, b)
    ensures h.sortedKeys({a, b}) == [a, b]
  {
    assert forall k :: k in {a, b} <==> k in [a, b];
    Names.AscendingUnique(h.sortedKeys({a, b}), [a, b]);
  }

  /** A list item behind some spaces. */
  lemma ItemLine(line: string, indent: nat)
    requires indent + 2 < |line| && forall i | 0 <= i < indent :: line[i] == ' '
    requires line[indent] == '-' && line[indent + 1] == ' ' && !IsSpace(line[|line| - 1])
    ensures KindOf(line) == Content(indent, true)
  {
    TrimLeftIs(line, IsSpace, indent);
    TrimLeftIs(line, c => c == ' ', indent);
    TrimRightIs(line[indent..], IsSpace, |line| - indent);
    assert TrimSpace(line) == line[indent..];
    assert line[indent..][..2] == "- ";
  }

  lemma ParsedRooted(h: Host, lines: seq<string>, root: Node)
    requires HostOk(h) && h.parse(lines) == Some(root)
    ensures Rooted(lines, root)
  {
    hide Rooted, Sorts, Renders, Takes;
  }

  // ----- one mapping in the env block, visited in name order

  const LOST_DOC: seq<string> := ["env:", "  B:", "    x: 1", "  A:", "    - a", "    - b"]

  const LOST_KINDS: Kinds :=
      [Content(0, false), Content(2, false), Content(4, false), Content(2, false), Content(4, true), Content(4, true)]

  const LOST_B := Block(4, [Pair("x", 2, Leaf(Int("1"), true, "1", false))])

  const LOST_A := Leaf(List([Str("a"), Str("b")]), false, "", false)

  const LOST_ENV := Block(2, [Pair("B", 1, LOST_B), Pair("A", 3, LOST_A)])

  const LOST_ROOT := Block(0, [Pair("env", 0, LOST_ENV)])

  const LOST_B_ENTRIES: map<string, Value> := map["x" := Int("1"), "y" := Int("2")]

  const LOST_UPDATES: map<string, Value> := map["A" := List([Str("c")]), "B" := Map(LOST_B_ENTRIES)]

  const LOST_EDITS := [Edit(3, 6, ["  A:", "    - c"]), Edit(3, 3, ["    y: 2"])]

  const LOST_OUT: seq<string> := ["env:", "  B:", "    x: 1", "  A:", "    - c", "    - b"]

  const LOST_AFTER :=
      Block(0,
            [Pair("env", 0,
                  Block(2, [Pair("B", 1, LOST_B), Pair("A", 3, Leaf(List([Str("c"), Str("b")]), false, "", false))]))])

  lemma LostKinds()
    ensures KindsOf(LOST_DOC) == LOST_KINDS
  {
    hide KindOf;
    PlainLine(LOST_DOC[0], 0);
    PlainLine(LOST_DOC[1], 2);
    PlainLine(LOST_DOC[2], 4);
    PlainLine(LOST_DOC[3], 2);
    ItemLine(LOST_DOC[4], 4);
    ItemLine(LOST_DOC[5], 4);
  }

  /** The keys A and B are visited in name order, but stand in the file the
      other way round, and B gains a key right above A. The save goes through,
      since the comparison leaves A and B out; y is lost, and A is wrong. */
  lemma EnvKeyIsLost(h: Host, allowed: bool)
    requires HostOk(h) && h.parse(LOST_DOC) == Some(LOST_ROOT) && h.parse(LOST_OUT) == Some(LOST_AFTER)
    requires h.renderPair(Plain, 2, "A", List([Str("c")]), 2) == ["  A:", "    - c"]
    requires h.renderPair(Plain, 2, "y", Int("2"), 4) == ["    y: 2"]
    requires EnvAllowed(h, LOST_ROOT, LOST_UPDATES, allowed)
    ensures Rooted(LOST_DOC, LOST_ROOT) && EnvEdits(h, LOST_DOC, LOST_ROOT, LOST_UPDATES) == Some(LOST_EDITS)
    ensures Spliced(LOST_DOC, LOST_EDITS) == LOST_OUT
    ensures SetEnvSucceeds(h, LOST_DOC, LOST_ROOT, LOST_UPDATES, allowed)
    ensures EntryAt(FileOf(LOST_AFTER), "env", "B") == Some(Map(map["x" := Int("1")]))
    ensures !Same(Map(map["x" := Int("1")]), LOST_UPDATES["B"])
  {
    hide *;
    LostPlan(h);
    LostSplice();
    LostFiles();
    LostValue();
    LostKeys();
    EnvUpdate.Succeeds(h, LOST_DOC, LOST_ROOT, LOST_UPDATES, allowed);
  }

  lemma LostKeys()
    ensures LOST_UPDATES.Keys == {"A", "B"}
  {
  }

  lemma LostValue()
    ensures !Same(Map(map["x" := Int("1")]), LOST_UPDATES["B"])
  {
    assert LOST_B_ENTRIES.Keys == {"x", "y"};
    assert |LOST_B_ENTRIES| == |LOST_B_ENTRIES.Keys|;
    assert |{"x", "y"}| == 2;
    assert |map["x" := Int("1")]| == 1;
  }

  lemma LostFiles()
    ensures DropEnv(FileOf(LOST_ROOT), {"A", "B"}) == map[] == DropEnv(FileOf(LOST_AFTER), {"A", "B"})
    ensures EntryAt(FileOf(LOST_AFTER), "env", "B") == Some(Map(map["x" := Int("1")]))
  {
    var lists := (List([Str("a"), Str("b")]), List([Str("c"), Str("b")]));
    LostFile(LOST_ENV, lists.0);
    LostFile(LOST_AFTER.pairs[0].val, lists.1);
    DropsAll(Map(map["x" := Int("1")]), lists.0);
    DropsAll(Map(map["x" := Int("1")]), lists.1);
  }

  lemma LostFile(env: Node, list: Value)
    requires list.List? && env == Block(2, [Pair("B", 1, LOST_B), Pair("A", 3, Leaf(list, false, "", false))])
    ensures FileOf(Block(0, [Pair("env", 0, env)]))
            == map["env" := Map(map["B" := Map(map["x" := Int("1")]), "A" := list])]
  {
    var x, m := Int("1"), map["A" := list];
    assert DecodePairs(LOST_B, 1) == map[];
    assert Decode(LOST_B) == Map(map["x" := x]);
    assert DecodePairs(env, 2) == map[];
    assert DecodePairs(env, 1) == m + map[] == m;
    assert DecodePairs(env, 0) == map["B" := Map(map["x" := x])] + m == map["B" := Map(map["x" := x]), "A" := list];
    var root := Block(0, [Pair("env", 0, env)]);
    assert DecodePairs(root, 1) == map[];
    assert DecodePairs(root, 0) == map["env" := Decode(env)] + map[];
  }

  lemma DropsAll(b: Value, a: Value)
    ensures DropEnv(map["env" := Map(map["B" := b, "A" := a])], {"A", "B"}) == map[]
  {
    var m := map["B" := b, "A" := a];
    assert m - {"A", "B"} == map[];
    assert map["env" := Map(m)] - {"env"} == map[];
  }

  lemma LostSplice()
    ensures Spliced(LOST_DOC, LOST_EDITS) == LOST_OUT
  {
    hide Spliced, Splice;
    SplicedPair(LOST_DOC, LOST_EDITS[0], LOST_EDITS[1]);
    LostSteps(LOST_DOC, LOST_EDITS[0], LOST_EDITS[1]);
    assert LOST_EDITS == [LOST_EDITS[0], LOST_EDITS[1]];
  }

  lemma LostSteps(doc: seq<string>, e: Edit, f: Edit)
    requires doc == LOST_DOC && e == LOST_EDITS[0] && f == LOST_EDITS[1]
    ensures Splice(Splice(doc, f), e) == LOST_OUT
  {
    var mid := ["env:", "  B:", "    x: 1", "    y: 2", "  A:", "    - a", "    - b"];
    assert doc[3..] == ["  A:", "    - a", "    - b"];
    assert Splice(doc, f) == mid;
    assert mid[6..] == ["    - b"];
    assert Splice(mid, e) == LOST_OUT;
  }

  lemma LostPlan(h: Host)
    requires HostOk(h) && h.parse(LOST_DOC) == Some(LOST_ROOT)
    requires h.renderPair(Plain, 2, "A", List([Str("c")]), 2) == ["  A:", "    - c"]
    requires h.renderPair(Plain, 2, "y", Int("2"), 4) == ["    y: 2"]
    ensures Rooted(LOST_DOC, LOST_ROOT) && EnvEdits(h, LOST_DOC, LOST_ROOT, LOST_UPDATES) == Some(LOST_EDITS)
  {
    hide HostOk, KindsOf, Rooted, SetEdits, Renders, Takes, Sorts;
    var c := EnvCtx(h, LOST_DOC, LOST_ROOT);
    assert IndentUnit(LOST_ROOT) == 2;
    LostKinds();
    LostOrders(h);
    ParsedRooted(h, LOST_DOC, LOST_ROOT);
    assert EnvAt(h, LOST_ROOT) == Some(Section("env", 0, 0, LOST_ENV)) by { assert Find(LOST_ROOT.pairs, "env") == 0; }
    assert LOST_UPDATES.Keys == {"A", "B"};
    LostSet(c);
  }

  lemma LostOrders(h: Host)
    requires HostOk(h)
    ensures h.sortedKeys({"A", "B"}) == ["A", "B"] && h.sortedKeys({"x", "y"}) == ["x", "y"]
  {
    SortedTwo(h, "A", "B");
    SortedTwo(h, "x", "y");
  }

  lemma LostSet(c: Ctx)
    requires c.doc == LOST_DOC && c.kinds == LOST_KINDS && c.nestedReplace && c.nestedOrder({"x", "y"}) == ["x", "y"]
    requires c.renderPair("A", List([Str("c")]), 2) == ["  A:", "    - c"]
             && c.renderPair("y", Int("2"), 4) == ["    y: 2"]
    ensures SetEdits(c, 0, 0, LOST_ENV, LOST_UPDATES, ["A", "B"], false) == LOST_EDITS
  {
    LostA(c);
    LostB(c);
    LostVisits(c);
    hide KeyEdits, VisitEdits, AddedKeys;
    var edits := SetEdits(c, 0, 0, LOST_ENV, LOST_UPDATES, ["A", "B"], false);
    assert edits == VisitEdits(c, LOST_ENV, LOST_UPDATES, ["A", "B"]) + [] + [];
    assert [LOST_EDITS[0]] + [LOST_EDITS[1]] == LOST_EDITS;
  }

  lemma LostVisits(c: Ctx)
    requires c.doc == LOST_DOC
    ensures VisitEdits(c, LOST_ENV, LOST_UPDATES, ["A", "B"])
         == KeyEdits(c, LOST_ENV.pairs[1], 2, LOST_UPDATES["A"]) + KeyEdits(c, LOST_ENV.pairs[0], 2, LOST_UPDATES["B"])
    ensures AddedKeys(LOST_ENV.pairs, LOST_UPDATES, ["A", "B"]) == []
  {
    hide KeyEdits;
    assert ["A", "B"][1..] == ["B"] && ["B"][1..] == [];
    assert Find(LOST_ENV.pairs, "A") == 1 by { FindIs(LOST_ENV.pairs, 1); }
    assert Find(LOST_ENV.pairs, "B") == 0;
    assert VisitEdits(c, LOST_ENV, LOST_UPDATES, []) == [];
    assert VisitEdits(c, LOST_ENV, LOST_UPDATES, ["B"]) == KeyEdits(c, LOST_ENV.pairs[0], 2, LOST_UPDATES["B"]);
    assert AddedKeys(LOST_ENV.pairs, LOST_UPDATES, ["B"]) == [];
  }

  lemma LostA(c: Ctx)
    requires c.doc == LOST_DOC && c.kinds == LOST_KINDS
    requires c.renderPair("A", List([Str("c")]), 2) == ["  A:", "    - c"]
    ensures KeyEdits(c, LOST_ENV.pairs[1], 2, LOST_UPDATES["A"]) == [LOST_EDITS[0]]
  {
    assert ValueEndFrom(LOST_KINDS, 6, 5, 2) == 5;
    assert ValueEndFrom(LOST_KINDS, 5, 4, 2) == 5;
    assert ValueEnd(LOST_KINDS, 3, 2) == 5;
  }

  lemma LostB(c: Ctx)
    requires c.doc == LOST_DOC && c.kinds == LOST_KINDS && c.nestedReplace && c.nestedOrder({"x", "y"}) == ["x", "y"]
    requires c.renderPair("y", Int("2"), 4) == ["    y: 2"]
    ensures KeyEdits(c, LOST_ENV.pairs[0], 2, LOST_UPDATES["B"]) == [LOST_EDITS[1]]
  {
    LostBDiffers();
    LostBSet(c);
    hide Same, Decode, SetEdits;
    assert LOST_B_ENTRIES.Keys == {"x", "y"};
  }

  lemma LostBSet(c: Ctx)
    requires c.doc == LOST_DOC && c.kinds == LOST_KINDS && c.renderPair("y", Int("2"), 4) == ["    y: 2"]
    ensures SetEdits(c, 1, 2, LOST_B, LOST_B_ENTRIES, ["x", "y"], true) == [LOST_EDITS[1]]
  {
    LostBEnd();
    LostBVisits(c);
    hide VisitEdits, AddedKeys, BlockEnd, ValueEnd;
    assert ["y"][1..] == [];
    assert RenderAdded(c, 4, LOST_B_ENTRIES, ["y"]) == ["    y: 2"];
    assert DropEdits(c, LOST_B.pairs, 4, LOST_B_ENTRIES) == [];
    assert SetEdits(c, 1, 2, LOST_B, LOST_B_ENTRIES, ["x", "y"], true) == [] + [] + [LOST_EDITS[1]];
  }

  lemma LostBDiffers()
    ensures !Same(Decode(LOST_B), LOST_UPDATES["B"])
  {
    assert DecodePairs(LOST_B, 1) == map[];
    assert Decode(LOST_B) == Map(map["x" := Int("1")]);
    LostValue();
  }

  lemma LostBEnd()
    ensures BlockEnd(LOST_KINDS, 1, 2) == 2
  {
    assert ValueEndFrom(LOST_KINDS, 3, 2, 2) == 2;
    assert ValueEnd(LOST_KINDS, 1, 2) == 2;
  }

  lemma LostBVisits(c: Ctx)
    requires c.doc == LOST_DOC
    ensures VisitEdits(c, LOST_B, LOST_B_ENTRIES, ["x", "y"]) == []
    ensures AddedKeys(LOST_B.pairs, LOST_B_ENTRIES, ["x", "y"]) == ["y"]
  {
    assert ["x", "y"][1..] == ["y"] && ["y"][1..] == [];
    assert VisitEdits(c, LOST_B, LOST_B_ENTRIES, []) == [];
    assert VisitEdits(c, LOST_B, LOST_B_ENTRIES, ["y"]) == [];
    assert KeyEdits(c, LOST_B.pairs[0], 4, Int("1")) == [];
    assert AddedKeys(LOST_B.pairs, LOST_B_ENTRIES, ["y"]) == ["y"];
  }

  // ----- an env block right above an empty connections block

  const ENV_NODE := Block(2, [Pair("A", 1, Leaf(Int("1"), true, "1", false))])

  const NEW_KEY: map<string, Value> := map["B" := Int("2")]

  lemma NewKeyIs()
    ensures NEW_KEY.Keys == {"B"} && NEW_KEY != map[]
  {
    assert "B" in NEW_KEY;
  }

  const MEET_DOC: seq<string> := ["env:", "  A: 1", "connections: {}"]

  const MEET_ROOT := Block(0, [Pair("env", 0, ENV_NODE), Pair("connections", 2, Leaf(Map(map[]), false, "", true))])

  lemma TwoKinds(doc: seq<string>)
    requires |doc| >= 2 && doc[0] == "env:" && doc[1] == "  A: 1" && (|doc| > 2 ==> doc[2] == "connections: {}")
    ensures var ks := KindsOf(doc);
            ks[0] == Content(0, false) && ks[1] == Content(2, false) && (|doc| > 2 ==> ks[2] == Content(0, false))
  {
    hide KindOf;
    PlainLine(doc[0], 0);
    PlainLine(doc[1], 2);
    if |doc| > 2 { PlainLine(doc[2], 0); }
  }

  /** The env block of one key gains a second one behind it. */
  lemma NewKeyEdits(c: Ctx)
    requires |c.kinds| == |c.doc| && 2 <= |c.doc| <= 3 && c.kinds[0] == Content(0, false)
             && c.kinds[1] == Content(2, false)
    requires |c.doc| > 2 ==> c.kinds[2] == Content(0, false)
    requires c.renderPair("B", Int("2"), 2) == ["  B: 2"]
    ensures SetEdits(c, 0, 0, ENV_NODE, NEW_KEY, ["B"], false) == [Edit(2, 2, ["  B: 2"])]
    ensures PastBlock(c, 0, 0) == 2
  {
    assert ["B"][1..] == [];
    assert ValueEndFrom(c.kinds, 2, 1, 0) == 1;
    assert ValueEnd(c.kinds, 0, 0) == 1;
    assert BlockEnd(c.kinds, 0, 0) == 1;
    hide BlockEnd, ValueEnd;
    assert VisitEdits(c, ENV_NODE, NEW_KEY, []) == [];
    assert VisitEdits(c, ENV_NODE, NEW_KEY, ["B"]) == [];
    assert AddedKeys(ENV_NODE.pairs, NEW_KEY, ["B"]) == ["B"];
    assert RenderAdded(c, 2, NEW_KEY, ["B"]) == ["  B: 2"];
  }

  /** A first connection together with an env key: the key of the block is
      written twice and the env key is lost. */
  lemma BlocksMeet(h: Host, name: string, props: map<string, Value>, replace: bool)
    requires HostOk(h) && h.parse(MEET_DOC) == Some(MEET_ROOT)
    requires h.cleared("connections: {}") == "connections:" && h.renderPair(Plain, 2, "B", Int("2"), 2) == ["  B: 2"]
    ensures Rooted(MEET_DOC, MEET_ROOT) && SetPlan(h, MEET_DOC, MEET_ROOT, name, props, replace, NEW_KEY).Some?
    ensures SetGoesLate(h, MEET_DOC, MEET_ROOT, name, props, replace, NEW_KEY)
    ensures Spliced(MEET_DOC, SetPlan(h, MEET_DOC, MEET_ROOT, name, props, replace, NEW_KEY).value.edits)
         == ["env:", "  A: 1", "connections:", "connections: {}"] + h.renderPair(Annotated, 2, name, NewEntry(props), 2)
  {
    hide *;
    var entry := h.renderPair(Annotated, 2, name, NewEntry(props), 2);
    ParsedRooted(h, MEET_DOC, MEET_ROOT);
    MeetConn(h, MEET_DOC, MEET_ROOT, name, props, replace);
    MeetEnv(h);
    NewKeyIs();
    PlanJoins(h, MEET_DOC, MEET_ROOT, name, props, replace, NEW_KEY);
    var x := [Edit(2, 3, ["connections:"]), Edit(3, 3, entry)];
    var y := [Edit(2, 2, ["  B: 2"])];
    assert x + y == [x[0], x[1], y[0]];
    MeetSplice(MEET_DOC, entry);
    MeetLate(h, name, props, replace);
  }

  lemma PlanJoins(
    h: Host, lines: seq<string>, root: Node, name: string, props: map<string, Value>, replace: bool,
    updates: map<string, Value>)
    requires Rooted(lines, root) && updates != map[]
    requires ConnPlan(h, lines, root, name, props, replace).Some? && EnvEdits(h, lines, root, updates).Some?
    ensures var plan := SetPlan(h, lines, root, name, props, replace, updates);
            plan.Some?
              && plan.value.edits
                 == ConnPlan(h, lines, root, name, props, replace).value.edits + EnvEdits(h, lines, root, updates).value
  {
    hide Rooted, ConnPlan, EnvEdits;
  }

  lemma MeetTops(h: Host)
    requires HostOk(h)
    ensures ConnsAt(h, MEET_ROOT) == Some(Section("connections", 2, 0, Leaf(Map(map[]), false, "", true)))
    ensures EnvAt(h, MEET_ROOT) == Some(Section("env", 0, 0, ENV_NODE)) && IndentUnit(MEET_ROOT) == 2
  {
    var tail := MEET_ROOT.pairs[1..];
    assert tail == [MEET_ROOT.pairs[1]];
    assert FindFold(h.fold, tail, "connections") == 0;
    assert FindFold(h.fold, MEET_ROOT.pairs, "connections") == 1;
    assert Find(MEET_ROOT.pairs, "env") == 0;
  }

  lemma MeetConn(h: Host, doc: seq<string>, root: Node, name: string, props: map<string, Value>, replace: bool)
    requires HostOk(h) && Rooted(doc, root) && doc == MEET_DOC && root == MEET_ROOT
             && h.cleared("connections: {}") == "connections:"
    ensures var plan := ConnPlan(h, doc, root, name, props, replace);
            plan.Some?
              && plan.value.edits
                 == [Edit(2, 3, ["connections:"]), Edit(3, 3, h.renderPair(Annotated, 2, name, NewEntry(props), 2))]
  {
    hide HostOk, Rooted, KindsOf, NewEntry, TopAt, IndentUnit, End, ChildEdits;
    MeetTops(h);
    var b := ConnsAt(h, root).value;
    MeetEnd(doc, b);
    MeetChild(h, doc, b, name, NewEntry(props));
  }

  lemma MeetEnd(doc: seq<string>, b: Section)
    requires doc == MEET_DOC && b.line == 2 && b.col == 0
    ensures End(doc, b) == 3
  {
    TwoKinds(doc);
    var ks := KindsOf(doc);
    hide KindsOf;
    assert ValueEnd(ks, 2, 0) == 2;
  }

  lemma MeetChild(h: Host, doc: seq<string>, b: Section, name: string, val: Value)
    requires b == Section("connections", 2, 0, Leaf(Map(map[]), false, "", true)) && |doc| == 3
             && doc[2] == "connections: {}" && End(doc, b) == 3
    requires h.cleared("connections: {}") == "connections:"
    ensures ChildEdits(h, doc, 2, b, name, val)
            == Some([Edit(2, 3, ["connections:"]), Edit(3, 3, h.renderPair(Annotated, 2, name, val, 2))])
  {
    hide End;
  }

  lemma MeetEnv(h: Host)
    requires HostOk(h) && Rooted(MEET_DOC, MEET_ROOT) && h.renderPair(Plain, 2, "B", Int("2"), 2) == ["  B: 2"]
    ensures EnvEdits(h, MEET_DOC, MEET_ROOT, NEW_KEY) == Some([Edit(2, 2, ["  B: 2"])])
  {
    SortedOne(h, "B");
    hide HostOk, Rooted, TopAt, IndentUnit, KindsOf, EnvName, SetEdits, Sorts;
    MeetTops(h);
    TwoKinds(MEET_DOC);
    assert NEW_KEY.Keys == {"B"};
    NewKeyEdits(EnvCtx(h, MEET_DOC, MEET_ROOT));
  }

  lemma MeetLate(h: Host, name: string, props: map<string, Value>, replace: bool)
    requires HostOk(h) && h.renderPair(Plain, 2, "B", Int("2"), 2) == ["  B: 2"]
    ensures SetGoesLate(h, MEET_DOC, MEET_ROOT, name, props, replace, NEW_KEY)
  {
    hide HostOk, TopAt, EnvName, KindsOf, EntryGoesLate, EnvGoesLate, IndentUnit, BlockEnd, SetEdits, GainsUnder;
    MeetTops(h);
    TwoKinds(MEET_DOC);
    NewKeyIs();
    NewKeyEdits(EnvCtx(h, MEET_DOC, MEET_ROOT));
    NewKeyGains(EnvCtx(h, MEET_DOC, MEET_ROOT));
  }

  lemma NewKeyGains(c: Ctx)
    requires PastBlock(c, 0, 0) == 2
    ensures GainsUnder(c, 0, 0, ENV_NODE, NEW_KEY, 2)
  {
    hide PastBlock;
    assert "B" in NEW_KEY && !Has(ENV_NODE.pairs, "B");
  }

  lemma MeetSplice(doc: seq<string>, entry: seq<string>)
    requires doc == MEET_DOC
    ensures Spliced(doc, [Edit(2, 3, ["connections:"]), Edit(3, 3, entry), Edit(2, 2, ["  B: 2"])])
         == ["env:", "  A: 1", "connections:", "connections: {}"] + entry
  {
    var e, f, g := Edit(2, 3, ["connections:"]), Edit(3, 3, entry), Edit(2, 2, ["  B: 2"]);
    hide *;
    SplicedTriple(doc, e, f, g);
    MeetSteps(doc, entry);
  }

  lemma MeetSteps(doc: seq<string>, entry: seq<string>)
    requires doc == MEET_DOC
    ensures Splice(Splice(Splice(doc, Edit(3, 3, entry)), Edit(2, 2, ["  B: 2"])), Edit(2, 3, ["connections:"]))
         == ["env:", "  A: 1", "connections:", "connections: {}"] + entry
  {
    var one := ["env:", "  A: 1", "connections: {}"] + entry;
    assert doc[3..] == [] && doc[..3] == doc;
    assert Splice(doc, Edit(3, 3, entry)) == one;
    var two := ["env:", "  A: 1", "  B: 2", "connections: {}"] + entry;
    assert one[..2] == ["env:", "  A: 1"] && one[2..] == ["connections: {}"] + entry;
    assert Splice(one, Edit(2, 2, ["  B: 2"])) == two;
    assert two[..2] == ["env:", "  A: 1"] && two[3..] == ["connections: {}"] + entry;
  }

  // ----- an env block at the end of a file without connections

  const LAST_DOC: seq<string> := ["env:", "  A: 1"]

  const LAST_ROOT := Block(0, [Pair("env", 0, ENV_NODE)])

  /** A first connection together with an env key: the env key lands below the
      new connections block. */
  lemma EnvKeySlips(h: Host, name: string, props: map<string, Value>, replace: bool)
    requires HostOk(h) && h.parse(LAST_DOC) == Some(LAST_ROOT) && h.renderPair(Plain, 2, "B", Int("2"), 2) == ["  B: 2"]
    ensures Rooted(LAST_DOC, LAST_ROOT) && SetPlan(h, LAST_DOC, LAST_ROOT, name, props, replace, NEW_KEY).Some?
    ensures Spliced(LAST_DOC, SetPlan(h, LAST_DOC, LAST_ROOT, name, props, replace, NEW_KEY).value.edits)
         == LAST_DOC + h.renderPair(Annotated, 2, "connections", Map(map[name := NewEntry(props)]), 0) + ["  B: 2"]
  {
    hide *;
    ParsedRooted(h, LAST_DOC, LAST_ROOT);
    var top := h.renderPair(Annotated, 2, "connections", Map(map[name := NewEntry(props)]), 0);
    LastConn(h, name, props, replace);
    LastEnv(h);
    NewKeyIs();
    PlanJoins(h, LAST_DOC, LAST_ROOT, name, props, replace, NEW_KEY);
    assert [Edit(2, 2, top)] + [Edit(2, 2, ["  B: 2"])] == [Edit(2, 2, top), Edit(2, 2, ["  B: 2"])];
    LastSplice(top);
  }

  /** Where the parser finds the key among the connections, the save of a
      proper connection is refused. */
  lemma SlippedKeyRefused(h: Host, name: string, props: map<string, Value>, opts: EditOptions, entry: Value)
    requires HostOk(h) && h.parse(LAST_DOC) == Some(LAST_ROOT) && h.renderPair(Plain, 2, "B", Int("2"), 2) == ["  B: 2"]
    requires opts.envUpdates == NEW_KEY && h.fold("B") != h.fold(h.canon(name))
    requires var out :=
        h.parse(LAST_DOC + h.renderPair(Annotated, 2, "connections", Map(map[h.canon(name) := NewEntry(props)]), 0)
                + ["  B: 2"]);
             out.Some? ==>
                 FileOf(out.value)
                   == map["env" := Map(map["A" := Int("1")]), "connections" :=
                          Map(map[h.canon(name) := entry, "B" := Int("2")])]
    ensures Rooted(LAST_DOC, LAST_ROOT) && !SetSucceeds(h, LAST_DOC, LAST_ROOT, name, Some(props), opts)
  {
    hide *;
    EnvKeySlips(h, h.canon(name), props, opts.replace);
    LastFile();
    SlippedDiffers(h, h.canon(name), entry);
    NewKeyIs();
    Refused(h, LAST_DOC, LAST_ROOT, name, props, opts);
  }

  lemma Refused(h: Host, lines: seq<string>, root: Node, name: string, props: map<string, Value>, opts: EditOptions)
    requires Rooted(lines, root)
    requires var plan := SetPlan(h, lines, root, h.canon(name), props, opts.replace, opts.envUpdates);
             plan.Some? &&
             var out := h.parse(Spliced(lines, plan.value.edits));
             out.Some? ==> DropEnv(DropConn(h.fold, FileOf(root), h.canon(name)), opts.envUpdates.Keys)
                           != DropEnv(DropConn(h.fold, FileOf(out.value), h.canon(name)), opts.envUpdates.Keys)
    ensures !SetSucceeds(h, lines, root, name, Some(props), opts)
  {
    hide Rooted, SetPlan, Spliced, DropEnv, DropConn, FileOf, SetAllowed, Same;
  }

  lemma LastFile()
    ensures FileOf(LAST_ROOT) == map["env" := Map(map["A" := Int("1")])]
  {
    assert DecodePairs(ENV_NODE, 1) == map[];
    assert DecodePairs(ENV_NODE, 0) == map["A" := Int("1")] + map[] == map["A" := Int("1")];
    assert DecodePairs(LAST_ROOT, 1) == map[];
    assert DecodePairs(LAST_ROOT, 0) == map["env" := Decode(ENV_NODE)] + map[] == map["env" := Decode(ENV_NODE)];
  }

  lemma SlippedDiffers(h: Host, name: string, entry: Value)
    requires h.fold("B") != h.fold(name)
    ensures var before: File := map["env" := Map(map["A" := Int("1")])];
            var after :=
                map["env" := Map(map["A" := Int("1")]), "connections" := Map(map[name := entry, "B" := Int("2")])];
            DropEnv(DropConn(h.fold, before, name), {"B"}) != DropEnv(DropConn(h.fold, after, name), {"B"})
  {
    var before: File := map["env" := Map(map["A" := Int("1")])];
    var after: File :=
        map["env" := Map(map["A" := Int("1")]), "connections" := Map(map[name := entry, "B" := Int("2")])];
    DropConnEntry(h.fold, before, name, "connections", "B");
    DropConnEntry(h.fold, after, name, "connections", "B");
    hide DropConn, DropEnv;
    EnvDiffers(DropConn(h.fold, before, name), DropConn(h.fold, after, name), {"B"}, "B");
  }

  lemma EnvDiffers(b: File, a: File, keys: set<string>, key: string)
    requires EntryAt(b, "connections", key) != EntryAt(a, "connections", key)
    ensures DropEnv(b, keys) != DropEnv(a, keys)
  {
    hide DropEnv, EntryAt;
    if DropEnv(b, keys) == DropEnv(a, keys) { EnvComparison(b, a, keys); }
  }

  lemma LastTops(h: Host)
    requires HostOk(h)
    ensures ConnsAt(h, LAST_ROOT) == None && EnvAt(h, LAST_ROOT) == Some(Section("env", 0, 0, ENV_NODE))
            && IndentUnit(LAST_ROOT) == 2
  {
    var tail := LAST_ROOT.pairs[1..];
    assert tail == [];
    assert FindFold(h.fold, tail, "connections") == 0;
    assert FindFold(h.fold, LAST_ROOT.pairs, "connections") == 1;
    assert Find(LAST_ROOT.pairs, "env") == 0;
  }

  lemma LastConn(h: Host, name: string, props: map<string, Value>, replace: bool)
    requires HostOk(h) && Rooted(LAST_DOC, LAST_ROOT)
    ensures var plan := ConnPlan(h, LAST_DOC, LAST_ROOT, name, props, replace);
            plan.Some?
              && plan.value.edits
                 == [Edit(2, 2, h.renderPair(Annotated, 2, "connections", Map(map[name := NewEntry(props)]), 0))]
  {
    LastTops(h);
    assert !SpacedPairs(KindsOf(LAST_DOC), LAST_ROOT);
    hide HostOk, Rooted, TopAt, IndentUnit, KindsOf, NewEntry, SpacedPairs;
  }

  lemma LastEnv(h: Host)
    requires HostOk(h) && Rooted(LAST_DOC, LAST_ROOT) && h.renderPair(Plain, 2, "B", Int("2"), 2) == ["  B: 2"]
    ensures EnvEdits(h, LAST_DOC, LAST_ROOT, NEW_KEY) == Some([Edit(2, 2, ["  B: 2"])])
  {
    SortedOne(h, "B");
    hide HostOk, Rooted, TopAt, IndentUnit, KindsOf, EnvName, SetEdits, Sorts;
    LastTops(h);
    TwoKinds(LAST_DOC);
    assert NEW_KEY.Keys == {"B"};
    NewKeyEdits(EnvCtx(h, LAST_DOC, LAST_ROOT));
  }

  lemma LastSplice(top: seq<string>)
    ensures Spliced(LAST_DOC, [Edit(2, 2, top), Edit(2, 2, ["  B: 2"])]) == LAST_DOC + top + ["  B: 2"]
  {
    hide Spliced, Splice;
    SplicedPair(LAST_DOC, Edit(2, 2, top), Edit(2, 2, ["  B: 2"]));
    LastSteps(LAST_DOC, top);
  }

  lemma LastSteps(doc: seq<string>, top: seq<string>)
    requires |doc| == 2
    ensures Splice(Splice(doc, Edit(2, 2, ["  B: 2"])), Edit(2, 2, top)) == doc + top + ["  B: 2"]
  {
    var mid := doc + ["  B: 2"];
    assert doc[2..] == [] && doc[..2] == doc;
    assert Splice(doc, Edit(2, 2, ["  B: 2"])) == mid;
    assert mid[..2] == doc && mid[2..] == ["  B: 2"];
  }
}
