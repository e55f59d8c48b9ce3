/** The line edits of the env file editor: a list of replacements of line
    ranges, computed from one parse and applied from the bottom up.

    The meaning of an edit list is given by one left-to-right pass that never
    sorts anything (`OnePass`). The bottom-up splice is proved to be that pass
    for the edit lists without a "late insert", and only for those. */
module LineSplice {
  import opened Sequences

  /** Replace lines[start..end] by lines; start == end inserts. */
  datatype Edit = Edit(start: nat, end: nat, lines: seq<string>)

  /** An edit together with its place in the order of addition. */
  datatype LineEdit = LineEdit(edit: Edit, nth: nat)

  predicate InRange(e: Edit, n: nat) {
    e.start <= e.end <= n
  }

  predicate IsInsert(e: Edit) {
    e.start == e.end
  }

  predicate Apart(a: Edit, b: Edit) {
    a.end <= b.start || b.end <= a.start
  }

  /** In range and pairwise disjoint: what every caller of Apply provides. */
  ghost predicate Applicable(edits: seq<Edit>, n: nat) {
    && (forall i | 0 <= i < |edits| :: InRange(edits[i], n))
    && (forall i, j | 0 <= i < j < |edits| :: Apart(edits[i], edits[j]))
  }

  /** b inserts at the first line a replaces, and was added after a. */
  predicate LatePair(a: Edit, b: Edit) {
    a.start < a.end && IsInsert(b) && b.start == a.start && b.lines != []
  }

  ghost predicate NoLateInsert(edits: seq<Edit>) {
    forall i, j | 0 <= i < j < |edits| :: !LatePair(edits[i], edits[j])
  }

  // ----- the meaning: one pass over the lines

  /** Lines inserted before line p, in the order the inserts were added. */
  function Inserted(edits: seq<Edit>, p: nat): seq<string> {
    if edits == [] then []
    else (if edits[0].start == p == edits[0].end then edits[0].lines else []) + Inserted(edits[1..], p)
  }

  /** Lines that stand in for the range that starts at line p. */
  function Replacing(edits: seq<Edit>, p: nat): seq<string> {
    if edits == [] then []
    else (if edits[0].start == p < edits[0].end then edits[0].lines else []) + Replacing(edits[1..], p)
  }

  /** Whether some edit removes line p. */
  function Covered(edits: seq<Edit>, p: nat): bool {
    edits != [] && (edits[0].start <= p < edits[0].end || Covered(edits[1..], p))
  }

  /** What line p of doc becomes, without what is inserted before it. */
  function Emit(doc: seq<string>, edits: seq<Edit>, p: nat): seq<string>
    requires p < |doc|
  {
    Replacing(edits, p) + if Covered(edits, p) then [] else [doc[p]]
  }

  /** Lines a..b of the pass; the inserts at a belong to the text before it,
      the inserts at b to this one. */
  function Segment(doc: seq<string>, edits: seq<Edit>, a: nat, b: nat): seq<string>
    requires a <= b <= |doc|
    decreases b - a
  {
    if a == b then [] else Emit(doc, edits, a) + Inserted(edits, a + 1) + Segment(doc, edits, a + 1, b)
  }

  function OnePass(doc: seq<string>, edits: seq<Edit>): seq<string> {
    Inserted(edits, 0) + Segment(doc, edits, 0, |doc|)
  }

  // ----- the algorithm: sort bottom up, splice one edit after the other

  /** The comparison the edits are sorted by. */
  predicate Earlier(a: LineEdit, b: LineEdit) {
    if a.edit.start != b.edit.start then a.edit.start > b.edit.start else a.nth > b.nth
  }

  ghost predicate SortedBottomUp(s: seq<LineEdit>) {
    forall i, j | 0 <= i < j < |s| :: Earlier(s[i], s[j])
  }

  function InsertSorted(e: LineEdit, s: seq<LineEdit>): (r: seq<LineEdit>)
    ensures multiset(r) == multiset(s) + multiset{e}
  {
    if s == [] || Earlier(e, s[0]) then [e] + s
    else
      assert s == [s[0]] + s[1..];
      [s[0]] + InsertSorted(e, s[1..])
  }

  function SortBottomUp(s: seq<LineEdit>): (r: seq<LineEdit>)
    ensures multiset(r) == multiset(s)
  {
    if s == [] then []
    else
      assert s == s[..|s| - 1] + [s[|s| - 1]];
      InsertSorted(s[|s| - 1], SortBottomUp(s[..|s| - 1]))
  }

  /** One splice of the running text. */
  function Splice(out: seq<string>, e: Edit): seq<string> {
    if InRange(e, |out|) then out[..e.start] + e.lines + out[e.end..] else out
  }

  /** The splices of s, first to last. */
  function Run(out: seq<string>, s: seq<LineEdit>): seq<string>
    decreases |s|
  {
    if s == [] then out else Run(Splice(out, s[0].edit), s[1..])
  }

  /** Every splice of s finds its range in the running text. */
  predicate Fits(out: seq<string>, s: seq<LineEdit>)
    decreases |s|
  {
    s == [] || (InRange(s[0].edit, |out|) && Fits(Splice(out, s[0].edit), s[1..]))
  }

  function Numbered(edits: seq<Edit>): (r: seq<LineEdit>)
    ensures |r| == |edits|
    ensures forall i | 0 <= i < |edits| :: r[i] == LineEdit(edits[i], i)
  {
    seq(|edits|, i requires 0 <= i < |edits| => LineEdit(edits[i], i))
  }

  function Spliced(doc: seq<string>, edits: seq<Edit>): seq<string> {
    Run(doc, SortBottomUp(Numbered(edits)))
  }

  /** The edits an edit collector holds, and the collector's operations. */
  class LineEdits {
    var edits: seq<LineEdit>

    ghost predicate Valid() reads this {
      edits == Numbered(Plain())
    }

    ghost function Plain(): seq<Edit> reads this {
      seq(|edits|, i requires 0 <= i < |edits| reads this => edits[i].edit)
    }

    lemma NumberedPlain()
      requires Valid()
      ensures Numbered(Plain()) == edits
    {
    }

    constructor ()
      ensures Valid() && Plain() == []
    {
      edits := [];
    }

    /** A collector that holds these edits already. */
    constructor Of(plan: seq<Edit>)
      ensures Valid() && Plain() == plan
    {
      edits := Numbered(plan);
      new;
      assert Plain() == plan;
    }

    method Replace(start: nat, end: nat, lines: seq<string>)
      requires Valid()
      modifies this
      ensures Valid() && Plain() == old(Plain()) + [Edit(start, end, lines)]
    {
      edits := edits + [LineEdit(Edit(start, end, lines), |edits|)];
    }

    method Insert(at: nat, lines: seq<string>)
      requires Valid()
      modifies this
      ensures Valid() && Plain() == old(Plain()) + [Edit(at, at, lines)]
    {
      Replace(at, at, lines);
    }

    /** The edited text. It is the one pass whenever no insert is late. */
    method Apply(lines: seq<string>) returns (out: seq<string>)
      requires Valid() && Applicable(Plain(), |lines|)
      ensures out == Spliced(lines, Plain())
      ensures NoLateInsert(Plain()) ==> out == OnePass(lines, Plain())
    {
      var sorted := SortBottomUp(edits);
      NumberedPlain();
      SortedFits(lines, Plain());
      out := lines;
      for i := 0 to |sorted|
        invariant Run(out, sorted[i..]) == Run(lines, sorted)
        invariant Fits(out, sorted[i..])
      {
        var e := sorted[i].edit;
        assert sorted[i..][1..] == sorted[i + 1..];
        out := out[..e.start] + e.lines + out[e.end..];
      }
      assert sorted[|sorted|..] == [];
      if NoLateInsert(Plain()) {
        SpliceIsOnePass(lines, Plain());
      }
    }
  }

  // ----- the pass, region by region

  lemma {:induction false} InsertedConcat(a: seq<Edit>, b: seq<Edit>, p: nat)
    ensures Inserted(a + b, p) == Inserted(a, p) + Inserted(b, p)
    ensures Replacing(a + b, p) == Replacing(a, p) + Replacing(b, p)
    ensures Covered(a + b, p) == (Covered(a, p) || Covered(b, p))
  {
    if a == [] {
      assert a + b == b;
    } else {
      var e, t := a[0], a[1..];
      assert (a + b)[0] == e && (a + b)[1..] == t + b;
      InsertedConcat(t, b, p);
      Regroup(if e.start == p == e.end then e.lines else [], Inserted(t, p), Inserted(b, p));
      Regroup(if e.start == p < e.end then e.lines else [], Replacing(t, p), Replacing(b, p));
    }
  }

  lemma {:induction false} NothingInserted(edits: seq<Edit>, p: nat)
    requires forall i | 0 <= i < |edits| :: IsInsert(edits[i]) && edits[i].start == p ==> edits[i].lines == []
    ensures Inserted(edits, p) == []
  {
    if edits != [] { NothingInserted(edits[1..], p); }
  }

  lemma {:induction false} NothingReplaced(edits: seq<Edit>, p: nat)
    requires forall i | 0 <= i < |edits| :: edits[i].start < edits[i].end ==> edits[i].start != p
    ensures Replacing(edits, p) == []
  {
    if edits != [] { NothingReplaced(edits[1..], p); }
  }

  lemma {:induction false} CoveredBySome(edits: seq<Edit>, p: nat)
    ensures Covered(edits, p) <==> exists i | 0 <= i < |edits| :: edits[i].start <= p < edits[i].end
  {
    if edits != [] {
      CoveredBySome(edits[1..], p);
      if i :| 0 <= i < |edits| && edits[i].start <= p < edits[i].end {
        if i > 0 { assert edits[1..][i - 1] == edits[i]; }
      }
    }
  }

  lemma {:induction false} SegmentSplit(doc: seq<string>, edits: seq<Edit>, a: nat, b: nat, c: nat)
    requires a <= b <= c <= |doc|
    ensures Segment(doc, edits, a, c) == Segment(doc, edits, a, b) + Segment(doc, edits, b, c)
    decreases b - a
  {
    if a < b { SegmentSplit(doc, edits, a + 1, b, c); }
  }

  lemma {:induction false} SegmentAgree(doc: seq<string>, x: seq<Edit>, y: seq<Edit>, a: nat, b: nat)
    requires a <= b <= |doc|
    requires forall p | a <= p < b :: Emit(doc, x, p) == Emit(doc, y, p)
    requires forall p | a < p <= b :: Inserted(x, p) == Inserted(y, p)
    ensures Segment(doc, x, a, b) == Segment(doc, y, a, b)
    decreases b - a
  {
    hide Emit, Inserted;
    if a < b { SegmentAgree(doc, x, y, a + 1, b); }
  }

  /** A region no edit reaches is copied byte for byte. */
  lemma {:induction false} SegmentQuiet(doc: seq<string>, edits: seq<Edit>, a: nat, b: nat)
    requires a <= b <= |doc|
    requires forall p | a <= p < b :: Emit(doc, edits, p) == [doc[p]]
    requires forall p | a < p < b :: Inserted(edits, p) == []
    ensures Segment(doc, edits, a, b) == if a == b then [] else doc[a..b] + Inserted(edits, b)
    decreases b - a
  {
    hide Emit, Inserted, Segment;
    if a == b {
      NoSegment(doc, edits, a);
    } else {
      SegmentQuiet(doc, edits, a + 1, b);
      FirstLine(doc, edits, a, b);
      CopiedLine(doc, a, b, Inserted(edits, b));
    }
  }

  lemma CopiedLine(doc: seq<string>, a: nat, b: nat, ins: seq<string>)
    requires a < b <= |doc|
    ensures if a + 1 < b then [doc[a]] + [] + (doc[a + 1..b] + ins) == doc[a..b] + ins
            else [doc[a]] + ins + [] == doc[a..b] + ins
  {
    assert doc[a..b] == [doc[a]] + doc[a + 1..b];
    assert [doc[a]] + [] == [doc[a]];
    if a + 1 < b { Regroup([doc[a]], doc[a + 1..b], ins); }
  }

  /** A region whose lines all go away leaves only what is inserted at its end. */
  lemma {:induction false} SegmentGone(doc: seq<string>, edits: seq<Edit>, a: nat, b: nat)
    requires a <= b <= |doc|
    requires forall p | a <= p < b :: Emit(doc, edits, p) == []
    requires forall p | a < p < b :: Inserted(edits, p) == []
    ensures Segment(doc, edits, a, b) == if a == b then [] else Inserted(edits, b)
    decreases b - a
  {
    hide Emit, Inserted;
    if a < b {
      SegmentGone(doc, edits, a + 1, b);
      if a + 1 < b {
        assert [] + [] + Inserted(edits, b) == Inserted(edits, b);
      } else {
        assert [] + Inserted(edits, b) + [] == Inserted(edits, b);
      }
    }
  }

  // ----- the splices in ascending order

  /** The splices of asc from its last edit to its first. */
  function Fold(doc: seq<string>, asc: seq<Edit>): seq<string> {
    if asc == [] then doc else Splice(Fold(doc, asc[1..]), asc[0])
  }

  /** The edits of a bottom-up list in ascending order. */
  function Ascending(s: seq<LineEdit>): (r: seq<Edit>)
    ensures |r| == |s|
  {
    if s == [] then [] else Ascending(s[1..]) + [s[0].edit]
  }

  lemma {:induction false} AscendingAt(s: seq<LineEdit>, i: nat)
    requires i < |s|
    ensures Ascending(s)[|s| - 1 - i] == s[i].edit
  {
    if i > 0 { AscendingAt(s[1..], i - 1); }
  }

  lemma {:induction false} FoldSnoc(doc: seq<string>, asc: seq<Edit>, e: Edit)
    ensures Fold(doc, asc + [e]) == Fold(Splice(doc, e), asc)
  {
    if asc != [] {
      assert (asc + [e])[1..] == asc[1..] + [e];
      FoldSnoc(doc, asc[1..], e);
    }
  }

  lemma {:induction false} RunIsFold(doc: seq<string>, s: seq<LineEdit>)
    ensures Run(doc, s) == Fold(doc, Ascending(s))
    decreases |s|
  {
    if s != [] {
      RunIsFold(Splice(doc, s[0].edit), s[1..]);
      FoldSnoc(doc, Ascending(s[1..]), s[0].edit);
    }
  }

  ghost predicate StartsAscend(asc: seq<Edit>) {
    forall i, j | 0 <= i < j < |asc| :: asc[i].start <= asc[j].start
  }

  lemma TailApplicable(asc: seq<Edit>, n: nat)
    requires asc != [] && StartsAscend(asc) && Applicable(asc, n)
    ensures StartsAscend(asc[1..]) && Applicable(asc[1..], n)
    ensures NoLateInsert(asc) ==> NoLateInsert(asc[1..])
  {
  }

  /** With no edit before line s, the pass copies doc up to s. */
  lemma PassFrom(doc: seq<string>, edits: seq<Edit>, s: nat)
    requires s <= |doc|
    requires forall i | 0 <= i < |edits| :: s <= edits[i].start
    ensures OnePass(doc, edits) == doc[..s] + Inserted(edits, s) + Segment(doc, edits, s, |doc|)
  {
    hide Segment, Emit, Inserted;
    SegmentSplit(doc, edits, 0, s, |doc|);
    forall p | 0 <= p < s ensures Emit(doc, edits, p) == [doc[p]] && Inserted(edits, p) == [] {
      QuietAt(doc, edits, p);
      NothingInserted(edits, p);
    }
    SegmentQuiet(doc, edits, 0, s);
    if s == 0 { assert Segment(doc, edits, 0, 0) == [] by { NoSegment(doc, edits, 0); } }
    PassParts(Inserted(edits, 0), Segment(doc, edits, 0, s), Segment(doc, edits, s, |doc|), doc[..s],
              Inserted(edits, s), s == 0);
  }

  lemma NoSegment(doc: seq<string>, edits: seq<Edit>, a: nat)
    requires a <= |doc|
    ensures Segment(doc, edits, a, a) == []
  {
  }

  lemma PassParts(
    first: seq<string>, seg: seq<string>, rest: seq<string>, head: seq<string>, ins: seq<string>, atTop: bool)
    requires if atTop then seg == [] && head == [] && ins == first else first == [] && seg == head + ins
    ensures first + (seg + rest) == head + ins + rest
  {
  }

  /** A line that no edit touches is copied. */
  lemma QuietAt(doc: seq<string>, edits: seq<Edit>, p: nat)
    requires p < |doc| && forall i | 0 <= i < |edits| :: p < edits[i].start || edits[i].start == edits[i].end
    ensures Emit(doc, edits, p) == [doc[p]] && Replacing(edits, p) == []
  {
    NothingReplaced(edits, p);
    CoveredBySome(edits, p);
  }

  /** A splice replaces the middle of a text and keeps both ends. */
  lemma SpliceMiddle(head: seq<string>, mid: seq<string>, tail: seq<string>, e: Edit)
    requires e.start == |head| && e.end == |head| + |mid|
    ensures |head + (mid + tail)| >= e.end
    ensures Splice(head + (mid + tail), e) == head + (e.lines + tail)
  {
    var out := head + (mid + tail);
    Regroup(head, mid, tail);
    assert out[..e.start] == head;
    assert out[e.end..] == tail;
    Regroup(head, e.lines, tail);
  }

  /** What one more edit, added first, does to a line of the pass. */
  lemma ConsAt(doc: seq<string>, e: Edit, rest: seq<Edit>, p: nat)
    ensures Inserted([e] + rest, p) == (if e.start == p == e.end then e.lines else []) + Inserted(rest, p)
    ensures p < |doc| && e.start == p < e.end && Replacing(rest, p) == [] ==> Emit(doc, [e] + rest, p) == e.lines
    ensures p < |doc| && e.start < p < e.end && Replacing(rest, p) == [] ==> Emit(doc, [e] + rest, p) == []
    ensures p < |doc| && !(e.start <= p < e.end) ==> Emit(doc, [e] + rest, p) == Emit(doc, rest, p)
  {
    assert ([e] + rest)[1..] == rest;
  }

  /** An insert added before all the other edits of its start line. */
  lemma OnePassInsert(doc: seq<string>, e: Edit, rest: seq<Edit>)
    requires IsInsert(e) && e.start <= |doc|
    requires forall i | 0 <= i < |rest| :: e.start <= rest[i].start
    ensures |OnePass(doc, rest)| >= e.start
    ensures OnePass(doc, [e] + rest) == Splice(OnePass(doc, rest), e)
  {
    var s, all := e.start, [e] + rest;
    PassFrom(doc, rest, s);
    PassFrom(doc, all, s);
    SegmentCons(doc, e, rest, s, |doc|);
    ConsAt(doc, e, rest, s);
    var head, ins, tail := doc[..s], Inserted(rest, s), Segment(doc, rest, s, |doc|);
    Regroup(head, ins, tail);
    Regroup(head, e.lines + ins, tail);
    Regroup(e.lines, ins, tail);
    SpliceMiddle(head, [], ins + tail, e);
    assert [] + (ins + tail) == ins + tail;
  }

  /** An edit that ends where a region starts does not reach it. */
  lemma SegmentCons(doc: seq<string>, e: Edit, rest: seq<Edit>, a: nat, b: nat)
    requires e.start <= e.end <= a <= b <= |doc|
    ensures Segment(doc, [e] + rest, a, b) == Segment(doc, rest, a, b)
  {
    forall p | a <= p <= b
      ensures p < b ==> Emit(doc, [e] + rest, p) == Emit(doc, rest, p)
      ensures a < p ==> Inserted([e] + rest, p) == Inserted(rest, p)
    {
      ConsAt(doc, e, rest, p);
    }
    SegmentAgree(doc, [e] + rest, rest, a, b);
  }

  ghost predicate OnlyAround(e: Edit, rest: seq<Edit>) {
    forall i | 0 <= i < |rest| :: e.end <= rest[i].start || (IsInsert(rest[i]) && rest[i].start == e.start)
  }

  lemma ReplacedRegion(doc: seq<string>, e: Edit, rest: seq<Edit>)
    requires e.start < e.end <= |doc| && OnlyAround(e, rest)
    ensures Segment(doc, rest, e.start, e.end) == doc[e.start..e.end] + Inserted(rest, e.end)
    ensures Segment(doc, [e] + rest, e.start, e.end) == e.lines + Inserted(rest, e.end)
  {
    KeptRegion(doc, e, rest);
    GoneRegion(doc, e, rest);
  }

  lemma KeptRegion(doc: seq<string>, e: Edit, rest: seq<Edit>)
    requires e.start < e.end <= |doc| && OnlyAround(e, rest)
    ensures Segment(doc, rest, e.start, e.end) == doc[e.start..e.end] + Inserted(rest, e.end)
  {
    hide Segment, Emit, Inserted;
    var s, t := e.start, e.end;
    forall p | s <= p < t ensures Emit(doc, rest, p) == [doc[p]] && (s < p ==> Inserted(rest, p) == []) {
      QuietAt(doc, rest, p);
      if s < p { NothingInserted(rest, p); }
    }
    SegmentQuiet(doc, rest, s, t);
  }

  lemma GoneRegion(doc: seq<string>, e: Edit, rest: seq<Edit>)
    requires e.start < e.end <= |doc| && OnlyAround(e, rest)
    ensures Segment(doc, [e] + rest, e.start, e.end) == e.lines + Inserted(rest, e.end)
  {
    hide Segment, Emit, Inserted;
    var s, t, all := e.start, e.end, [e] + rest;
    forall p | s <= p <= t
      ensures s < p ==> Inserted(all, p) == Inserted(rest, p)
      ensures s < p < t ==> Inserted(all, p) == []
      ensures p < t ==> Emit(doc, all, p) == if p == s then e.lines else []
    {
      ConsAt(doc, e, rest, p);
      if p < t { QuietAt(doc, rest, p); }
      if s < p < t { NothingInserted(rest, p); }
    }
    SegmentGone(doc, all, s + 1, t);
    FirstLine(doc, all, s, t);
    if s + 1 == t { NoSegment(doc, all, t); }
  }

  lemma FirstLine(doc: seq<string>, edits: seq<Edit>, a: nat, b: nat)
    requires a < b <= |doc|
    ensures Segment(doc, edits, a, b) == Emit(doc, edits, a) + Inserted(edits, a + 1) + Segment(doc, edits, a + 1, b)
  {
  }

  lemma OnePassReplace(doc: seq<string>, e: Edit, rest: seq<Edit>)
    requires e.start < e.end <= |doc| && OnlyAround(e, rest)
    requires Inserted(rest, e.start) == []
    ensures |OnePass(doc, rest)| >= e.end
    ensures OnePass(doc, [e] + rest) == Splice(OnePass(doc, rest), e)
  {
    var s, t, n := e.start, e.end, |doc|;
    var all := [e] + rest;
    PassFrom(doc, rest, s);
    PassFrom(doc, all, s);
    SegmentSplit(doc, rest, s, t, n);
    SegmentSplit(doc, all, s, t, n);
    ReplacedRegion(doc, e, rest);
    SegmentCons(doc, e, rest, t, n);
    ConsAt(doc, e, rest, s);
    var head, mid, ins, tail := doc[..s], doc[s..t], Inserted(rest, t), Segment(doc, rest, t, n);
    assert head + [] == head;
    Regroup(mid, ins, tail);
    Regroup(e.lines, ins, tail);
    SpliceMiddle(head, mid, ins + tail, e);
  }

  lemma {:induction false} FoldIsOnePass(doc: seq<string>, asc: seq<Edit>)
    requires StartsAscend(asc) && Applicable(asc, |doc|) && NoLateInsert(asc)
    ensures Fold(doc, asc) == OnePass(doc, asc)
  {
    if asc == [] {
      PassFrom(doc, [], |doc|);
    } else {
      TailApplicable(asc, |doc|);
      var e, rest := asc[0], asc[1..];
      assert asc == [e] + rest;
      FoldIsOnePass(doc, rest);
      if IsInsert(e) {
        OnePassInsert(doc, e, rest);
      } else {
        forall i | 0 <= i < |rest|
          ensures e.end <= rest[i].start || (IsInsert(rest[i]) && rest[i].start == e.start && rest[i].lines == [])
        {
          assert asc[i + 1] == rest[i];
          assert Apart(asc[0], asc[i + 1]) && !LatePair(asc[0], asc[i + 1]);
        }
        NothingInserted(rest, e.start);
        OnePassReplace(doc, e, rest);
      }
    }
  }

  // ----- the sort

  lemma {:induction false} InsertSortedSorted(e: LineEdit, s: seq<LineEdit>)
    requires SortedBottomUp(s)
    requires forall x | x in s :: x.nth != e.nth
    ensures SortedBottomUp(InsertSorted(e, s))
  {
    if s != [] && !Earlier(e, s[0]) {
      InsertSortedSorted(e, s[1..]);
      var r := InsertSorted(e, s[1..]);
      forall x | x in r ensures Earlier(s[0], x) {
        assert x in multiset(r);
        assert x == e || x in s[1..];
      }
    }
  }

  /** s is the list the splices follow: every edit once, last line first, and
      on one line the latest added first. */
  ghost predicate BottomUp(s: seq<LineEdit>, edits: seq<Edit>) {
    && SortedBottomUp(s)
    && |s| == |edits|
    && (forall i | 0 <= i < |s| :: s[i].nth < |edits| && s[i].edit == edits[s[i].nth])
  }

  lemma {:induction false} SortSorts(edits: seq<Edit>)
    ensures BottomUp(SortBottomUp(Numbered(edits)), edits)
  {
    if edits != [] {
      var all, m := Numbered(edits), |edits| - 1;
      assert all[..m] == Numbered(edits[..m]);
      SortSorts(edits[..m]);
      InsertSortedSorted(all[m], SortBottomUp(all[..m]));
    }
    SortMembers(edits);
  }

  lemma SortMembers(edits: seq<Edit>)
    ensures var s := SortBottomUp(Numbered(edits));
            && |s| == |edits|
            && forall i | 0 <= i < |s| :: s[i].nth < |edits| && s[i].edit == edits[s[i].nth]
  {
    hide SortBottomUp;
    var all := Numbered(edits);
    var s := SortBottomUp(all);
    assert |s| == |multiset(s)| == |multiset(all)| == |all|;
    forall i | 0 <= i < |s| ensures s[i].nth < |edits| && s[i].edit == edits[s[i].nth] {
      assert s[i] in multiset(s) && s[i] in multiset(all);
    }
  }

  lemma SortKeeps(edits: seq<Edit>, k: nat)
    requires k < |edits|
    ensures LineEdit(edits[k], k) in SortBottomUp(Numbered(edits))
  {
    var all := Numbered(edits);
    assert all[k] in multiset(all) && all[k] in multiset(SortBottomUp(all));
  }

  /** What an edit list does at line p. */
  function At(edits: seq<Edit>, p: nat): (seq<string>, seq<string>, bool) {
    (Inserted(edits, p), Replacing(edits, p), Covered(edits, p))
  }

  /** Neighbours with different start lines may change places. */
  lemma SwapNeighbours(x: seq<Edit>, e: Edit, h: Edit, p: nat)
    requires e.start != h.start
    ensures At((x + [e]) + [h], p) == At((x + [h]) + [e], p)
  {
    InsertedConcat(x + [e], [h], p);
    InsertedConcat(x, [e], p);
    InsertedConcat(x + [h], [e], p);
    InsertedConcat(x, [h], p);
    hide Inserted, Replacing, Covered;
    OnlyAtStart(e, p);
    OnlyAtStart(h, p);
    SwapOneEmpty(Inserted(x, p), Inserted([e], p), Inserted([h], p));
    SwapOneEmpty(Replacing(x, p), Replacing([e], p), Replacing([h], p));
  }

  lemma SwapOneEmpty(x: seq<string>, y: seq<string>, z: seq<string>)
    requires y == [] || z == []
    ensures (x + y) + z == (x + z) + y
  {
  }

  lemma OnlyAtStart(e: Edit, p: nat)
    ensures e.start != p ==> Inserted([e], p) == [] && Replacing([e], p) == []
  {
  }

  /** Inserting the latest edit into the sorted list is, for the pass, adding
      it at the end. */
  lemma {:induction false} InsertSortedPass(e: LineEdit, s: seq<LineEdit>, p: nat)
    requires forall x | x in s :: x.nth < e.nth
    ensures At(Ascending(InsertSorted(e, s)), p) == At(Ascending(s) + [e.edit], p)
  {
    if s != [] && !Earlier(e, s[0]) {
      var h, t := s[0].edit, s[1..];
      InsertSortedPass(e, t, p);
      var r := InsertSorted(e, t);
      assert ([s[0]] + r)[1..] == r;
      AtConcat(Ascending(r), Ascending(t) + [e.edit], [h], p);
      SwapNeighbours(Ascending(t), e.edit, h, p);
    } else {
      assert ([e] + s)[1..] == s;
    }
  }

  lemma AtConcat(x: seq<Edit>, y: seq<Edit>, z: seq<Edit>, p: nat)
    requires At(x, p) == At(y, p)
    ensures At(x + z, p) == At(y + z, p)
  {
    InsertedConcat(x, z, p);
    InsertedConcat(y, z, p);
  }

  lemma {:induction false} SortedPass(edits: seq<Edit>, p: nat)
    ensures At(Ascending(SortBottomUp(Numbered(edits))), p) == At(edits, p)
  {
    hide InsertSorted, Earlier, At, SortedBottomUp;
    if edits != [] {
      var m, all := |edits| - 1, Numbered(edits);
      var init, last := edits[..m], all[m];
      assert all[..m] == Numbered(init);
      SortedPass(init, p);
      SortSorts(init);
      var s := SortBottomUp(all[..m]);
      InsertSortedPass(last, s, p);
      AtConcat(Ascending(s), init, [edits[m]], p);
      assert edits == init + [edits[m]];
    }
  }

  lemma SortedAscends(edits: seq<Edit>, n: nat)
    requires Applicable(edits, n)
    ensures var asc := Ascending(SortBottomUp(Numbered(edits)));
            && StartsAscend(asc) && Applicable(asc, n)
            && (NoLateInsert(edits) ==> NoLateInsert(asc))
  {
    hide SortBottomUp, InsertSorted;
    var s := SortBottomUp(Numbered(edits));
    var asc, m := Ascending(s), |s|;
    SortSorts(edits);
    forall i | 0 <= i < m ensures asc[i] == s[m - 1 - i].edit && s[m - 1 - i] in s {
      AscendingAt(s, m - 1 - i);
    }
    forall i, j | 0 <= i < j < m
      ensures asc[i].start <= asc[j].start && Apart(asc[i], asc[j])
      ensures NoLateInsert(edits) ==> !LatePair(asc[i], asc[j])
    {
      var x, y := s[m - 1 - i], s[m - 1 - j];
      assert Earlier(y, x);
      assert edits[x.nth] == asc[i] && edits[y.nth] == asc[j];
      assert x.nth < y.nth || y.nth < x.nth;
    }
  }

  /** The bottom-up splice is the one pass over the lines. */
  lemma SpliceIsOnePass(doc: seq<string>, edits: seq<Edit>)
    requires Applicable(edits, |doc|) && NoLateInsert(edits)
    ensures Spliced(doc, edits) == OnePass(doc, edits)
  {
    var s := SortBottomUp(Numbered(edits));
    var asc := Ascending(s);
    SortedAscends(edits, |doc|);
    RunIsFold(doc, s);
    FoldIsOnePass(doc, asc);
    forall p: nat
      ensures Inserted(asc, p) == Inserted(edits, p) && (p < |doc| ==> Emit(doc, asc, p) == Emit(doc, edits, p))
    {
      SortedPass(edits, p);
    }
    SegmentAgree(doc, asc, edits, 0, |doc|);
  }

  // ----- no splice runs out of the text

  lemma {:induction false} FoldKeeps(doc: seq<string>, asc: seq<Edit>, m: nat)
    requires m <= |doc| && StartsAscend(asc) && Applicable(asc, |doc|)
    requires forall i | 0 <= i < |asc| :: m <= asc[i].start || IsInsert(asc[i])
    ensures |Fold(doc, asc)| >= m
    decreases |asc|, 1
  {
    if asc != [] {
      TailApplicable(asc, |doc|);
      FoldKeeps(doc, asc[1..], m);
      if m <= asc[0].start {
        FoldReaches(doc, asc);
      }
    }
  }

  lemma {:induction false} FoldReaches(doc: seq<string>, asc: seq<Edit>)
    requires asc != [] && StartsAscend(asc) && Applicable(asc, |doc|)
    ensures |Fold(doc, asc[1..])| >= asc[0].end
    decreases |asc|, 0
  {
    TailApplicable(asc, |doc|);
    forall i | 0 <= i < |asc| - 1 ensures asc[0].end <= asc[1..][i].start || IsInsert(asc[1..][i]) {
      assert Apart(asc[0], asc[i + 1]);
    }
    FoldKeeps(doc, asc[1..], asc[0].end);
  }

  lemma {:induction false} FitsSnoc(out: seq<string>, s: seq<LineEdit>, x: LineEdit)
    requires Fits(out, s) && InRange(x.edit, |Run(out, s)|)
    ensures Fits(out, s + [x])
    decreases |s|
  {
    if s != [] {
      assert (s + [x])[1..] == s[1..] + [x];
      FitsSnoc(Splice(out, s[0].edit), s[1..], x);
    }
  }

  lemma {:induction false} AscendingSnoc(s: seq<LineEdit>, x: LineEdit)
    ensures Ascending(s + [x]) == [x.edit] + Ascending(s)
  {
    if s != [] {
      assert (s + [x])[1..] == s[1..] + [x];
      AscendingSnoc(s[1..], x);
    }
  }

  lemma {:induction false} AscendingFits(doc: seq<string>, s: seq<LineEdit>)
    requires StartsAscend(Ascending(s)) && Applicable(Ascending(s), |doc|)
    ensures Fits(doc, s)
  {
    if s != [] {
      var m := |s| - 1;
      var asc := Ascending(s);
      assert s == s[..m] + [s[m]];
      AscendingSnoc(s[..m], s[m]);
      assert asc[1..] == Ascending(s[..m]);
      TailApplicable(asc, |doc|);
      AscendingFits(doc, s[..m]);
      FoldReaches(doc, asc);
      RunIsFold(doc, s[..m]);
      FitsSnoc(doc, s[..m], s[m]);
    }
  }

  lemma SortedFits(doc: seq<string>, edits: seq<Edit>)
    requires Applicable(edits, |doc|)
    ensures Fits(doc, SortBottomUp(Numbered(edits)))
  {
    SortedAscends(edits, |doc|);
    AscendingFits(doc, SortBottomUp(Numbered(edits)));
  }

  // ----- a late insert is spliced wrongly

  lemma {:induction false} FoldConcat(doc: seq<string>, a: seq<Edit>, b: seq<Edit>)
    ensures Fold(doc, a + b) == Fold(Fold(doc, b), a)
  {
    if a == [] {
      assert a + b == b;
    } else {
      assert (a + b)[1..] == a[1..] + b;
      FoldConcat(doc, a[1..], b);
    }
  }

  /** Edits of the head of a text leave its tail alone. */
  lemma {:induction false} FoldFrame(x: seq<string>, z: seq<string>, asc: seq<Edit>)
    requires StartsAscend(asc) && Applicable(asc, |x|)
    ensures Fold(x + z, asc) == Fold(x, asc) + z
  {
    if asc != [] {
      TailApplicable(asc, |x|);
      FoldFrame(x, z, asc[1..]);
      FoldReaches(x, asc);
      var out, e := Fold(x, asc[1..]), asc[0];
      assert (out + z)[..e.start] == out[..e.start];
      assert (out + z)[e.end..] == out[e.end..] + z;
      Regroup(out[..e.start] + e.lines, out[e.end..], z);
    }
  }

  lemma {:induction false} InsertedSome(edits: seq<Edit>, j: nat)
    requires j < |edits| && IsInsert(edits[j]) && edits[j].lines != []
    ensures Inserted(edits, edits[j].start) != []
  {
    if j > 0 { InsertedSome(edits[1..], j - 1); }
  }

  /** No edit writes this line. */
  ghost predicate Unwritten(edits: seq<Edit>, line: string) {
    forall i | 0 <= i < |edits| :: line !in edits[i].lines
  }

  lemma {:induction false} FromEdits(edits: seq<Edit>, p: nat, line: string)
    requires Unwritten(edits, line)
    ensures line !in Inserted(edits, p) && line !in Replacing(edits, p)
  {
    if edits != [] {
      assert line !in edits[0].lines;
      FromEdits(edits[1..], p, line);
    }
  }

  lemma NotInConcat(line: string, x: seq<string>, y: seq<string>, z: seq<string>)
    requires line !in x && line !in y && line !in z
    ensures line !in x + y + z
  {
  }

  /** A covered line that no edit writes is not in the pass. */
  lemma {:induction false} CoveredGone(doc: seq<string>, edits: seq<Edit>, a: nat, b: nat, line: string)
    requires a <= b <= |doc| && Unwritten(edits, line)
    requires forall p | a <= p < b && doc[p] == line :: Covered(edits, p)
    ensures line !in Segment(doc, edits, a, b)
    decreases b - a
  {
    hide Inserted, Replacing, Unwritten;
    if a < b {
      CoveredGone(doc, edits, a + 1, b, line);
      FromEdits(edits, a, line);
      FromEdits(edits, a + 1, line);
      assert line !in Emit(doc, edits, a);
      NotInConcat(line, Emit(doc, edits, a), Inserted(edits, a + 1), Segment(doc, edits, a + 1, b));
    }
  }

  function Longest(lines: seq<string>): (m: nat)
    ensures forall j | 0 <= j < |lines| :: |lines[j]| <= m
  {
    if lines == [] then 0 else var m := Longest(lines[1..]); if |lines[0]| > m then |lines[0]| else m
  }

  function LongestWritten(edits: seq<Edit>): (m: nat)
    ensures forall i, j | 0 <= i < |edits| && 0 <= j < |edits[i].lines| :: |edits[i].lines[j]| <= m
  {
    if edits == [] then 0
    else var m, k := LongestWritten(edits[1..]), Longest(edits[0].lines); if k > m then k else m
  }

  /** A line longer than every line the edits write. */
  function NewLine(edits: seq<Edit>): (line: string)
    ensures line != "" && Unwritten(edits, line)
  {
    seq(LongestWritten(edits) + 1, _ => '#')
  }

  /** A splice behind an insert at its first line removes inserted text in
      place of the last lines it should remove. */
  lemma SpliceAfterInsert(head: seq<string>, ins: seq<string>, mid: seq<string>, w: seq<string>, a: Edit)
    returns (z: seq<string>)
    requires ins != [] && mid != [] && a.start == |head| && a.end == |head| + |mid|
    ensures Splice(head + (ins + (mid + w)), a) == head + z
    ensures mid[|mid| - 1] in z
  {
    var tail, m := ins + (mid + w), |mid|;
    z := a.lines + tail[m..];
    assert tail == tail[..m] + tail[m..];
    SpliceMiddle(head, tail[..m], tail[m..], a);
    assert tail[|ins| + (m - 1)] == mid[m - 1];
    assert tail[m..][|ins| - 1] == mid[m - 1];
    assert z[|a.lines| + |ins| - 1] == mid[m - 1];
  }

  /** The pass over the edits behind a, seen from the range a replaces. */
  lemma PassBehind(doc: seq<string>, a: Edit, rest: seq<Edit>)
    requires a.start < a.end <= |doc| && OnlyAround(a, rest)
    ensures OnePass(doc, rest)
         == doc[..a.start] + (Inserted(rest, a.start) +
            (doc[a.start..a.end] + (Inserted(rest, a.end) + Segment(doc, rest, a.end, |doc|))))
  {
    var s, t, n := a.start, a.end, |doc|;
    PassFrom(doc, rest, s);
    ReplacedRegion(doc, a, rest);
    SegmentSplit(doc, rest, s, t, n);
    Regroup(doc[s..t], Inserted(rest, t), Segment(doc, rest, t, n));
    Regroup(doc[..s], Inserted(rest, s), Segment(doc, rest, s, n));
  }

  lemma AroundFirst(a: Edit, rest: seq<Edit>, n: nat)
    requires StartsAscend([a] + rest) && Applicable([a] + rest, n) && a.start < a.end
    ensures OnlyAround(a, rest) && StartsAscend(rest) && Applicable(rest, n)
  {
    var all := [a] + rest;
    assert all[1..] == rest;
    TailApplicable(all, n);
    forall i | 0 <= i < |rest| ensures a.end <= rest[i].start || (IsInsert(rest[i]) && rest[i].start == a.start) {
      assert all[i + 1] == rest[i] && Apart(all[0], all[i + 1]);
    }
  }

  lemma LastReplacedSurvives(doc: seq<string>, a: Edit, rest: seq<Edit>, j: nat)
    returns (z: seq<string>)
    requires StartsAscend([a] + rest) && Applicable([a] + rest, |doc|) && NoLateInsert(rest)
    requires j < |rest| && LatePair(a, rest[j]) && a.end <= |doc|
    ensures Fold(doc, [a] + rest) == doc[..a.start] + z
    ensures doc[a.end - 1] in z
  {
    hide OnePass, Segment, Inserted, Splice, StartsAscend, Applicable, NoLateInsert;
    AroundFirst(a, rest, |doc|);
    FoldIsOnePass(doc, rest);
    PassBehind(doc, a, rest);
    InsertedSome(rest, j);
    var mid := doc[a.start..a.end];
    z := SpliceAfterInsert(doc[..a.start], Inserted(rest, a.start), mid,
                           Inserted(rest, a.end) + Segment(doc, rest, a.end, |doc|), a);
    assert mid[|mid| - 1] == doc[a.end - 1];
    assert ([a] + rest)[1..] == rest;
  }

  /** Splits asc at the late pair whose replacement comes last in the text. */
  lemma {:induction false} LastLate(asc: seq<Edit>) returns (low: seq<Edit>, a: Edit, rest: seq<Edit>, k: nat)
    requires !NoLateInsert(asc)
    ensures asc == low + ([a] + rest) && k < |rest| && LatePair(a, rest[k]) && NoLateInsert(rest)
  {
    hide LatePair;
    if NoLateInsert(asc[1..]) {
      forall x, y | 0 < x < y < |asc| ensures !LatePair(asc[x], asc[y]) {
        assert asc[1..][x - 1] == asc[x] && asc[1..][y - 1] == asc[y];
      }
      var i, j :| 0 <= i < j < |asc| && LatePair(asc[i], asc[j]);
      low, a, rest, k := [], asc[0], asc[1..], j - 1;
      assert asc == [] + ([a] + rest);
    } else {
      low, a, rest, k := LastLate(asc[1..]);
      low := [asc[0]] + low;
      assert asc == [asc[0]] + asc[1..];
    }
  }

  lemma SplitApplicable(low: seq<Edit>, a: Edit, rest: seq<Edit>, n: nat)
    requires StartsAscend(low + ([a] + rest)) && Applicable(low + ([a] + rest), n) && a.start < a.end
    ensures StartsAscend(low) && Applicable(low, a.start)
    ensures StartsAscend([a] + rest) && Applicable([a] + rest, n)
  {
    var high := [a] + rest;
    var asc, m := low + high, |low|;
    assert asc[m] == a;
    forall i | 0 <= i < m ensures asc[i] == low[i] && low[i].start <= low[i].end <= a.start {
      assert Apart(asc[i], asc[m]) && asc[i].start <= asc[m].start;
    }
    forall i | 0 <= i < |high| ensures high[i] == asc[m + i] {
    }
  }

  lemma FoldAround(doc: seq<string>, low: seq<Edit>, high: seq<Edit>, s: nat, z: seq<string>)
    requires s <= |doc| && StartsAscend(low) && Applicable(low, s)
    requires Fold(doc, high) == doc[..s] + z
    ensures Fold(doc, low + high) == Fold(doc[..s], low) + z
  {
    FoldConcat(doc, low, high);
    assert |doc[..s]| == s;
    FoldFrame(doc[..s], z, low);
  }

  lemma LateSurvivesAt(doc: seq<string>, low: seq<Edit>, a: Edit, rest: seq<Edit>, k: nat)
    requires a.start < a.end <= |doc| && StartsAscend(low) && Applicable(low, a.start)
    requires StartsAscend([a] + rest) && Applicable([a] + rest, |doc|) && NoLateInsert(rest)
    requires k < |rest| && LatePair(a, rest[k])
    ensures doc[a.end - 1] in Fold(doc, low + ([a] + rest))
  {
    var z := LastReplacedSurvives(doc, a, rest, k);
    FoldAround(doc, low, [a] + rest, a.start, z);
    var out := Fold(doc[..a.start], low);
    assert doc[a.end - 1] in out + z;
  }

  /** The last line of every replaced range reads like line. */
  ghost predicate LastMarked(doc: seq<string>, asc: seq<Edit>, line: string) {
    forall i | 0 <= i < |asc| && asc[i].start < asc[i].end :: asc[i].end <= |doc| && doc[asc[i].end - 1] == line
  }

  lemma LateSurvives(doc: seq<string>, asc: seq<Edit>, line: string)
    requires StartsAscend(asc) && Applicable(asc, |doc|) && !NoLateInsert(asc) && LastMarked(doc, asc, line)
    ensures line in Fold(doc, asc)
  {
    hide Applicable, StartsAscend, NoLateInsert, Fold;
    var low, a, rest, k := LastLate(asc);
    assert asc[|low|] == a;
    SplitApplicable(low, a, rest, |doc|);
    LateSurvivesAt(doc, low, a, rest, k);
  }

  ghost predicate EndsAt(edits: seq<Edit>, p: nat) {
    exists i | 0 <= i < |edits| :: edits[i].start < edits[i].end == p + 1
  }

  /** A text that shows the difference: the last line of every replaced range
      is marked. */
  lemma LateDoc(edits: seq<Edit>, n: nat) returns (doc: seq<string>)
    requires Applicable(edits, n) && !NoLateInsert(edits)
    ensures |doc| == n && Spliced(doc, edits) != OnePass(doc, edits)
  {
    hide SortBottomUp, BottomUp, NoLateInsert, Applicable, Segment, Inserted, NewLine, StartsAscend, Numbered, Fold,
         Run, Covered, Unwritten, Ascending;
    var line := NewLine(edits);
    doc := seq(n, p requires 0 <= p < n => if EndsAt(edits, p) then line else "");
    var s := SortBottomUp(Numbered(edits));
    var asc := Ascending(s);
    SortedAscends(edits, n);
    LateStaysLate(edits);
    SortSorts(edits);
    MarkedEnds(doc, edits, s, line);
    LateSurvives(doc, asc, line);
    RunIsFold(doc, s);
    MarksGone(doc, edits, line);
  }

  /** In such a text the last line of every replaced range is the marked one. */
  lemma MarkedEnds(doc: seq<string>, edits: seq<Edit>, s: seq<LineEdit>, line: string)
    requires BottomUp(s, edits) && Applicable(edits, |doc|)
    requires forall p | 0 <= p < |doc| :: doc[p] == if EndsAt(edits, p) then line else ""
    ensures LastMarked(doc, Ascending(s), line)
  {
    hide BottomUp, Ascending;
    var asc := Ascending(s);
    forall i | 0 <= i < |asc| && asc[i].start < asc[i].end ensures asc[i].end <= |doc| && doc[asc[i].end - 1] == line {
      var k := AscendingMember(s, edits, i);
      assert InRange(edits[k], |doc|);
      assert EndsAt(edits, asc[i].end - 1);
    }
  }

  /** The pass takes every marked line out. */
  lemma MarksGone(doc: seq<string>, edits: seq<Edit>, line: string)
    requires line == NewLine(edits)
    requires forall p | 0 <= p < |doc| :: doc[p] == if EndsAt(edits, p) then line else ""
    ensures line !in OnePass(doc, edits)
  {
    hide Segment, Inserted;
    forall p | 0 <= p < |doc| && doc[p] == line ensures Covered(edits, p) {
      CoveredBySome(edits, p);
    }
    CoveredGone(doc, edits, 0, |doc|, line);
    FromEdits(edits, 0, line);
  }

  lemma AscendingMember(s: seq<LineEdit>, edits: seq<Edit>, i: nat) returns (k: nat)
    requires BottomUp(s, edits) && i < |s|
    ensures k < |edits| && Ascending(s)[i] == edits[k]
  {
    var q := |s| - 1 - i;
    AscendingAt(s, q);
    k := s[q].nth;
  }

  /** Where the k-th edit comes in the ascending list. */
  lemma AscendingPlace(edits: seq<Edit>, k: nat) returns (u: nat)
    requires k < |edits|
    ensures var s := SortBottomUp(Numbered(edits));
            u < |s| == |edits| && s[u] == LineEdit(edits[k], k) && Ascending(s)[|s| - 1 - u] == edits[k]
  {
    var s := SortBottomUp(Numbered(edits));
    SortSorts(edits);
    SortKeeps(edits, k);
    u :| u < |s| && s[u] == LineEdit(edits[k], k);
    AscendingAt(s, u);
  }

  lemma LateStaysLate(edits: seq<Edit>)
    requires !NoLateInsert(edits)
    ensures !NoLateInsert(Ascending(SortBottomUp(Numbered(edits))))
  {
    hide SortBottomUp, Ascending, Numbered, InsertSorted;
    var s := SortBottomUp(Numbered(edits));
    var i, j :| 0 <= i < j < |edits| && LatePair(edits[i], edits[j]);
    var u := AscendingPlace(edits, i);
    var v := AscendingPlace(edits, j);
    SortSorts(edits);
    assert v < u;
    assert LatePair(Ascending(s)[|s| - 1 - u], Ascending(s)[|s| - 1 - v]);
  }

  /** The splice is the one pass on every text of n lines exactly when no
      insert was added after a replacement that starts at its line. */
  lemma SpliceExact(edits: seq<Edit>, n: nat)
    requires Applicable(edits, n)
    ensures NoLateInsert(edits) <==>
            forall doc: seq<string> | |doc| == n :: Spliced(doc, edits) == OnePass(doc, edits)
  {
    if NoLateInsert(edits) {
      forall doc: seq<string> | |doc| == n ensures Spliced(doc, edits) == OnePass(doc, edits) {
        SpliceIsOnePass(doc, edits);
      }
    } else {
      var _ := LateDoc(edits, n);
    }
  }

  // ----- a few edits, spliced by hand

  lemma SortPair(x: LineEdit, y: LineEdit)
    ensures SortBottomUp([x, y]) == if Earlier(y, x) then [y, x] else [x, y]
  {
    hide Earlier;
    assert [x, y][..1] == [x] && [x][..0] == [] && [x][1..] == [];
    assert SortBottomUp([x]) == [x];
    assert InsertSorted(y, []) == [y];
  }

  lemma SortTriple(x: LineEdit, y: LineEdit, z: LineEdit)
    ensures SortBottomUp([x, y, z]) == InsertSorted(z, SortBottomUp([x, y]))
  {
    hide InsertSorted;
    assert [x, y, z][..2] == [x, y];
  }

  lemma RunPair(doc: seq<string>, x: LineEdit, y: LineEdit)
    ensures Run(doc, [x, y]) == Splice(Splice(doc, x.edit), y.edit)
  {
    hide Splice;
    assert [x, y][1..] == [y] && [y][1..] == [];
    var one := Splice(doc, x.edit);
    var two := Splice(one, y.edit);
    assert Run(two, []) == two;
    assert Run(one, [y]) == two;
  }

  lemma RunTriple(doc: seq<string>, x: LineEdit, y: LineEdit, z: LineEdit)
    ensures Run(doc, [x, y, z]) == Splice(Splice(Splice(doc, x.edit), y.edit), z.edit)
  {
    hide Splice;
    RunPair(Splice(doc, x.edit), y, z);
    assert [x, y, z][1..] == [y, z];
  }

  /** The edit added second goes first when it does not start further up. */
  lemma SplicedPair(doc: seq<string>, e: Edit, f: Edit)
    ensures Spliced(doc, [e, f]) == if e.start <= f.start then Splice(Splice(doc, f), e) else Splice(Splice(doc, e), f)
  {
    var x, y := LineEdit(e, 0), LineEdit(f, 1);
    assert Numbered([e, f]) == [x, y];
    SortPair(x, y);
    hide SortBottomUp, Numbered, Run, Splice;
    RunPair(doc, x, y);
    RunPair(doc, y, x);
  }

  /** The second of three edits is the lowest, the others start at one line. */
  lemma SplicedTriple(doc: seq<string>, e: Edit, f: Edit, g: Edit)
    requires e.start == g.start < f.start
    ensures Spliced(doc, [e, f, g]) == Splice(Splice(Splice(doc, f), g), e)
  {
    var x, y, z := LineEdit(e, 0), LineEdit(f, 1), LineEdit(g, 2);
    assert Numbered([e, f, g]) == [x, y, z];
    hide SortBottomUp, Numbered, Run, Splice, InsertSorted;
    SortPair(x, y);
    SortTriple(x, y, z);
    BetweenTwo(y, z, x);
    RunTriple(doc, y, z, x);
  }

  lemma BetweenTwo(y: LineEdit, z: LineEdit, x: LineEdit)
    requires !Earlier(z, y) && Earlier(z, x)
    ensures InsertSorted(z, [y, x]) == [y, z, x]
  {
    hide Earlier;
    assert [y, x][1..] == [x];
    assert InsertSorted(z, [x]) == [z, x];
  }
}
