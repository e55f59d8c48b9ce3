/** Where an entry of the env file starts and ends, read off the lines alone:
    the lines of a value, the comments that belong under it, and the comment
    block above a key. */
module LineGeometry {
  import opened Text

  predicate IsBlank(line: string) {
    TrimSpace(line) == ""
  }

  predicate IsComment(line: string) {
    "#" <= TrimSpace(line)
  }

  predicate IsSeqItem(line: string) {
    var t := TrimSpace(line);
    t == "-" || "- " <= t
  }

  function IndentOf(line: string): nat {
    |line| - |TrimLeft(line, c => c == ' ')|
  }

  /** All the walks look at. */
  datatype Kind =
    | Blank
    | Comment(indent: nat)
    | Content(indent: nat, item: bool)

  function KindOf(line: string): Kind {
    if IsBlank(line) then Blank
    else if IsComment(line) then Comment(IndentOf(line))
    else Content(IndentOf(line), IsSeqItem(line))
  }

  predicate Trimmed(text: string) {
    text != "" ==> !IsSpace(text[0]) && !IsSpace(text[|text| - 1])
  }

  lemma TrimmedLine(pad: string, text: string, tail: string)
    requires Trimmed(text) && forall i | 0 <= i < |pad + tail| :: IsSpace((pad + tail)[i])
    ensures TrimSpace(pad + text + tail) == text
  {
    hide IsSpace;
    var line := pad + text + tail;
    forall i | 0 <= i < |pad| ensures IsSpace(pad[i]) { assert (pad + tail)[i] == pad[i]; }
    forall i | 0 <= i < |tail| ensures IsSpace(tail[i]) { assert (pad + tail)[|pad| + i] == tail[i]; }
    if text == "" {
      TrimLeftIs(line, IsSpace, |line|);
      assert line[|line|..] == "";
    } else {
      TrimLeftIs(line, IsSpace, |pad|);
      assert line[|pad|..] == text + tail && line[|pad|] == text[0];
      TrimRightIs(text + tail, IsSpace, |text|);
      assert (text + tail)[..|text|] == text;
    }
  }

  /** What a line is: its indent in spaces, and by the text behind them a blank,
      a comment, an item of a list, or other content. */
  lemma KindIs(indent: nat, text: string, tail: string)
    requires Trimmed(text) && forall i | 0 <= i < |tail| :: IsSpace(tail[i])
    ensures KindOf(seq(indent, _ => ' ') + text + tail)
         == if text == "" then Blank
            else if text[0] == '#' then Comment(indent)
            else Content(indent, text[0] == '-' && (|text| == 1 || text[1] == ' '))
  {
    var pad: string := seq(indent, _ => ' ');
    var line := pad + text + tail;
    TrimmedLine(pad, text, tail);
    SpaceIs(text);
    hide TrimSpace, IsSpace, IndentOf;
    if text != "" {
      assert line[indent] == text[0];
      LeadingSpaces(line, indent);
    }
  }

  lemma SpaceIs(text: string)
    requires Trimmed(text)
    ensures text != "" ==> text[0] != ' '
  {
  }

  lemma {:induction false} LeadingSpaces(line: string, n: nat)
    requires n < |line| && line[n] != ' ' && forall i | 0 <= i < n :: line[i] == ' '
    ensures IndentOf(line) == n
  {
    if n > 0 { LeadingSpaces(line[1..], n - 1); }
  }

  type Kinds = seq<Kind>

  function KindsOf(lines: seq<string>): (r: Kinds)
    ensures |r| == |lines|
  {
    seq(|lines|, i requires 0 <= i < |lines| => KindOf(lines[i]))
  }

  /** A content line that belongs to the value of a key at column col. */
  predicate Deeper(x: Kind, col: nat) {
    x.Content? && (x.indent > col || (x.indent == col && x.item))
  }

  predicate DeepComment(x: Kind, col: nat) {
    x.Comment? && x.indent > col
  }

  predicate HeadComment(x: Kind, col: nat) {
    x == Comment(col)
  }

  /** A line that holds the key of a block mapping pair at column col. */
  predicate KeyLine(x: Kind, col: nat) {
    x == Content(col, false)
  }

  // ----- what the three walks find

  /** Behind line r nothing but blanks and comments comes before a line that
      does not belong to the value, or the end of the file. */
  ghost predicate ValueStops(ks: Kinds, r: nat, col: nat, stop: nat) {
    && r < stop <= |ks|
    && (forall i | r < i < stop :: !ks[i].Content?)
    && (stop < |ks| ==> ks[stop].Content? && !Deeper(ks[stop], col))
  }

  /** r is the last content line of the pair whose key is on line k. */
  ghost predicate IsValueEnd(ks: Kinds, k: nat, col: nat, r: nat) {
    && k <= r < |ks|
    && (r == k || Deeper(ks[r], col))
    && (forall i | k < i < r :: !ks[i].Content? || Deeper(ks[i], col))
    && exists stop :: ValueStops(ks, r, col, stop)
  }

  function ValueEndFrom(ks: Kinds, i: nat, last: nat, col: nat): nat
    decreases |ks| - i
  {
    if i >= |ks| then last
    else if !ks[i].Content? then ValueEndFrom(ks, i + 1, last, col)
    else if Deeper(ks[i], col) then ValueEndFrom(ks, i + 1, i, col)
    else last
  }

  function ValueEnd(ks: Kinds, k: nat, col: nat): nat {
    ValueEndFrom(ks, k + 1, k, col)
  }

  lemma {:induction false} ValueEndFromIs(ks: Kinds, k: nat, i: nat, last: nat, col: nat)
    requires k <= last < i <= |ks| && (last == k || Deeper(ks[last], col))
    requires forall j | k < j < i :: !ks[j].Content? || Deeper(ks[j], col)
    requires forall j | last < j < i :: !ks[j].Content?
    ensures IsValueEnd(ks, k, col, ValueEndFrom(ks, i, last, col))
    decreases |ks| - i
  {
    if i < |ks| && !ks[i].Content? {
      ValueEndFromIs(ks, k, i + 1, last, col);
    } else if i < |ks| && Deeper(ks[i], col) {
      ValueEndFromIs(ks, k, i + 1, i, col);
    } else {
      assert ValueStops(ks, last, col, i);
    }
  }

  lemma ValueEndIs(ks: Kinds, k: nat, col: nat)
    requires k < |ks|
    ensures IsValueEnd(ks, k, col, ValueEnd(ks, k, col))
  {
    ValueEndFromIs(ks, k, k + 1, k, col);
  }

  /** The description leaves no choice. */
  lemma ValueEndUnique(ks: Kinds, k: nat, col: nat, r: nat, r2: nat)
    requires IsValueEnd(ks, k, col, r) && IsValueEnd(ks, k, col, r2)
    ensures r == r2
  {
    var stop :| ValueStops(ks, r, col, stop);
    var stop2 :| ValueStops(ks, r2, col, stop2);
  }

  ghost predicate BlockStops(ks: Kinds, r: nat, col: nat, stop: nat) {
    && r < stop <= |ks|
    && (forall i | r < i < stop :: ks[i].Blank?)
    && (stop < |ks| ==> !ks[stop].Blank? && !DeepComment(ks[stop], col))
  }

  /** r is the last line of the comments under a value that ends on line v. */
  ghost predicate IsBlockEnd(ks: Kinds, v: nat, col: nat, r: nat) {
    && v <= r < |ks|
    && (r == v || DeepComment(ks[r], col))
    && (forall i | v < i < r :: ks[i].Blank? || DeepComment(ks[i], col))
    && exists stop :: BlockStops(ks, r, col, stop)
  }

  function BlockEndFrom(ks: Kinds, i: nat, last: nat, col: nat): nat
    decreases |ks| - i
  {
    if i >= |ks| then last
    else if ks[i].Blank? then BlockEndFrom(ks, i + 1, last, col)
    else if DeepComment(ks[i], col) then BlockEndFrom(ks, i + 1, i, col)
    else last
  }

  function BlockEnd(ks: Kinds, k: nat, col: nat): nat {
    var v := ValueEnd(ks, k, col);
    BlockEndFrom(ks, v + 1, v, col)
  }

  lemma {:induction false} BlockEndFromIs(ks: Kinds, v: nat, i: nat, last: nat, col: nat)
    requires v <= last < i <= |ks| && (last == v || DeepComment(ks[last], col))
    requires forall j | v < j < i :: ks[j].Blank? || DeepComment(ks[j], col)
    requires forall j | last < j < i :: ks[j].Blank?
    ensures IsBlockEnd(ks, v, col, BlockEndFrom(ks, i, last, col))
    decreases |ks| - i
  {
    if i < |ks| && ks[i].Blank? {
      BlockEndFromIs(ks, v, i + 1, last, col);
    } else if i < |ks| && DeepComment(ks[i], col) {
      BlockEndFromIs(ks, v, i + 1, i, col);
    } else {
      assert BlockStops(ks, last, col, i);
    }
  }

  lemma BlockEndIs(ks: Kinds, k: nat, col: nat)
    requires k < |ks|
    ensures IsBlockEnd(ks, ValueEnd(ks, k, col), col, BlockEnd(ks, k, col))
  {
    ValueEndIs(ks, k, col);
    var v := ValueEnd(ks, k, col);
    BlockEndFromIs(ks, v, v + 1, v, col);
  }

  lemma BlockEndUnique(ks: Kinds, v: nat, col: nat, r: nat, r2: nat)
    requires IsBlockEnd(ks, v, col, r) && IsBlockEnd(ks, v, col, r2)
    ensures r == r2
  {
    var stop :| BlockStops(ks, r, col, stop);
    var stop2 :| BlockStops(ks, r2, col, stop2);
  }

  /** i is the first line of the comment block right above line k. */
  ghost predicate IsHeadStart(ks: Kinds, k: nat, col: nat, i: nat) {
    && i <= k <= |ks|
    && (forall j | i <= j < k :: HeadComment(ks[j], col))
    && (i > 0 ==> !HeadComment(ks[i - 1], col))
  }

  function HeadStart(ks: Kinds, k: nat, col: nat): (i: nat)
    requires k <= |ks|
    ensures IsHeadStart(ks, k, col, i)
  {
    if k > 0 && HeadComment(ks[k - 1], col) then HeadStart(ks, k - 1, col) else k
  }

  // ----- the loops of the editor

  lemma KindAt(lines: seq<string>, i: nat)
    requires i < |lines|
    ensures KindsOf(lines)[i] == KindOf(lines[i])
  {
    hide KindOf;
  }

  lemma ValueEndLow(ks: Kinds, k: nat, col: nat)
    requires k < |ks|
    ensures k <= ValueEnd(ks, k, col) < |ks|
  {
    ValueEndIs(ks, k, col);
  }

  method FindValueEnd(lines: seq<string>, k: nat, col: nat) returns (last: nat)
    requires k < |lines|
    ensures IsValueEnd(KindsOf(lines), k, col, last)
    ensures last == ValueEnd(KindsOf(lines), k, col)
  {
    hide IsValueEnd, TrimSpace, KindsOf;
    ghost var ks := KindsOf(lines);
    last := k;
    var i := k + 1;
    while i < |lines|
      invariant k < i <= |lines|
      invariant ValueEndFrom(ks, i, last, col) == ValueEnd(ks, k, col)
    {
      var line := lines[i];
      KindAt(lines, i);
      if IsBlank(line) || IsComment(line) {
        i := i + 1;
        continue;
      }
      var ind := IndentOf(line);
      if ind > col || (ind == col && IsSeqItem(line)) {
        last := i;
        i := i + 1;
        continue;
      }
      break;
    }
    ValueEndIs(ks, k, col);
  }

  method FindBlockEnd(lines: seq<string>, k: nat, col: nat) returns (last: nat)
    requires k < |lines|
    ensures IsBlockEnd(KindsOf(lines), ValueEnd(KindsOf(lines), k, col), col, last)
    ensures last == BlockEnd(KindsOf(lines), k, col)
  {
    hide IsValueEnd, IsBlockEnd, TrimSpace, KindsOf, ValueEnd;
    ghost var ks := KindsOf(lines);
    last := FindValueEnd(lines, k, col);
    ValueEndIs(ks, k, col);
    ValueEndLow(ks, k, col);
    var i := last + 1;
    while i < |lines|
      invariant i <= |lines|
      invariant BlockEndFrom(ks, i, last, col) == BlockEnd(ks, k, col)
    {
      var line := lines[i];
      KindAt(lines, i);
      if IsBlank(line) {
        i := i + 1;
        continue;
      }
      if IsComment(line) && IndentOf(line) > col {
        last := i;
        i := i + 1;
        continue;
      }
      break;
    }
    BlockEndIs(ks, k, col);
  }

  method FindHeadStart(lines: seq<string>, k: nat, col: nat) returns (first: nat)
    requires k < |lines|
    ensures IsHeadStart(KindsOf(lines), k, col, first)
    ensures first == HeadStart(KindsOf(lines), k, col)
  {
    ghost var ks := KindsOf(lines);
    var i := k - 1;
    while i >= 0 && IsComment(lines[i]) && IndentOf(lines[i]) == col
      invariant -1 <= i < k
      invariant HeadStart(ks, i + 1, col) == HeadStart(ks, k, col)
    {
      assert ks[i] == KindOf(lines[i]);
      i := i - 1;
    }
    assert i >= 0 ==> ks[i] == KindOf(lines[i]);
    first := i + 1;
  }

  // ----- spans

  lemma EndsInRange(ks: Kinds, k: nat, col: nat)
    requires k < |ks|
    ensures k <= ValueEnd(ks, k, col) <= BlockEnd(ks, k, col) < |ks|
  {
    ValueEndIs(ks, k, col);
    BlockEndIs(ks, k, col);
  }

  /** Two keys at one column: the span of the first, from its head comments to
      its deep comments, ends before the span of the second starts. */
  lemma SiblingsApart(ks: Kinds, k: nat, k2: nat, col: nat)
    requires k < k2 < |ks| && KeyLine(ks[k], col) && KeyLine(ks[k2], col)
    ensures HeadStart(ks, k, col) <= k <= ValueEnd(ks, k, col) <= BlockEnd(ks, k, col)
    ensures BlockEnd(ks, k, col) < HeadStart(ks, k2, col) <= k2
  {
    ValueEndIs(ks, k, col);
    BlockEndIs(ks, k, col);
    var h := HeadStart(ks, k2, col);
    assert h < k2 ==> HeadComment(ks[h], col);
  }

  /** A child's span lies inside the block of its parent. */
  lemma ChildInside(ks: Kinds, k: nat, col: nat, c: nat, ccol: nat)
    requires k < c <= ValueEnd(ks, k, col) && c < |ks|
    requires col < ccol && KeyLine(ks[k], col) && KeyLine(ks[c], ccol)
    ensures k < HeadStart(ks, c, ccol) <= c
    ensures ValueEnd(ks, c, ccol) <= ValueEnd(ks, k, col)
    ensures BlockEnd(ks, c, ccol) <= BlockEnd(ks, k, col)
  {
    hide ValueEnd, BlockEnd;
    ValueEndIs(ks, k, col);
    ChildValueInside(ks, k, col, c, ccol);
    ValueEndIs(ks, c, ccol);
    BlockEndIs(ks, k, col);
    BlockEndIs(ks, c, ccol);
    var b := BlockEnd(ks, k, col);
    var bstop :| BlockStops(ks, b, col, bstop);
  }

  lemma ChildValueInside(ks: Kinds, k: nat, col: nat, c: nat, ccol: nat)
    requires k < c <= ValueEnd(ks, k, col) && c < |ks|
    requires col < ccol && KeyLine(ks[k], col) && KeyLine(ks[c], ccol)
    ensures ValueEnd(ks, c, ccol) <= ValueEnd(ks, k, col)
  {
    ValueEndIs(ks, k, col);
    ValueEndIs(ks, c, ccol);
    hide ValueEnd;
    var v := ValueEnd(ks, k, col);
    var stop :| ValueStops(ks, v, col, stop);
  }

  /** A line of some spaces and a text that is no comment and no list item. */
  lemma PlainLine(line: string, indent: nat)
    requires indent < |line| && forall i | 0 <= i < indent :: line[i] == ' '
    requires !IsSpace(line[indent]) && line[indent] != '#' && line[indent] != '-' && !IsSpace(line[|line| - 1])
    ensures KindOf(line) == Content(indent, false)
  {
    TrimLeftIs(line, IsSpace, indent);
    TrimLeftIs(line, c => c == ' ', indent);
    TrimRightIs(line[indent..], IsSpace, |line| - indent);
    assert TrimSpace(line) == line[indent..];
    assert TrimSpace(line)[0] == line[indent];
  }
}
