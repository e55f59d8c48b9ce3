/** Where a one-line scalar ends on the line of its key, so that another scalar
    can take its place with the text around it kept. Quoting follows sections
    7.3.1 (double quotes), 7.3.2 (single quotes) and 6.6 (comments) of YAML
    1.2.2. */
module ScalarText {
  import opened Text

  const QUOTE: char := '\U{0027}'
  const DOUBLE_QUOTE: char := '\U{0022}'
  const BACKSLASH: char := '\U{005C}'

  datatype Style = DoubleQuoted | SingleQuoted | Plain

  predicate IsPad(c: char) {
    c == ' ' || c == '\t'
  }

  // ----- what the scan finds

  /** From index i inside double quotes: past the closing quote, or -1. */
  function DoubleEnd(line: string, i: nat): int
    decreases |line| - i
  {
    if i >= |line| then -1
    else if line[i] == BACKSLASH then DoubleEnd(line, i + 2)
    else if line[i] == DOUBLE_QUOTE then i + 1
    else DoubleEnd(line, i + 1)
  }

  /** From index i inside single quotes, where two quotes stand for one. */
  function SingleEnd(line: string, i: nat): int
    decreases |line| - i
  {
    if i >= |line| then -1
    else if line[i] != QUOTE then SingleEnd(line, i + 1)
    else if i + 1 < |line| && line[i + 1] == QUOTE then SingleEnd(line, i + 2)
    else i + 1
  }

  /** The first `#` from index i on that a space or tab precedes, or |line|. */
  function CommentStart(line: string, i: nat): (r: nat)
    requires 0 < i <= |line|
    ensures i <= r <= |line|
    decreases |line| - i
  {
    if i == |line| || (line[i] == '#' && IsPad(line[i - 1])) then i else CommentStart(line, i + 1)
  }

  function EndOf(line: string, off: nat, style: Style): int
    requires off < |line|
  {
    match style
    case DoubleQuoted => DoubleEnd(line, off + 1)
    case SingleQuoted => SingleEnd(line, off + 1)
    case Plain => off + |TrimRight(line[off..CommentStart(line, off + 1)], IsPad)|
  }

  method ScalarEnd(line: string, off: nat, style: Style) returns (end: int)
    requires off < |line|
    ensures end == EndOf(line, off, style)
  {
    match style {
      case DoubleQuoted =>
        var i := off + 1;
        while i < |line|
          invariant DoubleEnd(line, i) == DoubleEnd(line, off + 1)
        {
          if line[i] == BACKSLASH {
            i := i + 2;
            continue;
          }
          if line[i] == DOUBLE_QUOTE {
            return i + 1;
          }
          i := i + 1;
        }
        return -1;
      case SingleQuoted =>
        var i := off + 1;
        while i < |line|
          invariant SingleEnd(line, i) == SingleEnd(line, off + 1)
        {
          if line[i] == QUOTE {
            if i + 1 < |line| && line[i + 1] == QUOTE {
              i := i + 2;
              continue;
            }
            return i + 1;
          }
          i := i + 1;
        }
        return -1;
      case Plain =>
        var stop := |line|;
        var i := off + 1;
        while i < |line|
          invariant off < i <= |line| && stop == |line|
          invariant CommentStart(line, i) == CommentStart(line, off + 1)
        {
          if line[i] == '#' && (line[i - 1] == ' ' || line[i - 1] == '\t') {
            stop := i;
            break;
          }
          i := i + 1;
        }
        end := off + |TrimRight(line[off..stop], IsPad)|;
    }
  }

  // ----- single quotes

  /** The text between single quotes that stands for s. */
  function Doubled(s: string): string {
    if s == "" then "" else (if s[0] == QUOTE then "''" else [s[0]]) + Doubled(s[1..])
  }

  function Single(s: string): string {
    "'" + Doubled(s) + "'"
  }

  lemma {:induction false} SingleEndAt(line: string, i: nat, s: string)
    requires i + |Doubled(s)| < |line|
    requires line[i..i + |Doubled(s)|] == Doubled(s) && line[i + |Doubled(s)|] == QUOTE
    ensures SingleEnd(line, i) == i + |Doubled(s)| + 1
       <==> !(i + |Doubled(s)| + 1 < |line| && line[i + |Doubled(s)| + 1] == QUOTE)
    decreases |s|
  {
    var d := Doubled(s);
    if s == "" {
      SingleEndGrows(line, i + 2);
    } else {
      var head, tail := (if s[0] == QUOTE then "''" else [s[0]]), Doubled(s[1..]);
      assert d == head + tail;
      var m := i + |head|;
      assert line[m..m + |tail|] == tail by {
        assert line[m..m + |tail|] == line[i..i + |d|][|head|..];
        assert d[|head|..] == tail;
      }
      assert forall j | 0 <= j < |head| :: line[i + j] == line[i..i + |d|][j] == head[j];
      SingleEndAt(line, m, s[1..]);
      if s[0] == QUOTE {
        assert line[i] == head[0] == QUOTE && line[i + 1] == head[1] == QUOTE;
      } else {
        assert line[i] == head[0];
      }
    }
  }

  lemma {:induction false} SingleEndGrows(line: string, i: nat)
    ensures SingleEnd(line, i) == -1 || SingleEnd(line, i) > i
    decreases |line| - i
  {
    if i < |line| {
      if line[i] != QUOTE { SingleEndGrows(line, i + 1); }
      else if i + 1 < |line| && line[i + 1] == QUOTE { SingleEndGrows(line, i + 2); }
    }
  }

  /** The scan finds the end of every single-quoted scalar, unless a quote
      follows it. */
  lemma SingleExact(before: string, s: string, after: string)
    ensures EndOf(before + Single(s) + after, |before|, SingleQuoted) == |before| + |Single(s)|
       <==> after == "" || after[0] != QUOTE
  {
    var line, off, d := before + Single(s) + after, |before|, Doubled(s);
    assert line[off + 1..off + 1 + |d|] == d;
    assert line[off + 1 + |d|] == QUOTE;
    assert after != "" ==> line[off + 2 + |d|] == after[0];
    SingleEndAt(line, off + 1, s);
  }

  // ----- double quotes

  /** A character between double quotes: itself, or a backslash and one more. */
  datatype Unit = Bare(c: char) | Escaped(c: char)

  predicate IsUnit(u: Unit) {
    u.Bare? ==> u.c != DOUBLE_QUOTE && u.c != BACKSLASH
  }

  function UnitText(u: Unit): string {
    match u case Bare(c) => [c] case Escaped(c) => [BACKSLASH, c]
  }

  function UnitsText(us: seq<Unit>): string {
    if us == [] then "" else UnitText(us[0]) + UnitsText(us[1..])
  }

  function Double(us: seq<Unit>): string {
    "\"" + UnitsText(us) + "\""
  }

  lemma {:induction false} DoubleEndAt(line: string, i: nat, us: seq<Unit>)
    requires forall u | u in us :: IsUnit(u)
    requires i + |UnitsText(us)| < |line|
    requires line[i..i + |UnitsText(us)|] == UnitsText(us) && line[i + |UnitsText(us)|] == DOUBLE_QUOTE
    ensures DoubleEnd(line, i) == i + |UnitsText(us)| + 1
    decreases |us|
  {
    if us != [] {
      var d, head, tail := UnitsText(us), UnitText(us[0]), UnitsText(us[1..]);
      var m := i + |head|;
      assert line[m..m + |tail|] == tail by {
        assert line[m..m + |tail|] == line[i..i + |d|][|head|..];
        assert d[|head|..] == tail;
      }
      assert IsUnit(us[0]);
      assert line[i] == line[i..i + |d|][0] == head[0];
      DoubleEndAt(line, m, us[1..]);
    }
  }

  /** The scan finds the end of every double-quoted scalar. */
  lemma DoubleExact(before: string, us: seq<Unit>, after: string)
    requires forall u | u in us :: IsUnit(u)
    ensures EndOf(before + Double(us) + after, |before|, DoubleQuoted) == |before| + |Double(us)|
  {
    var line, off, d := before + Double(us) + after, |before|, UnitsText(us);
    assert line[off + 1..off + 1 + |d|] == d;
    assert line[off + 1 + |d|] == DOUBLE_QUOTE;
    DoubleEndAt(line, off + 1, us);
  }

  // ----- plain scalars

  /** A plain scalar on one line: no comment starts in it, no pad ends it. */
  predicate IsPlain(s: string) {
    && s != "" && !IsPad(s[|s| - 1])
    && forall i | 0 < i < |s| :: !(s[i] == '#' && IsPad(s[i - 1]))
  }

  /** What may follow a plain scalar: pads, and after at least one a comment. */
  predicate IsTrailer(s: string, pads: nat) {
    && pads <= |s| && (forall i | 0 <= i < pads :: IsPad(s[i]))
    && (pads < |s| ==> pads > 0 && s[pads] == '#')
  }

  lemma {:induction false} CommentStartIs(line: string, i: nat, r: nat)
    requires 0 < i <= r <= |line| && (r < |line| ==> line[r] == '#' && IsPad(line[r - 1]))
    requires forall j | i <= j < r :: !(line[j] == '#' && IsPad(line[j - 1]))
    ensures CommentStart(line, i) == r
    decreases r - i
  {
    if i < r { CommentStartIs(line, i + 1, r); }
  }

  /** The scan stops at the end of a plain scalar, before the pads and the
      comment that follow. */
  lemma PlainExact(before: string, s: string, after: string, pads: nat)
    requires IsPlain(s) && IsTrailer(after, pads)
    ensures EndOf(before + s + after, |before|, Plain) == |before| + |s|
  {
    var line, off := before + s + after, |before|;
    var stop := off + |s| + pads;
    NoCommentBefore(before, s, after, pads);
    CommentStartIs(line, off + 1, stop);
    var text := line[off..stop];
    assert text == s + after[..pads];
    hide CommentStart;
    TrimRightIs(text, IsPad, |s|);
  }

  /** No comment starts in the scalar or its pads, and one does right after. */
  lemma NoCommentBefore(before: string, s: string, after: string, pads: nat)
    requires IsPlain(s) && IsTrailer(after, pads)
    ensures var line, stop := before + s + after, |before| + |s| + pads;
            && |before| < stop <= |line|
            && (stop < |line| ==> line[stop] == '#' && IsPad(line[stop - 1]))
            && forall j | |before| + 1 <= j < stop :: !(line[j] == '#' && IsPad(line[j - 1]))
  {
    var line, off := before + s + after, |before|;
    assert forall j | off <= j < off + |s| :: line[j] == s[j - off];
    assert forall j | off + |s| <= j < |line| :: line[j] == after[j - off - |s|];
    hide IsPad;
    forall j | off + 1 <= j < off + |s| + pads ensures !(line[j] == '#' && IsPad(line[j - 1])) {
      if j < off + |s| {
        assert line[j] == s[j - off] && line[j - 1] == s[j - off - 1];
      } else {
        assert IsPad(after[j - off - |s|]);
        HashIsNoPad();
      }
    }
  }

  lemma HashIsNoPad()
    ensures !IsPad('#')
  {
  }

  // ----- the splice

  /** A scalar as it stands on a line, with what may follow it. */
  datatype Scalar =
    | InSingle(s: string)
    | InDouble(us: seq<Unit>)
    | Bare(s: string)

  predicate CanStand(v: Scalar, after: string) {
    match v
    case InSingle(_) => after == "" || after[0] != QUOTE
    case InDouble(us) => forall u | u in us :: IsUnit(u)
    case Bare(s) => IsPlain(s) && exists pads :: 0 <= pads <= |after| && IsTrailer(after, pads)
  }

  function TextOf(v: Scalar): string {
    match v
    case InSingle(s) => Single(s)
    case InDouble(us) => Double(us)
    case Bare(s) => s
  }

  function StyleOf(v: Scalar): Style {
    match v case InSingle(_) => SingleQuoted case InDouble(_) => DoubleQuoted case Bare(_) => Plain
  }

  /** The line with the scalar at off replaced. */
  function ReplaceAt(line: string, off: nat, style: Style, text: string): Option<string>
    requires off < |line|
  {
    var end := EndOf(line, off, style);
    if off <= end <= |line| then Some(line[..off] + text + line[end..]) else None
  }

  lemma ScalarExact(before: string, v: Scalar, after: string)
    requires CanStand(v, after)
    ensures TextOf(v) != "" && EndOf(before + TextOf(v) + after, |before|, StyleOf(v)) == |before| + |TextOf(v)|
  {
    match v
    case InSingle(s) => SingleExact(before, s, after);
    case InDouble(us) => DoubleExact(before, us, after);
    case Bare(s) =>
      var pads :| 0 <= pads <= |after| && IsTrailer(after, pads);
      PlainExact(before, s, after, pads);
  }

  /** Replacing a scalar keeps the text before and after it, and replacing the
      new one by the old gives the line back. */
  lemma SpliceBack(before: string, v: Scalar, w: Scalar, after: string)
    requires CanStand(v, after) && CanStand(w, after)
    ensures |before| < |before + TextOf(v) + after| && |before| < |before + TextOf(w) + after|
    ensures ReplaceAt(before + TextOf(v) + after, |before|, StyleOf(v), TextOf(w)) == Some(before + TextOf(w) + after)
    ensures ReplaceAt(before + TextOf(w) + after, |before|, StyleOf(w), TextOf(v)) == Some(before + TextOf(v) + after)
  {
    hide EndOf, CanStand, TextOf;
    ScalarExact(before, v, after);
    ScalarExact(before, w, after);
    Parts(before, TextOf(v), after);
    Parts(before, TextOf(w), after);
  }

  lemma Parts(x: string, y: string, z: string)
    ensures (x + y + z)[..|x|] == x && (x + y + z)[|x| + |y|..] == z
  {
  }
}
