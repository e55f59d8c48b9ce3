/** Loading a text into lines and writing the lines back. */
module FileText {
  import opened Text
  import opened Sequences

  /** The editor's view of a file: lines without their ending, the ending to
      write, and whether the last line has one. */
  datatype FileLines = FileLines(lines: seq<string>, eol: string, endNL: bool)

  /** The index of the first line feed, or |t|. */
  function LineFeed(t: string): (i: nat)
    ensures i <= |t| && (i < |t| ==> t[i] == '\n')
    ensures forall j | 0 <= j < i :: t[j] != '\n'
  {
    if t == "" || t[0] == '\n' then 0 else 1 + LineFeed(t[1..])
  }

  function Split(t: string): (r: seq<string>)
    ensures r != []
    decreases |t|
  {
    var i := LineFeed(t);
    if i == |t| then [t] else [t[..i]] + Split(t[i + 1..])
  }

  function Join(lines: seq<string>, sep: string): string {
    if lines == [] then ""
    else if |lines| == 1 then lines[0]
    else lines[0] + sep + Join(lines[1..], sep)
  }

  predicate HasCrLf(t: string) {
    exists i :: 0 < i < |t| && t[i - 1] == '\r' && t[i] == '\n'
  }

  function TrimReturns(lines: seq<string>): (r: seq<string>)
    ensures |r| == |lines|
    ensures forall i | 0 <= i < |lines| :: r[i] == TrimSuffix(lines[i], "\r")
  {
    seq(|lines|, i requires 0 <= i < |lines| => TrimSuffix(lines[i], "\r"))
  }

  function LoadOf(text: string): FileLines {
    if text == "" then FileLines([], "\n", true)
    else FileLines(TrimReturns(Split(TrimSuffix(text, "\n"))),
                   if HasCrLf(text) then "\r\n" else "\n",
                   HasSuffix(text, "\n"))
  }

  function BytesOf(f: FileLines): string {
    if f.lines == [] then "" else Join(f.lines, f.eol) + if f.endNL then f.eol else ""
  }

  method Load(text: string) returns (f: FileLines)
    ensures f == LoadOf(text)
  {
    var eol, endNL, lines := "\n", true, [];
    if HasCrLf(text) {
      eol := "\r\n";
    }
    if text != "" {
      endNL := HasSuffix(text, "\n");
      lines := Split(TrimSuffix(text, "\n"));
      ghost var was := lines;
      for i := 0 to |lines|
        invariant |lines| == |was|
        invariant forall j | 0 <= j < i :: lines[j] == TrimSuffix(was[j], "\r")
        invariant forall j | i <= j < |was| :: lines[j] == was[j]
      {
        lines := lines[i := TrimSuffix(lines[i], "\r")];
      }
      assert lines == TrimReturns(was);
    }
    f := FileLines(lines, eol, endNL);
  }

  /** When the text can be written back as it was: mixed endings and a trailing
      carriage return cannot. */
  predicate Restorable(text: string) {
    && ((forall i | 0 <= i < |text| && text[i] == '\n' :: i > 0 && text[i - 1] == '\r')
        || forall i | 0 < i < |text| && text[i] == '\n' :: text[i - 1] != '\r')
    && (text != "" ==> text[|text| - 1] != '\r')
  }

  // ----- one line at a time

  /** The text written back, line by line from the front. */
  function Rewrite(t: string, eol: string): string
    decreases |t|
  {
    var i := LineFeed(t);
    if i == |t| then TrimSuffix(t, "\r")
    else TrimSuffix(t[..i], "\r") + eol + Rewrite(t[i + 1..], eol)
  }

  lemma {:induction false} SplitRewrites(t: string, eol: string)
    requires t != ""
    ensures Join(TrimReturns(Split(TrimSuffix(t, "\n"))), eol) + (if HasSuffix(t, "\n") then eol else "")
            == Rewrite(t, eol)
    decreases |t|
  {
    hide *;
    var i := LineFeed(t);
    if i >= |t| - 1 {
      OneLineRewrites(t, eol);
    } else {
      var r := t[i + 1..];
      var u, ur := TrimSuffix(t, "\n"), TrimSuffix(r, "\n");
      var last := if HasSuffix(t, "\n") then eol else "";
      LaterSuffix(t, i);
      SplitRewrites(r, eol);
      FirstLineJoins(u, r, ur, t[..i], eol, last);
      RewriteStep(t, eol);
    }
  }

  lemma RewriteStep(t: string, eol: string)
    requires LineFeed(t) < |t|
    ensures Rewrite(t, eol) == TrimSuffix(t[..LineFeed(t)], "\r") + eol + Rewrite(t[LineFeed(t) + 1..], eol)
  {
    hide TrimSuffix;
  }

  /** A text of one line, ended or not. */
  lemma OneLineRewrites(t: string, eol: string)
    requires t != "" && LineFeed(t) >= |t| - 1
    ensures Join(TrimReturns(Split(TrimSuffix(t, "\n"))), eol) + (if HasSuffix(t, "\n") then eol else "")
            == Rewrite(t, eol)
  {
    var i, u := LineFeed(t), TrimSuffix(t, "\n");
    if i == |t| {
      assert t[|t| - 1..][0] == t[|t| - 1] != '\n';
      assert u == t;
      OneLineJoins(u, eol);
    } else {
      assert t[|t| - 1..] == "\n";
      assert u == t[..i];
      LineFeedIs(u, i);
      OneLineJoins(u, eol);
      assert t[i + 1..] == "";
      assert TrimSuffix("", "\r") == "";
      assert Rewrite("", eol) == "";
      hide Join, TrimReturns, Split;
      RewriteStep(t, eol);
    }
  }

  lemma OneLineJoins(u: string, eol: string)
    requires LineFeed(u) == |u|
    ensures Join(TrimReturns(Split(u)), eol) == TrimSuffix(u, "\r")
  {
    hide TrimSuffix;
    assert Split(u) == [u];
    assert TrimReturns([u]) == [TrimSuffix(u, "\r")];
  }

  /** The first line of a longer text does not see how the text ends. */
  lemma LaterSuffix(t: string, i: nat)
    requires i == LineFeed(t) < |t| - 1
    ensures var u := TrimSuffix(t, "\n");
            LineFeed(u) == i < |u| && u[..i] == t[..i] && u[i + 1..] == TrimSuffix(t[i + 1..], "\n")
    ensures t[i + 1..] != "" && HasSuffix(t[i + 1..], "\n") == HasSuffix(t, "\n")
  {
    var r, u := t[i + 1..], TrimSuffix(t, "\n");
    assert r[|r| - 1..] == t[|t| - 1..];
    LineFeedIs(u, i);
  }

  lemma FirstLineJoins(u: string, r: string, ur: string, line: string, eol: string, last: string)
    requires LineFeed(u) == |line| < |u| && u[..|line|] == line && u[|line| + 1..] == ur
    requires Join(TrimReturns(Split(ur)), eol) + last == Rewrite(r, eol)
    ensures Join(TrimReturns(Split(u)), eol) + last == TrimSuffix(line, "\r") + eol + Rewrite(r, eol)
  {
    hide Rewrite, TrimSuffix, Join, TrimReturns;
    var tail := Split(ur);
    assert Split(u) == [line] + tail;
    assert tail != [];
    hide Split;
    FirstJoins(line, tail, eol);
    Regroup(TrimSuffix(line, "\r") + eol, Join(TrimReturns(tail), eol), last);
  }

  lemma FirstJoins(line: string, tail: seq<string>, eol: string)
    requires tail != []
    ensures Join(TrimReturns([line] + tail), eol) == TrimSuffix(line, "\r") + eol + Join(TrimReturns(tail), eol)
  {
    hide TrimSuffix;
    var all := TrimReturns([line] + tail);
    assert all[0] == TrimSuffix(line, "\r");
    assert all[1..] == TrimReturns(tail);
  }

  lemma {:induction false} LineFeedIs(t: string, i: nat)
    requires i <= |t| && (i < |t| ==> t[i] == '\n') && forall j | 0 <= j < i :: t[j] != '\n'
    ensures LineFeed(t) == i
  {
    if i > 0 { LineFeedIs(t[1..], i - 1); }
  }

  /** Whether the lines of t come back, with this ending. */
  predicate LinesRestorable(t: string, crlf: bool)
    decreases |t|
  {
    var i := LineFeed(t);
    if i == |t| then !HasSuffix(t, "\r")
    else HasSuffix(t[..i], "\r") == crlf && LinesRestorable(t[i + 1..], crlf)
  }

  /** Two texts that agree agree on their first line. */
  lemma SameFirstLine(line: string, rest: string, s: string, r: string)
    requires line != "" && line[|line| - 1] == '\n' && (forall j | 0 <= j < |line| - 1 :: line[j] != '\n')
    requires forall j | 0 <= j < |s| :: s[j] != '\n'
    requires line + rest == s + "\n" + r
    ensures line == s + "\n" && rest == r
  {
    LineFeedIs(line + rest, |line| - 1);
    LineFeedIs(s + "\n" + r, |s|);
    assert line == (line + rest)[..|line|];
    assert s + "\n" == (s + "\n" + r)[..|line|];
    assert rest == (line + rest)[|line|..];
    assert r == (s + "\n" + r)[|line|..];
  }

  lemma LineComesBack(s: string, crlf: bool)
    ensures TrimSuffix(s, "\r") + (if crlf then "\r\n" else "\n") == s + "\n" <==> HasSuffix(s, "\r") == crlf
  {
    var line := TrimSuffix(s, "\r") + if crlf then "\r\n" else "\n";
    if HasSuffix(s, "\r") { assert s == s[..|s| - 1] + "\r"; }
    if crlf && line == s + "\n" {
      assert line[|line| - 2] == '\r';
      assert s[|s| - 1..] == "\r";
    }
  }

  lemma {:induction false} RewriteRestores(t: string, crlf: bool)
    ensures Rewrite(t, if crlf then "\r\n" else "\n") == t <==> LinesRestorable(t, crlf)
    decreases |t|
  {
    var i := LineFeed(t);
    if i < |t| {
      RewriteRestores(t[i + 1..], crlf);
      assert t == t[..i] + "\n" + t[i + 1..];
      FirstLineRestores(t[..i], t[i + 1..], if crlf then "\r\n" else "\n", crlf);
    } else if HasSuffix(t, "\r") {
      assert |TrimSuffix(t, "\r")| < |t|;
    }
  }

  lemma FirstLineRestores(s: string, r: string, eol: string, crlf: bool)
    requires eol == (if crlf then "\r\n" else "\n") && forall j | 0 <= j < |s| :: s[j] != '\n'
    ensures TrimSuffix(s, "\r") + eol + Rewrite(r, eol) == s + "\n" + r
       <==> HasSuffix(s, "\r") == crlf && Rewrite(r, eol) == r
  {
    hide Rewrite;
    LineComesBack(s, crlf);
    var line := TrimSuffix(s, "\r") + eol;
    if line + Rewrite(r, eol) == s + "\n" + r {
      SameFirstLine(line, Rewrite(r, eol), s, r);
    }
  }

  // ----- the exact condition

  predicate AfterReturn(t: string, i: nat)
    requires i < |t|
  {
    i > 0 && t[i - 1] == '\r'
  }

  /** Every line feed of t comes after a carriage return, or none does. */
  predicate AllFeeds(t: string, crlf: bool) {
    forall i | 0 <= i < |t| && t[i] == '\n' :: AfterReturn(t, i) == crlf
  }

  lemma FeedsSplit(s: string, r: string, crlf: bool)
    requires forall j | 0 <= j < |s| :: s[j] != '\n'
    ensures AllFeeds(s + "\n" + r, crlf) <==> HasSuffix(s, "\r") == crlf && AllFeeds(r, crlf)
  {
    var t, m := s + "\n" + r, |s|;
    assert HasSuffix(s, "\r") <==> AfterReturn(t, m) by {
      if m > 0 { assert s[m - 1..] == [s[m - 1]]; }
    }
    forall j | 0 <= j < |r| ensures t[m + 1 + j] == r[j] && AfterReturn(t, m + 1 + j) == AfterReturn(r, j) {
    }
    hide AfterReturn, HasSuffix;
    if AllFeeds(t, crlf) {
      forall j | 0 <= j < |r| && r[j] == '\n' ensures AfterReturn(r, j) == crlf { assert t[m + 1 + j] == '\n'; }
      assert t[m] == '\n';
    }
    if AfterReturn(t, m) == crlf && AllFeeds(r, crlf) {
      forall j | 0 <= j < |t| && t[j] == '\n' ensures AfterReturn(t, j) == crlf {
        if j > m { assert t[j] == r[j - m - 1]; } else { assert j == m; }
      }
    }
  }

  lemma LastChar(t: string)
    requires t != ""
    ensures HasSuffix(t, "\r") <==> t[|t| - 1] == '\r'
  {
    assert t[|t| - 1..] == [t[|t| - 1]];
  }

  lemma {:induction false} LinesRestorableIs(t: string, crlf: bool)
    ensures LinesRestorable(t, crlf) <==> AllFeeds(t, crlf) && !HasSuffix(t, "\r")
    decreases |t|
  {
    var i := LineFeed(t);
    if i < |t| {
      var s, r := t[..i], t[i + 1..];
      assert t == s + "\n" + r;
      LinesRestorableIs(r, crlf);
      FeedsSplit(s, r, crlf);
      LastChar(t);
      if r != "" { LastChar(r); }
    }
  }

  lemma RestorableIs(t: string)
    requires t != ""
    ensures Restorable(t) <==> AllFeeds(t, HasCrLf(t)) && !HasSuffix(t, "\r")
  {
    LastChar(t);
    if !HasCrLf(t) {
      forall i | 0 <= i < |t| && t[i] == '\n' ensures !AfterReturn(t, i) {
      }
    }
  }

  /** A text comes back byte for byte exactly when it does not end in a
      carriage return and, once one line ends in CR LF, all of them do. */
  lemma BytesExact(text: string)
    ensures BytesOf(LoadOf(text)) == text <==> Restorable(text)
  {
    if text != "" {
      hide Rewrite, LinesRestorable, Split, Join, LineFeed, Restorable, HasCrLf, AllFeeds;
      var crlf := HasCrLf(text);
      SplitRewrites(text, if crlf then "\r\n" else "\n");
      RewriteRestores(text, crlf);
      LinesRestorableIs(text, crlf);
      RestorableIs(text);
    }
  }
}
