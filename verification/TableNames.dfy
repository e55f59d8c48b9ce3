/** Table names as a dialect spells them: parsing a name into its parts, and
    the full name made of the parts. */
module TableNames {
  import opened Text

  /** What of a database's dialect the names depend on. */
  datatype Dialect = Dialect(
    quote: Option<char>,
    upperNames: bool,               // plain names are upper case
    threeParts: bool,
    isUpper: char -> bool,
    upper: string -> string,
    lower: string -> string)

  datatype TableName = TableName(database: string, schema: string, name: string, sql: string)

  predicate Contains(s: string, part: string) {
    exists i | 0 <= i <= |s| :: part <= s[i..]
  }

  predicate QuoteIn(d: Dialect, text: string) {
    d.quote.None? || d.quote.value in text
  }

  /** A text with the words of a query in it, and nothing quoted. */
  predicate LooksLikeQuery(d: Dialect, text: string) {
    && Contains(d.lower(text), "select") && Contains(d.lower(text), "from")
    && (' ' in text || '\n' in text) && !QuoteIn(d, text)
  }

  /** A character that no unquoted name has. */
  predicate Foreign(c: char) {
    c == ' ' || c == '\n' || c == '\t' || c == '\r' || c == '(' || c == ')' || c == '\''
  }

  /** The case a word is taken in: as it is when quoted or with a capital. */
  function Cased(d: Dialect, word: string, quoted: bool): string {
    if quoted || exists i | 0 <= i < |word| :: d.isUpper(word[i]) then word
    else if d.upperNames then d.upper(word) else d.lower(word)
  }

  function WithWord(d: Dialect, words: seq<string>, word: string, quoted: bool): seq<string> {
    if word == "" then words else words + [Cased(d, word, quoted)]
  }

  /** The words read so far; None once a foreign character is met. */
  datatype Scan = Foreigner | Words(words: seq<string>, word: string, inQuote: bool)

  function NextChar(d: Dialect, s: Scan, c: char): Scan {
    match s
    case Foreigner => Foreigner
    case Words(words, word, inQuote) =>
      if d.quote == Some(c) then
        if inQuote then Words(WithWord(d, words, word, true), "", false) else Words(words, word, true)
      else if !inQuote && c == '.' then Words(WithWord(d, words, word, false), "", false)
      else if !inQuote && Foreign(c) then Foreigner
      else Words(words, word + [c], inQuote)
  }

  function ScanText(d: Dialect, text: string): Scan {
    if text == "" then Words([], "", false) else NextChar(d, ScanText(d, text[..|text| - 1]), text[|text| - 1])
  }

  /** The table the words name, if any. */
  function Placed(d: Dialect, text: string, words: seq<string>): Option<TableName> {
    if |words| == 0 then None
    else if |words| == 1 then Some(TableName("", "", words[0], ""))
    else if |words| == 2 then Some(TableName("", words[0], words[1], ""))
    else if |words| == 3 then (if d.threeParts then Some(TableName(words[0], words[1], words[2], "")) else None)
    else Some(TableName("", "", "", TrimSpace(text)))
  }

  /** The parts of a table name, or the text of a query. */
  function Parsed(d: Dialect, text: string): Option<TableName> {
    if LooksLikeQuery(d, text) then Some(TableName("", "", "", TrimSpace(text)))
    else match ScanText(d, text)
      case Foreigner => Some(TableName("", "", "", TrimSpace(text)))
      case Words(words, word, inQuote) => if inQuote then None else Placed(d, text, WithWord(d, words, word, false))
  }

  method ParseTableName(d: Dialect, text: string) returns (table: Option<TableName>)
    ensures table == Parsed(d, text)
  {
    hide LooksLikeQuery, TrimSpace, Cased;
    if LooksLikeQuery(d, text) {
      return Some(TableName("", "", "", TrimSpace(text)));
    }
    var words, word, inQuote := [], "", false;
    for i := 0 to |text|
      invariant ScanText(d, text[..i]) == Words(words, word, inQuote)
    {
      var c := text[i];
      assert text[..i + 1][..i] == text[..i];
      if d.quote == Some(c) {
        if inQuote {
          words := WithWord(d, words, word, true);
          word := "";
        }
        inQuote := !inQuote;
        continue;
      }
      if c == '.' && !inQuote {
        words := WithWord(d, words, word, false);
        word := "";
        continue;
      }
      if Foreign(c) && !inQuote {
        StaysForeign(d, text, i + 1);
        return Some(TableName("", "", "", TrimSpace(text)));
      }
      word := word + [c];
    }
    assert text[..|text|] == text;
    if inQuote {
      return None;
    }
    words := WithWord(d, words, word, false);
    table := Placed(d, text, words);
  }

  lemma {:induction false} StaysForeign(d: Dialect, text: string, i: nat)
    requires i <= |text| && ScanText(d, text[..i]) == Foreigner
    ensures ScanText(d, text) == Foreigner
    decreases |text| - i
  {
    if i < |text| {
      assert text[..i + 1][..i] == text[..i];
      StaysForeign(d, text, i + 1);
    } else {
      assert text[..i] == text;
    }
  }

  function Quoted(d: Dialect, name: string): string {
    match d.quote
    case None => name
    case Some(q) => [q] + name + [q]
  }

  function Dotted(parts: seq<string>): string {
    if parts == [] then "" else if |parts| == 1 then parts[0] else parts[0] + "." + Dotted(parts[1..])
  }

  /** The parts that are there, quoted, with dots between them. */
  function FullName(d: Dialect, t: TableName): string {
    Dotted(
      (if t.database != "" && d.threeParts then [Quoted(d, t.database)] else [])
      + (if t.schema != "" then [Quoted(d, t.schema)] else [])
      + (if t.name == "" then [] else if t.name == "*" then ["*"] else [Quoted(d, t.name)]))
  }

  // ----- one table, spelled in several ways

  /** A word without quote, dot or foreign character. */
  predicate PlainWord(d: Dialect, w: string) {
    w != "" && w != "*" && forall i | 0 <= i < |w| :: w[i] != '.' && !Foreign(w[i]) && d.quote != Some(w[i])
  }

  lemma {:induction false} ScanWord(d: Dialect, before: string, w: string, words: seq<string>, inQuote: bool)
    requires ScanText(d, before) == Words(words, "", inQuote)
    requires forall i | 0 <= i < |w| :: w[i] != '.' && !Foreign(w[i]) && d.quote != Some(w[i])
    ensures ScanText(d, before + w) == Words(words, w, inQuote)
  {
    if w == "" {
      assert before + w == before;
    } else {
      var m := |w| - 1;
      ScanWord(d, before, w[..m], words, inQuote);
      ScanOne(d, before + w[..m], w[m]);
      assert before + w == before + w[..m] + [w[m]];
      assert w == w[..m] + [w[m]];
    }
  }

  lemma ScanOne(d: Dialect, before: string, c: char)
    ensures ScanText(d, before + [c]) == NextChar(d, ScanText(d, before), c)
  {
    assert (before + [c])[..|before|] == before;
  }

  /** schema.table, plain. */
  lemma PlainScan(d: Dialect, s: string, t: string)
    requires PlainWord(d, s) && PlainWord(d, t) && d.quote != Some('.')
    ensures ScanText(d, s + "." + t) == Words([Cased(d, s, false)], t, false)
  {
    hide Cased, ScanText;
    NothingScanned(d);
    ScanWord(d, "", s, [], false);
    assert "" + s == s;
    ScanOne(d, s, '.');
    assert [] + [Cased(d, s, false)] == [Cased(d, s, false)];
    ScanWord(d, s + ".", t, [Cased(d, s, false)], false);
  }

  /** The same with quotes. */
  lemma QuotedScan(d: Dialect, q: char, s: string, t: string)
    requires d.quote == Some(q) && q != '.' && PlainWord(d, s) && PlainWord(d, t)
    ensures ScanText(d, [q] + s + [q] + "." + [q] + t + [q]) == Words([s, t], "", false)
  {
    var a := [q] + s;
    assert ScanText(d, "") == Words([], "", false);
    ScanOne(d, "", q);
    assert "" + [q] == [q];
    ScanWord(d, [q], s, [], true);
    ScanOne(d, a, q);
    assert [] + [s] == [s];
    ScanOne(d, a + [q], '.');
    ScanOne(d, a + [q] + ".", q);
    ScanWord(d, a + [q] + "." + [q], t, [s], true);
    ScanOne(d, a + [q] + "." + [q] + t, q);
    assert [s] + [t] == [s, t];
  }

  lemma QuotedParsed(d: Dialect, q: char, s: string, t: string)
    requires d.quote == Some(q) && q != '.' && PlainWord(d, s) && PlainWord(d, t)
    ensures var text := [q] + s + [q] + "." + [q] + t + [q];
            Parsed(d, text) == Some(TableName("", s, t, "")) && FullName(d, TableName("", s, t, "")) == text
  {
    var text := [q] + s + [q] + "." + [q] + t + [q];
    assert text[0] == q;
    QuotedScan(d, q, s, t);
    assert !LooksLikeQuery(d, text);
    TwoDotted(Quoted(d, s), Quoted(d, t));
    hide ScanText, LooksLikeQuery, Dotted;
    assert [Quoted(d, s)] + [Quoted(d, t)] == [Quoted(d, s), Quoted(d, t)];
    assert [] + [Quoted(d, s)] + [Quoted(d, t)] == [Quoted(d, s), Quoted(d, t)];
    assert Quoted(d, s) + "." + Quoted(d, t) == text;
  }

  lemma TwoDotted(a: string, b: string)
    ensures Dotted([a, b]) == a + "." + b
  {
    assert [a, b][1..] == [b];
  }

  /** A table has two spellings with one full name: schema.table, and the
      quoted words that the dialect makes of it. */
  lemma TwoSpellings(d: Dialect, q: char, s: string, t: string)
    requires d.quote == Some(q) && q != '.' && PlainWord(d, s) && PlainWord(d, t)
    requires PlainWord(d, Cased(d, s, false)) && PlainWord(d, Cased(d, t, false))
    ensures var quoted := [q] + Cased(d, s, false) + [q] + "." + [q] + Cased(d, t, false) + [q];
            && s + "." + t != quoted
            && Parsed(d, s + "." + t) == Parsed(d, quoted)
               == Some(TableName("", Cased(d, s, false), Cased(d, t, false), ""))
            && FullName(d, TableName("", Cased(d, s, false), Cased(d, t, false), "")) == quoted
  {
    var s2, t2 := Cased(d, s, false), Cased(d, t, false);
    QuotedParsed(d, q, s2, t2);
    PlainScan(d, s, t);
    NoSpaces(d, s, t);
    hide ScanText, LooksLikeQuery, Parsed, FullName, Cased;
    PlainParsed(d, s, t);
    assert (s + "." + t)[0] == s[0] != q;
  }

  lemma NoSpaces(d: Dialect, s: string, t: string)
    requires PlainWord(d, s) && PlainWord(d, t)
    ensures !LooksLikeQuery(d, s + "." + t)
  {
    var text := s + "." + t;
    forall i | 0 <= i < |text| ensures text[i] != ' ' && text[i] != '\n' {
      if i < |s| { assert text[i] == s[i]; } else if i > |s| { assert text[i] == t[i - |s| - 1]; }
    }
  }

  lemma PlainParsed(d: Dialect, s: string, t: string)
    requires ScanText(d, s + "." + t) == Words([Cased(d, s, false)], t, false) && !LooksLikeQuery(d, s + "." + t)
             && t != ""
    ensures Parsed(d, s + "." + t) == Some(TableName("", Cased(d, s, false), Cased(d, t, false), ""))
  {
    hide ScanText, LooksLikeQuery, Cased;
    var words := [Cased(d, s, false)] + [Cased(d, t, false)];
    assert words == [Cased(d, s, false), Cased(d, t, false)];
  }

  // ----- any number of plain words

  /** A plain word is kept as it is if it has a capital, and else taken in the
      dialect's case. */
  function PlainCase(d: Dialect, w: string): string {
    if forall i | 0 <= i < |w| :: !d.isUpper(w[i]) then (if d.upperNames then d.upper(w) else d.lower(w)) else w
  }

  function PlainCases(d: Dialect, words: seq<string>): (r: seq<string>)
    ensures |r| == |words| && forall i | 0 <= i < |words| :: r[i] == PlainCase(d, words[i])
  {
    seq(|words|, i requires 0 <= i < |words| => PlainCase(d, words[i]))
  }

  lemma {:induction false} WordsScan(d: Dialect, before: string, acc: seq<string>, words: seq<string>)
    requires words != [] && d.quote != Some('.') && forall i | 0 <= i < |words| :: PlainWord(d, words[i])
    requires ScanText(d, before) == Words(acc, "", false)
    ensures ScanText(d, before + Dotted(words))
         == Words(acc + PlainCases(d, words[..|words| - 1]), words[|words| - 1], false)
    decreases |words|
  {
    hide ScanText, NextChar, PlainCase, Cased, PlainWord, Dotted, PlainCases;
    var w, rest := words[0], words[1..];
    assert PlainWord(d, w);
    PlainScanned(d, before, w, acc);
    DottedNext(words);
    if rest == [] {
      assert acc + PlainCases(d, words[..0]) == acc;
    } else {
      DotScanned(d, before, w, acc);
      WordsScan(d, before + w + ".", acc + [PlainCase(d, w)], rest);
      assert before + (w + "." + Dotted(rest)) == before + w + "." + Dotted(rest);
      CasesNext(d, words);
      var head, tail := [PlainCase(d, w)], PlainCases(d, rest[..|rest| - 1]);
      assert acc + (head + tail) == (acc + head) + tail;
    }
  }

  lemma PlainScanned(d: Dialect, before: string, w: string, acc: seq<string>)
    requires PlainWord(d, w) && ScanText(d, before) == Words(acc, "", false)
    ensures ScanText(d, before + w) == Words(acc, w, false)
  {
    ScanWord(d, before, w, acc, false);
  }

  lemma DottedNext(words: seq<string>)
    requires words != []
    ensures Dotted(words) == if |words| == 1 then words[0] else words[0] + "." + Dotted(words[1..])
  {
  }

  lemma CasesNext(d: Dialect, words: seq<string>)
    requires |words| > 1
    ensures PlainCases(d, words[..|words| - 1])
         == [PlainCase(d, words[0])] + PlainCases(d, words[1..][..|words[1..]| - 1])
  {
    hide PlainCase;
  }

  lemma DotScanned(d: Dialect, before: string, w: string, acc: seq<string>)
    requires PlainWord(d, w) && d.quote != Some('.') && ScanText(d, before + w) == Words(acc, w, false)
    ensures ScanText(d, before + w + ".") == Words(acc + [PlainCase(d, w)], "", false)
  {
    ScanOne(d, before + w, '.');
    CaseIs(d, w);
    hide ScanText, Cased, PlainCase;
  }

  lemma CaseIs(d: Dialect, w: string)
    ensures Cased(d, w, false) == PlainCase(d, w)
  {
  }

  lemma {:induction false} DottedPlain(d: Dialect, words: seq<string>)
    requires forall i | 0 <= i < |words| :: PlainWord(d, words[i])
    ensures forall i | 0 <= i < |Dotted(words)| :: Dotted(words)[i] != ' ' && Dotted(words)[i] != '\n'
  {
    if words != [] { DottedPlain(d, words[1..]); }
  }

  /** What plain words with dots between them name: a table, with its schema and
      database where the dialect has one; four or more are taken for a query. */
  lemma WordsParsed(d: Dialect, words: seq<string>)
    requires words != [] && d.quote != Some('.') && forall i | 0 <= i < |words| :: PlainWord(d, words[i])
    ensures var c := PlainCases(d, words);
            Parsed(d, Dotted(words)) ==
              if |words| == 1 then Some(TableName("", "", c[0], ""))
              else if |words| == 2 then Some(TableName("", c[0], c[1], ""))
              else if |words| > 3 then Some(TableName("", "", "", TrimSpace(Dotted(words))))
              else if d.threeParts then Some(TableName(c[0], c[1], c[2], ""))
              else None
  {
    hide TrimSpace, PlainCase, PlainWord, ScanText, Cased, Dotted, PlainCases, Parsed, LooksLikeQuery;
    var n, text := |words| - 1, Dotted(words);
    NothingScanned(d);
    WordsScan(d, "", [], words);
    assert "" + text == text;
    DottedPlain(d, words);
    NoQuery(d, text);
    CaseIs(d, words[n]);
    assert [] + PlainCases(d, words[..n]) == PlainCases(d, words[..n]);
    assert PlainCases(d, words[..n]) + [PlainCase(d, words[n])] == PlainCases(d, words);
    ParsedWords(d, text, PlainCases(d, words[..n]), words[n]);
  }

  lemma NothingScanned(d: Dialect)
    ensures ScanText(d, "") == Words([], "", false)
  {
  }

  lemma NoQuery(d: Dialect, text: string)
    requires forall i | 0 <= i < |text| :: text[i] != ' ' && text[i] != '\n'
    ensures !LooksLikeQuery(d, text)
  {
  }

  lemma ParsedWords(d: Dialect, text: string, words: seq<string>, last: string)
    requires ScanText(d, text) == Words(words, last, false) && PlainWord(d, last) && !LooksLikeQuery(d, text)
    ensures Parsed(d, text) == Placed(d, text, words + [Cased(d, last, false)])
  {
    hide ScanText, Cased, LooksLikeQuery, Placed;
  }
}
