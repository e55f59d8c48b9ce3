/** Lists of names: their sort order, and lists without repeats. */
module Names {
  import opened Sequences

  /** Byte-wise string order. */
  predicate Less(a: string, b: string) {
    b != "" && (a == "" || a[0] < b[0] || (a[0] == b[0] && Less(a[1..], b[1..])))
  }

  lemma {:induction false} LessTrichotomy(a: string, b: string)
    ensures Less(a, b) || a == b || Less(b, a)
    ensures !(Less(a, b) && Less(b, a)) && !(Less(a, b) && a == b)
  {
    if a != "" && b != "" {
      LessTrichotomy(a[1..], b[1..]);
      assert a == [a[0]] + a[1..] && b == [b[0]] + b[1..];
    }
  }

  lemma {:induction false} LessTransitive(a: string, b: string, c: string)
    requires Less(a, b) && Less(b, c)
    ensures Less(a, c)
  {
    if a != "" && a[0] == b[0] == c[0] { LessTransitive(a[1..], b[1..], c[1..]); }
  }

  ghost predicate NoRepeats(s: seq<string>) {
    forall i, j | 0 <= i < j < |s| :: s[i] != s[j]
  }

  /** In order, equal names side by side. */
  ghost predicate Sorted(s: seq<string>) {
    forall i, j | 0 <= i < j < |s| :: s[i] == s[j] || Less(s[i], s[j])
  }

  /** In order, each name once. */
  ghost predicate Ascending(s: seq<string>) {
    forall i, j | 0 <= i < j < |s| :: Less(s[i], s[j])
  }

  function InsertName(x: string, s: seq<string>): (r: seq<string>)
    ensures multiset(r) == multiset(s) + multiset{x}
  {
    if s == [] || Less(x, s[0]) then [x] + s
    else
      assert s == [s[0]] + s[1..];
      [s[0]] + InsertName(x, s[1..])
  }

  function SortNames(s: seq<string>): (r: seq<string>)
    ensures multiset(r) == multiset(s)
  {
    if s == [] then [] else
      assert s == [s[0]] + s[1..];
      InsertName(s[0], SortNames(s[1..]))
  }

  lemma InsertMembers(x: string, s: seq<string>, y: string)
    ensures y in InsertName(x, s) <==> y == x || y in s
  {
    assert y in InsertName(x, s) <==> y in multiset(InsertName(x, s));
    assert y in s <==> y in multiset(s);
  }

  lemma {:induction false} InsertKeepsSorted(x: string, s: seq<string>)
    requires Sorted(s)
    ensures Sorted(InsertName(x, s))
  {
    if s == [] {
    } else if Less(x, s[0]) {
      forall i | 0 <= i < |s| ensures Less(x, s[i]) {
        if i > 0 && s[0] != s[i] { LessTransitive(x, s[0], s[i]); }
      }
    } else {
      InsertKeepsSorted(x, s[1..]);
      var r := InsertName(x, s[1..]);
      forall i | 0 <= i < |r| ensures s[0] == r[i] || Less(s[0], r[i]) {
        InsertMembers(x, s[1..], r[i]);
        LessTrichotomy(x, s[0]);
      }
    }
  }

  lemma {:induction false} SortSorts(s: seq<string>)
    ensures Sorted(SortNames(s))
  {
    if s != [] {
      SortSorts(s[1..]);
      InsertKeepsSorted(s[0], SortNames(s[1..]));
    }
  }

  lemma SortMembers(s: seq<string>, y: string)
    ensures y in SortNames(s) <==> y in s
    ensures |SortNames(s)| == |s|
  {
    assert y in SortNames(s) <==> y in multiset(SortNames(s));
    assert y in s <==> y in multiset(s);
    assert |multiset(SortNames(s))| == |multiset(s)|;
  }

  lemma AscendingNoRepeats(s: seq<string>)
    requires Ascending(s)
    ensures NoRepeats(s)
  {
    forall i, j | 0 <= i < j < |s| ensures s[i] != s[j] { LessTrichotomy(s[i], s[j]); }
  }

  /** Two ascending lists of the same names are the same list. */
  lemma {:induction false} AscendingUnique(x: seq<string>, y: seq<string>)
    requires Ascending(x) && Ascending(y) && forall k :: k in x <==> k in y
    ensures x == y
  {
    AscendingNoRepeats(x);
    AscendingNoRepeats(y);
    NoRepeatsSize(x);
    NoRepeatsSize(y);
    assert SetOf(x) == SetOf(y);
    if x != [] {
      assert x[0] in y;
      assert y[0] in x;
      FirstIsLeast(x, y[0]);
      FirstIsLeast(y, x[0]);
      LessTrichotomy(x[0], y[0]);
      forall k ensures k in x[1..] <==> k in y[1..] {
        TailMembers(x, k);
        TailMembers(y, k);
      }
      AscendingUnique(x[1..], y[1..]);
      assert x == [x[0]] + x[1..] && y == [y[0]] + y[1..];
    }
  }

  lemma FirstIsLeast(x: seq<string>, k: string)
    requires Ascending(x) && k in x
    ensures k == x[0] || Less(x[0], k)
  {
  }

  lemma TailMembers(x: seq<string>, k: string)
    requires x != [] && Ascending(x)
    ensures k in x[1..] <==> k in x && k != x[0]
  {
    AscendingNoRepeats(x);
    if k in x && k != x[0] {
      var i :| 0 <= i < |x| && x[i] == k;
      assert x[1..][i - 1] == k;
    }
  }

  // ----- sizes

  function SetOf(s: seq<string>): set<string> {
    set x | x in s
  }

  lemma {:induction false} NoRepeatsSize(s: seq<string>)
    requires NoRepeats(s)
    ensures |SetOf(s)| == |s|
  {
    if s != [] {
      var m := |s| - 1;
      NoRepeatsSize(s[..m]);
      assert SetOf(s) == SetOf(s[..m]) + {s[m]};
    }
  }

  /** A list without repeats inside a set is no longer than the set. */
  lemma NoRepeatsFits(s: seq<string>, all: set<string>)
    requires NoRepeats(s) && forall x | x in s :: x in all
    ensures |s| <= |all| && (|s| == |all| ==> SetOf(s) == all)
  {
    NoRepeatsSize(s);
    SubsetSize(SetOf(s), all);
  }

  lemma SetOfSnoc(s: seq<string>, x: string)
    ensures SetOf(s + [x]) == SetOf(s) + {x}
  {
  }

  lemma NoRepeatsSnoc(s: seq<string>, x: string)
    requires NoRepeats(s) && x !in SetOf(s)
    ensures NoRepeats(s + [x])
  {
  }

  lemma SortNoRepeats(s: seq<string>)
    requires NoRepeats(s)
    ensures NoRepeats(SortNames(s))
  {
    var r := SortNames(s);
    SortMembers(s, "");
    NoRepeatsSize(s);
    forall x ensures x in r <==> x in s { SortMembers(s, x); }
    assert SetOf(r) == SetOf(s);
    SizeNoRepeats(r);
  }

  lemma {:induction false} SizeNoRepeats(s: seq<string>)
    requires |SetOf(s)| == |s|
    ensures NoRepeats(s)
  {
    if s != [] {
      var m := |s| - 1;
      assert SetOf(s) == SetOf(s[..m]) + {s[m]};
      SetOfSize(s[..m]);
      SizeNoRepeats(s[..m]);
    }
  }

  lemma {:induction false} SetOfSize(s: seq<string>)
    ensures |SetOf(s)| <= |s|
  {
    if s != [] {
      var m := |s| - 1;
      assert SetOf(s) == SetOf(s[..m]) + {s[m]};
      SetOfSize(s[..m]);
    }
  }

  /** Sorting a list without repeats puts it in strict order. */
  lemma SortAscends(s: seq<string>)
    requires NoRepeats(s)
    ensures Ascending(SortNames(s))
  {
    SortSorts(s);
    SortNoRepeats(s);
  }

  /** A first difference decides the order. */
  lemma {:induction false} LessAt(a: string, b: string, n: nat)
    requires n < |a| && n < |b| && a[..n] == b[..n] && a[n] < b[n]
    ensures Less(a, b)
  {
    if n > 0 {
      assert a[0] == a[..n][0] == b[0];
      assert a[1..][..n - 1] == a[..n][1..] && b[1..][..n - 1] == b[..n][1..];
      LessAt(a[1..], b[1..], n - 1);
    }
  }

  lemma {:induction false} StepsAscend(s: seq<string>)
    requires forall i | 0 <= i < |s| - 1 :: Less(s[i], s[i + 1])
    ensures Ascending(s)
  {
    if s != [] {
      var m := |s| - 1;
      StepsAscend(s[..m]);
      forall i | 0 <= i < m ensures Less(s[i], s[m]) {
        assert Less(s[m - 1], s[m - 1 + 1]);
        if i < m - 1 {
          assert Less(s[..m][i], s[..m][m - 1]);
          LessTransitive(s[i], s[m - 1], s[m]);
        }
      }
    }
  }
}
