/** How loaded rows are merged into a table by key: the merge strategies of the
    generic SQL templates. */
module Upsert {
  import opened Text

  /** The cells of a row. */
  type Row = seq<string>
  /** The primary-key cells of a row. */
  type Key = Row -> seq<string>

  /** Custom is a strategy whose SQL differs between databases: what it does to
      a table, if it succeeds. */
  datatype Strategy = Insert | UpdateInsert | DeleteInsert | Custom(merge: (seq<Row>, seq<Row>) -> Option<seq<Row>>)

  function WithKey(rows: seq<Row>, key: Key, k: seq<string>): seq<Row> {
    if rows == [] then [] else (if key(rows[0]) == k then [rows[0]] else []) + WithKey(rows[1..], key, k)
  }

  /** The rows whose key does not occur among others. */
  function Unmatched(rows: seq<Row>, key: Key, others: seq<Row>): seq<Row> {
    if rows == [] then [] else
      (if WithKey(others, key, key(rows[0])) == [] then [rows[0]] else []) + Unmatched(rows[1..], key, others)
  }

  /** Some row would be updated from two rows at once, which MERGE refuses. */
  predicate Ambiguous(rows: seq<Row>, key: Key, loaded: seq<Row>) {
    rows != [] && (|WithKey(loaded, key, key(rows[0]))| > 1 || Ambiguous(rows[1..], key, loaded))
  }

  /** The rows, each replaced by the loaded row with its key if there is one. */
  function Updated(rows: seq<Row>, key: Key, loaded: seq<Row>): seq<Row> {
    if rows == [] then [] else
      var loadedRows := WithKey(loaded, key, key(rows[0]));
      [if loadedRows == [] then rows[0] else loadedRows[0]] + Updated(rows[1..], key, loaded)
  }

  /** The table after merging loaded rows into it, or None on an error. */
  function Merged(strategy: Strategy, key: Key, rows: seq<Row>, loaded: seq<Row>): Option<seq<Row>> {
    match strategy
    case Insert => Some(rows + Unmatched(loaded, key, rows))
    case DeleteInsert => Some(Unmatched(rows, key, loaded) + loaded)
    case UpdateInsert =>
      if Ambiguous(rows, key, loaded) then None else Some(Updated(rows, key, loaded) + Unmatched(loaded, key, rows))
    case Custom(merge) => merge(rows, loaded)
  }

  /** No key occurs twice. */
  ghost predicate Keyed(rows: seq<Row>, key: Key) {
    forall k :: |WithKey(rows, key, k)| <= 1
  }

  // ----- what an upsert is: the loaded rows win, key by key

  lemma {:induction false} WithKeyConcat(a: seq<Row>, b: seq<Row>, key: Key, k: seq<string>)
    ensures WithKey(a + b, key, k) == WithKey(a, key, k) + WithKey(b, key, k)
  {
    if a == [] {
      assert a + b == b;
    } else {
      assert (a + b)[1..] == a[1..] + b;
      WithKeyConcat(a[1..], b, key, k);
    }
  }

  lemma {:induction false} WithKeyUnmatched(rows: seq<Row>, key: Key, others: seq<Row>, k: seq<string>)
    ensures WithKey(Unmatched(rows, key, others), key, k)
         == if WithKey(others, key, k) == [] then WithKey(rows, key, k) else []
  {
    if rows != [] {
      var head := if WithKey(others, key, key(rows[0])) == [] then [rows[0]] else [];
      WithKeyUnmatched(rows[1..], key, others, k);
      WithKeyConcat(head, Unmatched(rows[1..], key, others), key, k);
    }
  }

  lemma {:induction false} WithKeyHas(rows: seq<Row>, key: Key, k: seq<string>, i: nat)
    requires i < |WithKey(rows, key, k)|
    ensures key(WithKey(rows, key, k)[i]) == k
  {
    var head := if key(rows[0]) == k then [rows[0]] else [];
    if i >= |head| { WithKeyHas(rows[1..], key, k, i - |head|); }
  }

  lemma {:induction false} WithKeyUpdated(rows: seq<Row>, key: Key, loaded: seq<Row>, k: seq<string>)
    requires !Ambiguous(rows, key, loaded) && |WithKey(rows, key, k)| <= 1
    ensures WithKey(Updated(rows, key, loaded), key, k)
         == if WithKey(rows, key, k) != [] && WithKey(loaded, key, k) != [] then WithKey(loaded, key, k)
            else WithKey(rows, key, k)
  {
    if rows != [] {
      var kk := key(rows[0]);
      var loadedRows := WithKey(loaded, key, kk);
      if loadedRows != [] { WithKeyHas(loaded, key, kk, 0); }
      WithKeyUpdated(rows[1..], key, loaded, k);
    }
  }

  /** The rows with key k after an upsert: the loaded ones, if any. */
  function Upserted(key: Key, rows: seq<Row>, loaded: seq<Row>, k: seq<string>): seq<Row> {
    if WithKey(loaded, key, k) != [] then WithKey(loaded, key, k) else WithKey(rows, key, k)
  }

  /** Deleting the matched rows and inserting upserts, whatever the tables. */
  lemma DeleteInsertUpserts(key: Key, rows: seq<Row>, loaded: seq<Row>, k: seq<string>)
    ensures WithKey(Merged(DeleteInsert, key, rows, loaded).value, key, k) == Upserted(key, rows, loaded, k)
  {
    WithKeyConcat(Unmatched(rows, key, loaded), loaded, key, k);
    WithKeyUnmatched(rows, key, loaded, k);
  }

  /** So does MERGE, on a table whose key is a key, when it does not refuse. */
  lemma UpdateInsertUpserts(key: Key, rows: seq<Row>, loaded: seq<Row>, k: seq<string>)
    requires Keyed(rows, key) && Merged(UpdateInsert, key, rows, loaded).Some?
    ensures WithKey(Merged(UpdateInsert, key, rows, loaded).value, key, k) == Upserted(key, rows, loaded, k)
  {
    WithKeyConcat(Updated(rows, key, loaded), Unmatched(loaded, key, rows), key, k);
    WithKeyUpdated(rows, key, loaded, k);
    WithKeyUnmatched(loaded, key, rows, k);
  }

  /** Inserting only never changes or loses an old row. */
  lemma InsertKeepsOld(key: Key, rows: seq<Row>, loaded: seq<Row>, k: seq<string>)
    ensures WithKey(Merged(Insert, key, rows, loaded).value, key, k) == Upserted(key, loaded, rows, k)
  {
    WithKeyConcat(rows, Unmatched(loaded, key, rows), key, k);
    WithKeyUnmatched(loaded, key, rows, k);
  }

  lemma {:induction false} CountByKey(rows: seq<Row>, key: Key, r: Row)
    ensures multiset(rows)[r] == multiset(WithKey(rows, key, key(r)))[r]
  {
    if rows != [] {
      CountByKey(rows[1..], key, r);
      assert rows == [rows[0]] + rows[1..];
    }
  }

  /** The two upserts leave the same rows. */
  lemma UpsertsAgree(key: Key, rows: seq<Row>, loaded: seq<Row>)
    requires Keyed(rows, key) && Merged(UpdateInsert, key, rows, loaded).Some?
    ensures multiset(Merged(UpdateInsert, key, rows, loaded).value)
            == multiset(Merged(DeleteInsert, key, rows, loaded).value)
  {
    var a, b := Merged(UpdateInsert, key, rows, loaded).value, Merged(DeleteInsert, key, rows, loaded).value;
    hide Merged, WithKey, Keyed;
    forall r: Row ensures multiset(a)[r] == multiset(b)[r] {
      CountByKey(a, key, r);
      CountByKey(b, key, r);
      UpdateInsertUpserts(key, rows, loaded, key(r));
      DeleteInsertUpserts(key, rows, loaded, key(r));
    }
  }

  /** MERGE refuses exactly when some old row has two loaded rows to take. */
  lemma {:induction false} AmbiguousIs(rows: seq<Row>, key: Key, loaded: seq<Row>)
    ensures Ambiguous(rows, key, loaded) <==> exists i :: 0 <= i < |rows| && |WithKey(loaded, key, key(rows[i]))| > 1
  {
    if rows != [] {
      AmbiguousIs(rows[1..], key, loaded);
      if i :| 0 <= i < |rows[1..]| && |WithKey(loaded, key, key(rows[1..][i]))| > 1 {
        assert rows[i + 1] == rows[1..][i];
      }
      if i :| 0 <= i < |rows| && |WithKey(loaded, key, key(rows[i]))| > 1 {
        assert i > 0 ==> rows[1..][i - 1] == rows[i];
      }
    }
  }
}
