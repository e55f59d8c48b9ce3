/** The target database as the loader sees it: tables of rows, one connection
    with at most one open transaction, statements any of which may fail. */
module Warehouse {
  import opened Text
  import opened Upsert

  type Tables = map<string, seq<Row>>

  /** seen lists what other connections could have read so far, oldest first:
      the committed tables after each statement that changed them. */
  datatype State = State(committed: Tables, tx: Option<Tables>, seen: seq<Tables>)

  /** The tables a statement works on. */
  function Visible(s: State): Tables {
    if s.tx.Some? then s.tx.value else s.committed
  }

  /** A statement leaves these tables: in the open transaction, or for all. */
  function Put(s: State, tables: Tables): State {
    if s.tx.Some? then s.(tx := Some(tables)) else State(tables, None, s.seen + [tables])
  }

  function Rows(tables: Tables, name: string): Option<seq<Row>> {
    if name in tables then Some(tables[name]) else None
  }

  class Database {
    /** Which statements fail, by their number. */
    const fails: iset<nat>
    var statement: nat
    var committed: Tables
    var tx: Option<Tables>
    var seen: seq<Tables>

    function Now(): State reads this {
      State(committed, tx, seen)
    }

    /** None of the statements from..to fails. */
    ghost predicate Run(from: nat, to: nat) {
      forall n: nat | from <= n < to :: n !in fails
    }

    lemma RunSplits(from: nat, mid: nat, to: nat)
      requires from <= mid <= to
      ensures Run(from, to) <==> Run(from, mid) && Run(mid, to)
    {
    }

    constructor (tables: Tables, fails: iset<nat>)
      ensures Now() == State(tables, None, [tables])
      ensures statement == 0 && this.fails == fails
    {
      this.fails, statement := fails, 0;
      committed, tx, seen := tables, None, [tables];
    }

    /** A statement that leaves the tables as they are. */
    method Step() returns (ok: bool)
      modifies this
      ensures Now() == old(Now())
      ensures ok == (old(statement) !in fails) && statement == old(statement) + 1
    {
      ok := statement !in fails;
      statement := statement + 1;
    }

    method Write(tables: Tables)
      modifies `committed, `tx, `seen
      ensures Now() == Put(old(Now()), tables)
    {
      if tx.Some? {
        tx := Some(tables);
      } else {
        committed, seen := tables, seen + [tables];
      }
    }

    method Begin() returns (ok: bool)
      modifies this
      ensures Now() == if ok then old(Now()).(tx := Some(old(committed))) else old(Now())
      ensures ok == (old(statement) !in fails) && statement == old(statement) + 1
    {
      ok := Step();
      if ok { tx := Some(committed); }
    }

    /** Without a transaction there is nothing to commit; a commit that fails,
        or finds its context cancelled, is a rollback. */
    method Commit() returns (ok: bool)
      modifies this
      ensures old(tx).None? ==> ok && Now() == old(Now())
      ensures old(tx).Some? ==>
                Now() == if ok then Put(old(Now()).(tx := None), old(tx).value) else old(Now()).(tx := None)
      ensures old(tx).Some? ==> ok == (old(statement) !in fails) && statement == old(statement) + 1
    {
      if tx.None? { return true; }
      var tables := tx.value;
      ok := Step();
      tx := None;
      if ok { Write(tables); }
    }

    method Rollback()
      modifies `tx
      ensures Now() == old(Now()).(tx := None)
    {
      tx := None;
    }

    /** A new connection: a transaction left open is lost. */
    method Reconnect()
      modifies `tx
      ensures Now() == old(Now()).(tx := None)
    {
      tx := None;
    }

    /** A missing table counts as dropped. */
    method DropTable(name: string) returns (ok: bool)
      modifies this
      ensures Now() == if ok then Put(old(Now()), Visible(old(Now())) - {name}) else old(Now())
      ensures ok == (old(statement) !in fails) && statement == old(statement) + 1
    {
      ok := Step();
      if ok { Write(Visible(Now()) - {name}); }
    }

    method CreateTableIfNotExists(name: string) returns (ok: bool, created: bool)
      modifies this
      ensures created <==> ok && name !in Visible(old(Now()))
      ensures Now() == if created then Put(old(Now()), Visible(old(Now()))[name := []]) else old(Now())
      ensures var steps := if name in Visible(old(Now())) then 1 else 2;
              ok == Run(old(statement), old(statement) + steps) && (ok ==> statement == old(statement) + steps)
    {
      created := false;
      ok := Step();
      if ok && name !in Visible(Now()) {
        ok := Step();
        if ok {
          Write(Visible(Now())[name := []]);
          created := true;
        }
      }
    }

    method TruncateTable(name: string) returns (ok: bool)
      modifies this
      ensures ok <==> name in Visible(old(Now())) && old(statement) !in fails
      ensures Now() == if ok then Put(old(Now()), Visible(old(Now()))[name := []]) else old(Now())
      ensures statement == old(statement) + 1
    {
      ok := Step();
      ok := ok && name in Visible(Now());
      if ok { Write(Visible(Now())[name := []]); }
    }

    method InsertRows(name: string, rows: seq<Row>) returns (ok: bool)
      modifies this
      ensures ok <==> name in Visible(old(Now())) && old(statement) !in fails
      ensures Now() == if ok then Put(old(Now()), Visible(old(Now()))[name := Visible(old(Now()))[name] + rows])
              else old(Now())
      ensures statement == old(statement) + 1
    {
      ok := Step();
      ok := ok && name in Visible(Now());
      if ok { Write(Visible(Now())[name := Visible(Now())[name] + rows]); }
    }

    method ReplaceRows(name: string, rows: seq<Row>) returns (ok: bool)
      modifies this
      ensures Now() == if ok then Put(old(Now()), Visible(old(Now()))[name := rows]) else old(Now())
      ensures ok == (old(statement) !in fails) && statement == old(statement) + 1
    {
      ok := Step();
      if ok { Write(Visible(Now())[name := rows]); }
    }
  }
}
