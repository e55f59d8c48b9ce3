/** Writing a stream of rows to a target table through a temporary table: load,
    count, then one transaction that prepares the target and moves the rows. */
module LoadProtocol {
  import opened Text
  import opened Upsert
  import opened Warehouse

  datatype Mode = FullRefresh | Truncate | Snapshot | Incremental | Backfill | ChangeCapture | DefinitionOnly

  datatype LoadConfig = LoadConfig(
    mode: Mode, target: string, temp: string, primaryKey: Option<Key>, strategy: Strategy,
    chunkCount: Option<nat>, chunkExpr: Option<string>, chunkSize: Option<string>,
    addNewColumns: bool, adjustColumnType: bool, allowEmpty: bool, checksumRows: nat)

  /** What the import makes of the stream: the rows that arrive in the temporary
      table, the count it reports, and whether the database can count rows; with
      the number of sampled rows, and the stream's own error if any. */
  datatype Stream = Stream(arrived: seq<Row>, count: nat, countKnown: bool, sampled: nat, failed: bool)

  datatype LoadError =
    | PrepareFailed | OpenFailed | ConfigureFailed | ImportFailed | CommitFailed
    | CountFailed | CountMismatch | NothingLoaded | PreSqlFailed | ChecksumFailed
    | FinalFailed | PostSqlFailed | StreamFailed

  predicate WithChunking(cfg: LoadConfig) {
    cfg.chunkCount.Some? || cfg.chunkExpr.Some? || cfg.chunkSize.Some?
  }

  predicate IsFullRefreshWithChunking(cfg: LoadConfig) {
    cfg.mode == FullRefresh && WithChunking(cfg)
  }

  predicate IsTruncateWithChunking(cfg: LoadConfig) {
    cfg.mode == Truncate && WithChunking(cfg)
  }

  // ----- the specification

  /** The mode starts from an empty target of its own accord. */
  predicate Clears(cfg: LoadConfig) {
    (cfg.mode == FullRefresh || cfg.mode == Truncate) && !WithChunking(cfg)
  }

  /** The mode adds the loaded rows to what is there. */
  predicate Appends(cfg: LoadConfig) {
    cfg.mode == FullRefresh || cfg.mode == Truncate || cfg.mode == Snapshot
      || (cfg.mode == Incremental && cfg.primaryKey.None?)
  }

  function Base(cfg: LoadConfig, target: Option<seq<Row>>): seq<Row> {
    if target.None? || Clears(cfg) then [] else target.value
  }

  /** What a whole load makes of the target, or None if it cannot. */
  function ModeResult(cfg: LoadConfig, stream: Stream, target: Option<seq<Row>>): Option<seq<Row>> {
    if stream.count == 0 then Some(Base(cfg, target))
    else if Appends(cfg) then Some(Base(cfg, target) + stream.arrived)
    else if cfg.primaryKey.None? then None
    else Merged(cfg.strategy, cfg.primaryKey.value, Base(cfg, target), stream.arrived)
  }

  /** Between s0 and s1 no one has seen a change outside these tables. */
  ghost predicate Quiet(s0: State, s1: State, names: set<string>) {
    && s0.seen <= s1.seen
    && (forall i {:trigger s1.seen[i]} | |s0.seen| <= i < |s1.seen| :: s1.seen[i] - names == s0.committed - names)
    && s1.committed - names == s0.committed - names
  }

  /** The load has taken effect: after any number of quiet states the result
      of the mode, all at once. */
  ghost predicate TookEffect(cfg: LoadConfig, stream: Stream, s0: State, s1: State) {
    var result := ModeResult(cfg, stream, Rows(s0.committed, cfg.target));
    && result.Some?
    && s1.seen != [] && s1.committed == s1.seen[|s1.seen| - 1]
    && s0.seen <= s1.seen[..|s1.seen| - 1]
    && (forall i {:trigger s1.seen[i]} | |s0.seen| <= i < |s1.seen| - 1 ::
          s1.seen[i] - {cfg.temp} == s0.committed - {cfg.temp})
    && s1.committed - {cfg.temp} == (s0.committed - {cfg.temp})[cfg.target := result.value]
  }

  /** A return with this error, if any, comes after the final commit. */
  predicate Committed(cfg: LoadConfig, stream: Stream, err: Option<LoadError>) {
    match err
    case None => stream.count > 0 || cfg.allowEmpty
    case Some(e) => e == PostSqlFailed || e == StreamFailed
  }

  /** How a load of rows ends: it could be written and took effect, or no one
      has seen anything of it; a load that committed and returns no error had
      no error in its stream. */
  ghost predicate Ended(cfg: LoadConfig, stream: Stream, s0: State, s1: State, count: nat, err: Option<LoadError>) {
    && (if Committed(cfg, stream, err)
        then TookEffect(cfg, stream, s0, s1) && Loads(cfg, stream, Rows(s0.committed, cfg.target))
        else Quiet(s0, s1, {cfg.temp}))
    && (err.None? ==> count == stream.count && (Committed(cfg, stream, err) ==> !stream.failed))
  }

  /** The same for the part from the loaded temporary table on, which changes
      the target at one stroke or nothing. */
  predicate Written(cfg: LoadConfig, stream: Stream, s0: State, s1: State, count: nat, err: Option<LoadError>) {
    var result := ModeResult(cfg, stream, Rows(s0.committed, cfg.target));
    && (if Committed(cfg, stream, err)
        then result.Some? && s1 == Put(s0, s0.committed[cfg.target := result.value])
             && Loads(cfg, stream, Rows(s0.committed, cfg.target))
        else s1 == s0)
    && (err.None? ==> count == stream.count && (Committed(cfg, stream, err) ==> !stream.failed))
  }

  // ----- how many statements a load takes when none fails

  /** Up to the end of the import and its commit. */
  const STEPS_TO_LOAD := 10

  /** To make the target ready; it is created when it is not there or was
      dropped. */
  function PrepareSteps(cfg: LoadConfig, there: bool): nat {
    var drops := cfg.mode == FullRefresh && !IsFullRefreshWithChunking(cfg);
    (if drops then 1 else 0)
    + if drops || !there then 2
      else 1 + (if cfg.mode == Truncate && !IsTruncateWithChunking(cfg) then 1 else 0)
             + if cfg.mode == FullRefresh then 0
               else (if cfg.addNewColumns then 1 else 0) + if cfg.adjustColumnType then 1 else 0
  }

  function FinalSteps(cfg: LoadConfig, stream: Stream, there: bool): nat {
    4 + PrepareSteps(cfg, there) + if stream.count > 0 then 2 else 0
  }

  predicate ChecksRows(cfg: LoadConfig, stream: Stream) {
    stream.count > 0 && cfg.checksumRows > 0 && stream.count <= cfg.checksumRows
  }

  /** From the loaded temporary table up to the final commit. */
  function StepsToWrite(cfg: LoadConfig, stream: Stream, there: bool): nat {
    2 + (if ChecksRows(cfg, stream) then 1 else 0) + FinalSteps(cfg, stream, there)
  }

  /** The rows counted in the temporary table, where the database can count, are
      those reported; none only if none was sampled. */
  predicate CountsAgree(stream: Stream) {
    stream.countKnown ==> stream.count == |stream.arrived| && (stream.count == 0 ==> stream.sampled == 0)
  }

  /** The counts agree, and there is something to write that can be written. */
  predicate Loads(cfg: LoadConfig, stream: Stream, target: Option<seq<Row>>) {
    && cfg.mode != DefinitionOnly
    && CountsAgree(stream)
    && (stream.count > 0 || cfg.allowEmpty)
    && ModeResult(cfg, stream, target).Some?
  }

  /** With statement number `loaded` the temporary table stands loaded: if no
      statement from `start` up to the final commit fails, only what comes
      after the commit can. */
  ghost predicate EndsAs(
    db: Database, cfg: LoadConfig, stream: Stream, target: Option<seq<Row>>,
    start: nat, loaded: nat, err: Option<LoadError>)
  {
    var commit := loaded + StepsToWrite(cfg, stream, target.Some?);
    Loads(cfg, stream, target) && db.Run(start, commit) ==>
      err == if commit in db.fails then Some(PostSqlFailed) else if stream.failed then Some(StreamFailed) else None
  }

  lemma EndsBefore(
    db: Database, cfg: LoadConfig, stream: Stream, target: Option<seq<Row>>,
    start: nat, loaded: nat, err: Option<LoadError>)
    requires start <= loaded && (cfg.mode == DefinitionOnly || !db.Run(start, loaded))
    ensures EndsAs(db, cfg, stream, target, start, loaded, err)
  {
    hide StepsToWrite, ModeResult;
    db.RunSplits(start, loaded, loaded + StepsToWrite(cfg, stream, target.Some?));
  }

  lemma EndsLater(
    db: Database, cfg: LoadConfig, stream: Stream, target: Option<seq<Row>>,
    start: nat, later: nat, loaded: nat, err: Option<LoadError>)
    requires start <= later <= loaded && EndsAs(db, cfg, stream, target, later, loaded, err)
    ensures EndsAs(db, cfg, stream, target, start, loaded, err)
  {
    hide StepsToWrite, Loads;
    db.RunSplits(start, later, loaded + StepsToWrite(cfg, stream, target.Some?));
  }

  /** A load with any of the chunk settings adds its rows to what is there. */
  lemma ChunksAppend(cfg: LoadConfig, stream: Stream, rows: seq<Row>)
    requires cfg.mode == FullRefresh || cfg.mode == Truncate
    ensures ModeResult(cfg, stream, Some(rows))
         == Some((if cfg.chunkCount.None? && cfg.chunkExpr.None? && cfg.chunkSize.None? then [] else rows)
                 + if stream.count == 0 then [] else stream.arrived)
  {
    var none: seq<Row> := [];
    assert rows + none == rows && none + stream.arrived == stream.arrived && none + none == none;
  }

  // ----- quiet steps

  lemma QuietSelf(s: State, names: set<string>)
    ensures Quiet(s, s, names)
  {
  }

  lemma QuietPut(s0: State, s: State, tables: Tables, names: set<string>)
    requires Quiet(s0, s, names) && s.tx.None? && tables - names == s.committed - names
    ensures Quiet(s0, Put(s, tables), names)
  {
  }

  lemma UpdateOutside(tables: Tables, name: string, rows: seq<Row>, names: set<string>)
    requires name in names
    ensures tables[name := rows] - names == tables - names
    ensures (tables - {name}) - names == tables - names
  {
  }

  // ----- the steps

  /** Drops what an earlier run may have left. */
  method DropTemp(db: Database, cfg: LoadConfig) returns (ok: bool)
    requires db.tx.None?
    modifies db
    ensures db.tx.None? && Quiet(old(db.Now()), db.Now(), {cfg.temp})
    ensures ok ==> cfg.temp !in db.committed
    ensures ok == db.Run(old(db.statement), old(db.statement) + 3) && (ok ==> db.statement == old(db.statement) + 3)
  {
    ghost var s0 := db.Now();
    QuietSelf(s0, {cfg.temp});
    ok := db.Step();
    if !ok { return; }
    UpdateOutside(db.committed, cfg.temp, [], {cfg.temp});
    QuietPut(s0, db.Now(), db.committed - {cfg.temp}, {cfg.temp});
    ok := db.DropTable(cfg.temp);
    if !ok { return; }
    ok := db.Step();
  }

  /** Fills a fresh temporary table with the stream, and commits it. */
  method LoadTemp(db: Database, cfg: LoadConfig, stream: Stream) returns (err: Option<LoadError>)
    requires db.tx.None? && cfg.temp !in db.committed
    modifies db
    ensures Quiet(old(db.Now()), db.Now(), {cfg.temp})
    ensures err.None? ==> db.tx.None? && Rows(db.committed, cfg.temp) == Some(stream.arrived)
    ensures err.Some? ==> !Committed(cfg, stream, err)
    ensures err == Some(ConfigureFailed) <==> db.tx.Some?
    ensures db.tx.Some? <==> db.Run(old(db.statement), old(db.statement) + 3) && old(db.statement) + 3 in db.fails
    ensures db.Run(old(db.statement), old(db.statement) + 7) ==> err.None? && db.statement == old(db.statement) + 7
  {
    hide Quiet, ModeResult, Merged, Committed, Rows;
    ghost var s0 := db.Now();
    NotCommitted(cfg, stream);
    QuietSelf(s0, {cfg.temp});
    UpdateOutside(db.committed, cfg.temp, [], {cfg.temp});
    QuietPut(s0, db.Now(), db.committed[cfg.temp := []], {cfg.temp});
    var ok, created := db.CreateTableIfNotExists(cfg.temp);
    if !ok { return Some(PrepareFailed); }
    ghost var s1 := db.Now();
    ok := db.Begin();
    if !ok { return Some(OpenFailed); }
    ok := db.Step();
    if !ok {
      QuietOpen(s0, s1, db.Now(), {cfg.temp});
      return Some(ConfigureFailed);
    }
    UpdateOutside(db.committed, cfg.temp, stream.arrived, {cfg.temp});
    QuietPut(s0, s1, db.committed[cfg.temp := stream.arrived], {cfg.temp});
    err := ImportRows(db, cfg, stream);
    RowsPut(db.committed, cfg.temp);
  }

  lemma RowsPut(tables: Tables, name: string)
    ensures name in tables <==> Rows(tables, name).Some?
    ensures name in tables ==> Rows(tables, name) == Some(tables[name])
  {
  }

  /** Errors of the steps before the final commit. */
  lemma NotCommitted(cfg: LoadConfig, stream: Stream)
    ensures forall e | e != PostSqlFailed && e != StreamFailed :: !Committed(cfg, stream, Some(e))
  {
  }

  /** The import into the empty temporary table, and its commit. */
  method ImportRows(db: Database, cfg: LoadConfig, stream: Stream) returns (err: Option<LoadError>)
    requires db.tx.Some? && cfg.temp in db.tx.value && db.tx.value[cfg.temp] == []
    modifies db
    ensures err in {None, Some(ImportFailed), Some(CommitFailed)}
    ensures var closed := old(db.Now()).(tx := None);
            db.Now() == if err.None? then Put(closed, old(db.tx.value)[cfg.temp := stream.arrived]) else closed
    ensures db.Run(old(db.statement), old(db.statement) + 3) ==> err.None? && db.statement == old(db.statement) + 3
  {
    var imported := db.InsertRows(cfg.temp, stream.arrived);
    var ok := db.Step();
    if !imported || !ok {
      db.Rollback();
      return Some(ImportFailed);
    }
    assert [] + stream.arrived == stream.arrived;
    ok := db.Commit();
    err := if ok then None else Some(CommitFailed);
  }

  lemma QuietOpen(s0: State, s1: State, s2: State, names: set<string>)
    requires Quiet(s0, s1, names) && s2.committed == s1.committed && s2.seen == s1.seen
    ensures Quiet(s0, s2, names)
  {
  }

  /** Compares what arrived with what was sent. */
  method CheckCount(db: Database, cfg: LoadConfig, stream: Stream) returns (err: Option<LoadError>)
    requires Rows(db.committed, cfg.temp) == Some(stream.arrived) && db.tx.None?
    modifies db
    ensures db.Now() == old(db.Now())
    ensures err.Some? ==> err != Some(ConfigureFailed) && !Committed(cfg, stream, err)
    ensures err.None? <==> old(db.statement) !in db.fails && CountsAgree(stream)
    ensures db.statement == old(db.statement) + 1
  {
    var ok := db.Step();
    if !ok { return Some(CountFailed); }
    var counted: int := if stream.countKnown then |db.committed[cfg.temp]| else -1;
    if counted >= 0 {
      if stream.count != counted {
        return Some(CountMismatch);
      } else if counted == 0 && stream.sampled > 0 {
        return Some(NothingLoaded);
      }
    }
    err := None;
  }

  /** Makes the target ready inside the transaction. */
  method PrepareFinal(db: Database, cfg: LoadConfig) returns (ok: bool)
    requires db.tx.Some?
    modifies db
    ensures db.tx.Some? && db.committed == old(db.committed) && db.seen == old(db.seen)
    ensures ok ==> db.tx.value == old(db.tx.value)[cfg.target := Base(cfg, Rows(old(db.tx.value), cfg.target))]
    ensures var last := old(db.statement) + PrepareSteps(cfg, cfg.target in old(db.tx.value));
            db.Run(old(db.statement), last) ==> ok && db.statement == last
  {
    if cfg.mode == FullRefresh && !IsFullRefreshWithChunking(cfg) {
      ok := db.DropTable(cfg.target);
      if !ok { return; }
    }
    var created;
    ok, created := db.CreateTableIfNotExists(cfg.target);
    if !ok { return; }
    if !created && cfg.mode == Truncate && !IsTruncateWithChunking(cfg) {
      ok := db.TruncateTable(cfg.target);
      if !ok { return; }
    }
    if !created && cfg.mode != FullRefresh {
      if cfg.addNewColumns {
        ok := db.Step();
        if !ok { return; }
      }
      if cfg.adjustColumnType {
        ok := db.Step();
        if !ok { return; }
      }
    }
  }

  /** The mode can move these rows. */
  predicate Moves(cfg: LoadConfig, rows: seq<Row>, loaded: seq<Row>) {
    && cfg.mode != DefinitionOnly
    && (Appends(cfg) || (cfg.primaryKey.Some? && Merged(cfg.strategy, cfg.primaryKey.value, rows, loaded).Some?))
  }

  /** Moves the rows of the temporary table into the prepared target. */
  method MergeData(db: Database, cfg: LoadConfig) returns (ok: bool)
    requires db.tx.Some? && cfg.temp in db.tx.value && cfg.target in db.tx.value
    modifies db
    ensures db.tx.Some? && db.committed == old(db.committed) && db.seen == old(db.seen)
    ensures ok ==> var rows, loaded := old(db.tx.value)[cfg.target], old(db.tx.value)[cfg.temp];
              var result := if Appends(cfg) then Some(rows + loaded) else if cfg.primaryKey.None? then None
                  else Merged(cfg.strategy, cfg.primaryKey.value, rows, loaded);
              result.Some? && db.tx.value == old(db.tx.value)[cfg.target := result.value]
    ensures var rows, loaded := old(db.tx.value)[cfg.target], old(db.tx.value)[cfg.temp];
            db.Run(old(db.statement), old(db.statement) + 2) && Moves(cfg, rows, loaded) ==>
              ok && db.statement == old(db.statement) + 2
  {
    var rows, loaded := db.tx.value[cfg.target], db.tx.value[cfg.temp];
    if (cfg.mode == Incremental && cfg.primaryKey.None?) || cfg.mode == Snapshot || cfg.mode == FullRefresh
       || cfg.mode == Truncate {
      ok := db.Step();
      if !ok { return; }
      ok := db.InsertRows(cfg.target, loaded);
    } else if cfg.mode == Incremental || cfg.mode == Backfill || cfg.mode == ChangeCapture {
      ok := db.Step();
      if !ok || cfg.primaryKey.None? { return false; }
      var merged := Merged(cfg.strategy, cfg.primaryKey.value, rows, loaded);
      if merged.None? { return false; }
      ok := db.ReplaceRows(cfg.target, merged.value);
    } else {
      ok := false;
    }
  }

  /** The transaction on the target: all of it takes effect, or nothing. */
  method FinalWrite(db: Database, cfg: LoadConfig, stream: Stream) returns (ok: bool)
    requires db.tx.None? && cfg.temp != cfg.target && Rows(db.committed, cfg.temp) == Some(stream.arrived)
    modifies db
    ensures ok ==> var result := ModeResult(cfg, stream, Rows(old(db.committed), cfg.target));
              result.Some? && db.Now() == Put(old(db.Now()), old(db.committed)[cfg.target := result.value])
    ensures !ok ==> db.Now() == old(db.Now())
    ensures db.tx.None?
    ensures var last := old(db.statement) + FinalSteps(cfg, stream, cfg.target in old(db.committed));
            var result := ModeResult(cfg, stream, Rows(old(db.committed), cfg.target));
            db.Run(old(db.statement), last) && cfg.mode != DefinitionOnly && result.Some? ==> ok && db.statement == last
  {
    ok := db.Begin();
    if !ok { return; }
    ok := PrepareFinal(db, cfg);
    if !ok {
      db.Rollback();
      return;
    }
    ok := db.Step();
    if !ok {
      db.Rollback();
      return;
    }
    if stream.count > 0 {
      ok := MergeData(db, cfg);
      if !ok {
        db.Rollback();
        return;
      }
    }
    ok := db.Step();
    if !ok {
      db.Rollback();
      return;
    }
    UpdateTwice(old(db.committed), cfg.target, Base(cfg, Rows(old(db.committed), cfg.target)), db.tx.value[cfg.target]);
    ok := db.Commit();
  }

  lemma UpdateTwice(tables: Tables, name: string, first: seq<Row>, second: seq<Row>)
    ensures tables[name := first][name := second] == tables[name := second]
  {
  }

  /** What a definition leaves: no rows, or the old ones when the drop fails. */
  function Defined(target: Option<seq<Row>>, kept: bool): Option<seq<Row>> {
    if kept && target.Some? then target else Some([])
  }

  /** Creates the target without rows; the old table stays if it cannot be
      dropped. */
  method DefineOnly(db: Database, cfg: LoadConfig) returns (ok: bool)
    requires db.tx.None?
    modifies db
    ensures db.tx.None? && Quiet(old(db.Now()), db.Now(), {cfg.target})
    ensures ok ==>
              Rows(db.committed, cfg.target)
                == Defined(Rows(old(db.committed), cfg.target), old(db.statement) + 1 in db.fails)
    ensures db.Run(old(db.statement), old(db.statement) + 4) ==> ok
  {
    ghost var s0 := db.Now();
    QuietSelf(s0, {cfg.target});
    ok := db.Step();
    if !ok { return; }
    UpdateOutside(Visible(db.Now()), cfg.target, [], {cfg.target});
    QuietPut(s0, db.Now(), Visible(db.Now()) - {cfg.target}, {cfg.target});
    var dropped := db.DropTable(cfg.target);
    UpdateOutside(Visible(db.Now()), cfg.target, [], {cfg.target});
    QuietPut(s0, db.Now(), Visible(db.Now())[cfg.target := []], {cfg.target});
    var created;
    ok, created := db.CreateTableIfNotExists(cfg.target);
  }

  /** Whatever fails, the target is as it was before, until all of the load has
      taken effect; and no other table but the temporary one is touched. */
  method WriteToDb(db: Database, cfg: LoadConfig, stream: Stream) returns (count: nat, err: Option<LoadError>)
    requires db.tx.None? && cfg.temp != cfg.target
    modifies db
    ensures cfg.mode != DefinitionOnly ==> Ended(cfg, stream, old(db.Now()), db.Now(), count, err)
    ensures cfg.mode == DefinitionOnly ==> Quiet(old(db.Now()), db.Now(), {cfg.temp, cfg.target})
    ensures cfg.mode == DefinitionOnly && err.None? ==>
              Rows(db.committed, cfg.target)
                == Defined(Rows(old(db.committed), cfg.target), old(db.statement) + 4 in db.fails)
    ensures cfg.mode == DefinitionOnly && db.Run(old(db.statement), old(db.statement) + 7) ==>
              err.None? && Rows(db.committed, cfg.target) == Some([])
    ensures err == Some(ConfigureFailed) <==> db.tx.Some?
    ensures db.tx.Some?
            <==> cfg.mode != DefinitionOnly && db.Run(old(db.statement), old(db.statement) + 6)
                 && old(db.statement) + 6 in db.fails
    ensures var s := old(db.statement);
            EndsAs(db, cfg, stream, Rows(old(db.committed), cfg.target), s, s + STEPS_TO_LOAD, err)
  {
    hide Quiet, TookEffect, ModeResult, Loads, StepsToWrite, Committed, Rows, Visible, Put, Database.Run, EndsAs,
         Ended, Written;
    count := 0;
    ghost var s0, s := db.Now(), db.statement;
    ghost var target := Rows(db.committed, cfg.target);
    db.RunSplits(s, s + 3, s + 6);
    db.RunSplits(s, s + 3, s + STEPS_TO_LOAD);
    db.RunSplits(s, s + 3, s + 7);
    var ok := DropTemp(db, cfg);
    QuietTargetKept(s0, db.Now(), cfg);
    if !ok {
      NotCommitted(cfg, stream);
      EndedQuiet(cfg, stream, s0, db.Now(), Some(PrepareFailed));
      EndsBefore(db, cfg, stream, target, s, s + STEPS_TO_LOAD, Some(PrepareFailed));
      return 0, Some(PrepareFailed);
    }
    if cfg.mode == DefinitionOnly {
      err := Define(db, cfg, stream, s0);
      EndsBefore(db, cfg, stream, target, s, s + STEPS_TO_LOAD, err);
    } else {
      count, err := LoadAndWrite(db, cfg, stream, s0);
      EndsLater(db, cfg, stream, target, s, s + 3, s + STEPS_TO_LOAD, err);
    }
  }

  // ----- loads that end in an error, from any tables

  /** Only the statement that configures the session fails. */
  method ConfigureFails(tables: Tables, cfg: LoadConfig, stream: Stream) returns (db: Database, err: Option<LoadError>)
    requires cfg.temp != cfg.target && cfg.mode != DefinitionOnly
    ensures fresh(db) && err == Some(ConfigureFailed) && db.tx.Some?
  {
    db := new Database(tables, iset{6});
    var _, e := WriteToDb(db, cfg, stream);
    err := e;
  }

  /** No statement fails; the stream ends in an error. */
  method StreamFails(tables: Tables, cfg: LoadConfig, stream: Stream) returns (db: Database, err: Option<LoadError>)
    requires cfg.temp != cfg.target && Loads(cfg, stream, Rows(tables, cfg.target)) && stream.failed
    ensures fresh(db) && err == Some(StreamFailed)
    ensures TookEffect(cfg, stream, State(tables, None, [tables]), db.Now())
  {
    hide TookEffect, ModeResult, StepsToWrite;
    db := new Database(tables, iset{});
    var _, e := WriteToDb(db, cfg, stream);
    err := e;
  }

  /** Only the statement after the final commit fails. */
  method PostSqlFails(tables: Tables, cfg: LoadConfig, stream: Stream) returns (db: Database, err: Option<LoadError>)
    requires cfg.temp != cfg.target && Loads(cfg, stream, Rows(tables, cfg.target))
    ensures fresh(db) && err == Some(PostSqlFailed)
    ensures TookEffect(cfg, stream, State(tables, None, [tables]), db.Now())
  {
    hide TookEffect, ModeResult, StepsToWrite;
    db := new Database(tables, iset{STEPS_TO_LOAD + StepsToWrite(cfg, stream, Rows(tables, cfg.target).Some?)});
    var _, e := WriteToDb(db, cfg, stream);
    err := e;
  }

  /** Creates the target only, after a quiet start. */
  method Define(db: Database, cfg: LoadConfig, stream: Stream, ghost s0: State) returns (err: Option<LoadError>)
    requires db.tx.None? && Quiet(s0, db.Now(), {cfg.temp})
    requires Rows(s0.committed, cfg.target) == Rows(db.committed, cfg.target)
    modifies db
    ensures db.tx.None? && Quiet(s0, db.Now(), {cfg.temp, cfg.target}) && err in {None, Some(PrepareFailed)}
    ensures err.None? ==>
              Rows(db.committed, cfg.target)
                == Defined(Rows(s0.committed, cfg.target), old(db.statement) + 1 in db.fails)
    ensures db.Run(old(db.statement), old(db.statement) + 4) ==> err.None? && Rows(db.committed, cfg.target) == Some([])
  {
    hide Quiet;
    ghost var s1 := db.Now();
    var ok := DefineOnly(db, cfg);
    QuietThen(s0, s1, db.Now(), {cfg.temp}, {cfg.target});
    assert {cfg.temp} + {cfg.target} == {cfg.temp, cfg.target};
    err := if ok then None else Some(PrepareFailed);
  }

  /** Loads the temporary table and moves it to the target, after a quiet
      start. */
  method LoadAndWrite(
    db: Database, cfg: LoadConfig, stream: Stream, ghost s0: State) returns (count: nat, err: Option<LoadError>)
    requires db.tx.None? && cfg.temp != cfg.target && cfg.temp !in db.committed && cfg.mode != DefinitionOnly
    requires Quiet(s0, db.Now(), {cfg.temp})
    modifies db
    ensures Ended(cfg, stream, s0, db.Now(), count, err)
    ensures err == Some(ConfigureFailed) <==> db.tx.Some?
    ensures db.tx.Some? <==> db.Run(old(db.statement), old(db.statement) + 3) && old(db.statement) + 3 in db.fails
    ensures EndsAs(db, cfg, stream, Rows(s0.committed, cfg.target), old(db.statement), old(db.statement) + 7, err)
  {
    hide Quiet, TookEffect, ModeResult, Loads, StepsToWrite, Committed, Rows, Visible, Database.Run, EndsAs, Ended,
         Written;
    count := 0;
    ghost var s1, s := db.Now(), db.statement;
    ghost var target := Rows(s0.committed, cfg.target);
    err := LoadTemp(db, cfg, stream);
    QuietThen(s0, s1, db.Now(), {cfg.temp}, {cfg.temp});
    ghost var s2 := db.Now();
    if err.Some? {
      EndedQuiet(cfg, stream, s0, s2, err);
      EndsBefore(db, cfg, stream, target, s, s + 7, err);
      return;
    }
    QuietTargetKept(s0, s2, cfg);
    ghost var loaded := db.statement;
    count, err := WriteLoaded(db, cfg, stream);
    EndedAfterQuiet(cfg, stream, s0, s2, db.Now(), count, err);
    if db.Run(s, s + 7) {
      EndsLater(db, cfg, stream, target, s, s + 7, s + 7, err);
    } else {
      EndsBefore(db, cfg, stream, target, s, s + 7, err);
    }
  }

  /** From the loaded temporary table to the target. */
  method WriteLoaded(db: Database, cfg: LoadConfig, stream: Stream) returns (count: nat, err: Option<LoadError>)
    requires db.tx.None? && cfg.temp != cfg.target && Rows(db.committed, cfg.temp) == Some(stream.arrived)
    requires cfg.mode != DefinitionOnly
    modifies db
    ensures db.tx.None? && err != Some(ConfigureFailed)
    ensures Written(cfg, stream, old(db.Now()), db.Now(), count, err)
    ensures EndsAs(db, cfg, stream, Rows(old(db.committed), cfg.target), old(db.statement), old(db.statement), err)
  {
    hide ModeResult, Loads, Committed, Written, Rows, Put, EndsAs, FinalSteps, Database.Run;
    count := 0;
    ghost var s0, s, target := db.Now(), db.statement, Rows(db.committed, cfg.target);
    RowsPut(db.committed, cfg.target);
    err := CheckCount(db, cfg, stream);
    if err.Some? {
      NothingWritten(cfg, stream, s0, 0, err);
      StopsAtCount(db, cfg, stream, target, s, err);
      return;
    }
    NotCommitted(cfg, stream);
    var ok := db.Step();
    if !ok {
      NothingWritten(cfg, stream, s0, 0, Some(PreSqlFailed));
      StopsAt(db, cfg, stream, target, s, s + 1, Some(PreSqlFailed));
      return 0, Some(PreSqlFailed);
    }
    if stream.count == 0 && !cfg.allowEmpty {
      NothingLeftToWrite(db, cfg, stream, s0, target, s);
      return 0, None;
    }
    if stream.count > 0 && cfg.checksumRows > 0 && stream.count <= cfg.checksumRows {
      ok := db.Step();
      if !ok {
        NothingWritten(cfg, stream, s0, stream.count, Some(ChecksumFailed));
        StopsAt(db, cfg, stream, target, s, s + 2, Some(ChecksumFailed));
        return stream.count, Some(ChecksumFailed);
      }
    }
    count, err := WriteAndFinish(db, cfg, stream, s);
  }

  /** The final transaction, and what comes after its commit; the write began
      with statement number `s`. */
  method WriteAndFinish(db: Database, cfg: LoadConfig, stream: Stream, ghost s: nat)
    returns (count: nat, err: Option<LoadError>)
    requires db.tx.None? && cfg.temp != cfg.target && Rows(db.committed, cfg.temp) == Some(stream.arrived)
    requires cfg.mode != DefinitionOnly && (stream.count > 0 || cfg.allowEmpty)
    requires CountsAgree(stream)
    requires db.statement == s + 2 + if ChecksRows(cfg, stream) then 1 else 0
    modifies db
    ensures db.tx.None? && err != Some(ConfigureFailed)
    ensures Written(cfg, stream, old(db.Now()), db.Now(), count, err)
    ensures EndsAs(db, cfg, stream, Rows(old(db.committed), cfg.target), s, s, err)
  {
    hide ModeResult, Loads, Committed, Written, Rows, Put, EndsAs, ChecksRows, FinalSteps, Database.Run;
    ghost var s0, target := db.Now(), Rows(db.committed, cfg.target);
    RowsPut(db.committed, cfg.target);
    NotCommitted(cfg, stream);
    ghost var m := db.statement;
    var ok := FinalWrite(db, cfg, stream);
    if !ok {
      NothingWritten(cfg, stream, s0, 0, Some(FinalFailed));
      StopsFinal(db, cfg, stream, target, s, m, Some(FinalFailed));
      return 0, Some(FinalFailed);
    }
    ok := db.Step();
    if !ok {
      AllWritten(cfg, stream, s0, db.Now(), 0, Some(PostSqlFailed));
      StopsFinal(db, cfg, stream, target, s, m, Some(PostSqlFailed));
      return 0, Some(PostSqlFailed);
    }
    count := stream.count;
    err := if stream.failed then Some(StreamFailed) else None;
    AllWritten(cfg, stream, s0, db.Now(), count, err);
    StopsFinal(db, cfg, stream, target, s, m, err);
  }

  lemma NothingWritten(cfg: LoadConfig, stream: Stream, s: State, count: nat, err: Option<LoadError>)
    requires !Committed(cfg, stream, err) && (err.None? ==> count == stream.count)
    ensures Written(cfg, stream, s, s, count, err)
  {
  }

  lemma AllWritten(cfg: LoadConfig, stream: Stream, s0: State, s1: State, count: nat, err: Option<LoadError>)
    requires match err
             case None => count == stream.count && !stream.failed && (stream.count > 0 || cfg.allowEmpty)
             case Some(e) => e == PostSqlFailed || e == StreamFailed
    requires cfg.mode != DefinitionOnly && (stream.count > 0 || cfg.allowEmpty) && CountsAgree(stream)
    requires var result := ModeResult(cfg, stream, Rows(s0.committed, cfg.target));
             result.Some? && s1 == Put(s0, s0.committed[cfg.target := result.value])
    ensures Written(cfg, stream, s0, s1, count, err)
  {
    hide ModeResult, Put;
  }

  lemma StopsAtCount(
    db: Database, cfg: LoadConfig, stream: Stream, target: Option<seq<Row>>, s: nat, err: Option<LoadError>)
    requires s in db.fails || !CountsAgree(stream)
    ensures EndsAs(db, cfg, stream, target, s, s, err)
  {
    hide ModeResult, FinalSteps;
  }

  lemma StopsAt(
    db: Database, cfg: LoadConfig, stream: Stream, target: Option<seq<Row>>, s: nat, n: nat, err: Option<LoadError>)
    requires s <= n < s + StepsToWrite(cfg, stream, target.Some?) && n in db.fails
    ensures EndsAs(db, cfg, stream, target, s, s, err)
  {
    hide ModeResult, StepsToWrite;
  }

  lemma NothingLeftToWrite(
    db: Database, cfg: LoadConfig, stream: Stream, s0: State, target: Option<seq<Row>>, s: nat)
    requires stream.count == 0 && !cfg.allowEmpty
    ensures Written(cfg, stream, s0, s0, 0, None) && EndsAs(db, cfg, stream, target, s, s, None)
  {
    hide ModeResult, StepsToWrite;
  }

  lemma StopsFinal(
    db: Database, cfg: LoadConfig, stream: Stream, target: Option<seq<Row>>, s: nat, m: nat, err: Option<LoadError>)
    requires s <= m && m + FinalSteps(cfg, stream, target.Some?) == s + StepsToWrite(cfg, stream, target.Some?)
    requires db.Run(m, m + FinalSteps(cfg, stream, target.Some?)) && ModeResult(cfg, stream, target).Some? ==>
               err == if m + FinalSteps(cfg, stream, target.Some?) in db.fails then Some(PostSqlFailed)
                      else if stream.failed then Some(StreamFailed) else None
    ensures EndsAs(db, cfg, stream, target, s, s, err)
  {
    hide ModeResult, StepsToWrite, FinalSteps;
    db.RunSplits(s, m, m + FinalSteps(cfg, stream, target.Some?));
  }

  lemma QuietThen(s0: State, s1: State, s2: State, a: set<string>, b: set<string>)
    requires Quiet(s0, s1, a) && Quiet(s1, s2, b)
    ensures Quiet(s0, s2, a + b)
    ensures a == b ==> Quiet(s0, s2, a)
  {
    assert a == b ==> a + b == a;
    WithoutMore(s0.committed, s1.committed, a, b);
    forall i {:trigger s2.seen[i]} | |s0.seen| <= i < |s2.seen| ensures s2.seen[i] - (a + b) == s0.committed - (a + b) {
      if i < |s1.seen| {
        assert s2.seen[i] == s1.seen[i];
        WithoutMore(s2.seen[i], s0.committed, a, b);
      } else {
        WithoutMore(s2.seen[i], s1.committed, b, a);
        assert b + a == a + b;
      }
    }
    WithoutMore(s2.committed, s1.committed, b, a);
    assert b + a == a + b;
  }

  lemma WithoutMore(x: Tables, y: Tables, a: set<string>, b: set<string>)
    requires x - a == y - a
    ensures x - (a + b) == y - (a + b)
  {
    assert x - (a + b) == (x - a) - b;
    assert y - (a + b) == (y - a) - b;
  }

  lemma QuietTargetKept(s0: State, s1: State, cfg: LoadConfig)
    requires Quiet(s0, s1, {cfg.temp}) && cfg.temp != cfg.target
    ensures Rows(s1.committed, cfg.target) == Rows(s0.committed, cfg.target)
    ensures Quiet(s0, s1, {cfg.temp, cfg.target})
  {
    assert Rows(s0.committed, cfg.target) == Rows(s0.committed - {cfg.temp}, cfg.target);
    assert Rows(s1.committed, cfg.target) == Rows(s1.committed - {cfg.temp}, cfg.target);
    QuietSelf(s1, {cfg.target});
    assert {cfg.temp} + {cfg.target} == {cfg.temp, cfg.target};
    QuietThen(s0, s1, s1, {cfg.temp}, {cfg.target});
  }

  lemma EndedQuiet(cfg: LoadConfig, stream: Stream, s0: State, s1: State, err: Option<LoadError>)
    requires Quiet(s0, s1, {cfg.temp}) && err.Some? && !Committed(cfg, stream, err)
    ensures Ended(cfg, stream, s0, s1, 0, err)
  {
  }

  lemma EndedAfterQuiet(
    cfg: LoadConfig, stream: Stream, s0: State, s1: State, s2: State, count: nat, err: Option<LoadError>)
    requires Quiet(s0, s1, {cfg.temp}) && s1.tx.None? && cfg.temp != cfg.target
    requires Written(cfg, stream, s1, s2, count, err)
    ensures Ended(cfg, stream, s0, s2, count, err)
  {
    hide TookEffect, Loads;
    QuietTargetKept(s0, s1, cfg);
    if Committed(cfg, stream, err) { EffectAfterQuiet(cfg, stream, s0, s1, s2); }
  }

  lemma EffectAfterQuiet(cfg: LoadConfig, stream: Stream, s0: State, s1: State, s2: State)
    requires Quiet(s0, s1, {cfg.temp}) && s1.tx.None? && cfg.temp != cfg.target
    requires var result := ModeResult(cfg, stream, Rows(s1.committed, cfg.target));
             result.Some? && s2 == Put(s1, s1.committed[cfg.target := result.value])
    ensures TookEffect(cfg, stream, s0, s2)
  {
    hide ModeResult;
    assert Rows(s0.committed, cfg.target) == Rows(s0.committed - {cfg.temp}, cfg.target);
    assert Rows(s1.committed, cfg.target) == Rows(s1.committed - {cfg.temp}, cfg.target);
    assert s2.seen[..|s2.seen| - 1] == s1.seen;
  }

  // ----- what a load that took effect means

  /** Readers see the target as it was or as the mode makes it, and no other
      table changes, at any point of the load. */
  lemma ReadersSeeOldOrNew(cfg: LoadConfig, stream: Stream, s0: State, s1: State, i: nat, name: string)
    requires TookEffect(cfg, stream, s0, s1) && cfg.temp != cfg.target && name != cfg.temp
    requires |s0.seen| <= i < |s1.seen|
    ensures Rows(s1.seen[i], name) == if name == cfg.target && i == |s1.seen| - 1
                                      then ModeResult(cfg, stream, Rows(s0.committed, cfg.target))
                                      else Rows(s0.committed, name)
  {
    hide ModeResult;
    assert Rows(s1.seen[i], name) == Rows(s1.seen[i] - {cfg.temp}, name);
    assert Rows(s0.committed, name) == Rows(s0.committed - {cfg.temp}, name);
  }

  lemma FinalRows(cfg: LoadConfig, stream: Stream, s0: State, s1: State)
    requires TookEffect(cfg, stream, s0, s1) && cfg.temp != cfg.target
    ensures Rows(s1.committed, cfg.target) == ModeResult(cfg, stream, Rows(s0.committed, cfg.target))
    ensures forall name | name !in {cfg.temp, cfg.target} :: Rows(s1.committed, name) == Rows(s0.committed, name)
  {
    forall name | name != cfg.temp ensures Rows(s1.committed, name) ==
        if name == cfg.target then ModeResult(cfg, stream, Rows(s0.committed, cfg.target)) else Rows(s0.committed, name)
    {
      ReadersSeeOldOrNew(cfg, stream, s0, s1, |s1.seen| - 1, name);
    }
  }

  /** A full refresh or truncate that is not chunked leaves exactly the loaded
      rows; the other inserting modes keep what was there. */
  lemma InsertedRows(cfg: LoadConfig, stream: Stream, s0: State, s1: State)
    requires TookEffect(cfg, stream, s0, s1) && cfg.temp != cfg.target && Appends(cfg) && stream.count > 0
    ensures Rows(s1.committed, cfg.target) ==
            Some(if Clears(cfg) || cfg.target !in s0.committed then stream.arrived
                 else s0.committed[cfg.target] + stream.arrived)
  {
    FinalRows(cfg, stream, s0, s1);
    assert [] + stream.arrived == stream.arrived;
  }

  /** The rows of a table; one that is not there has none. */
  function RowsOf(db: map<string, seq<Row>>, name: string): seq<Row> {
    if name in db then db[name] else []
  }

  /** A keyed load leaves, for every key, the loaded rows with that key, or the
      old ones where none was loaded; a table that did not exist had none. */
  lemma KeyedRows(cfg: LoadConfig, stream: Stream, s0: State, s1: State, k: seq<string>)
    requires TookEffect(cfg, stream, s0, s1) && cfg.temp != cfg.target && !Appends(cfg) && stream.count > 0
    requires cfg.strategy == DeleteInsert
             || (cfg.strategy == UpdateInsert
                 && (cfg.primaryKey.Some? ==> Keyed(RowsOf(s0.committed, cfg.target), cfg.primaryKey.value)))
    ensures cfg.primaryKey.Some? && cfg.target in s1.committed
    ensures WithKey(s1.committed[cfg.target], cfg.primaryKey.value, k)
         == Upserted(cfg.primaryKey.value, RowsOf(s0.committed, cfg.target), stream.arrived, k)
  {
    hide TookEffect, WithKey, Keyed;
    FinalRowsAre(cfg, stream, s0, s1);
    var key, rows := cfg.primaryKey.value, RowsOf(s0.committed, cfg.target);
    if cfg.strategy == DeleteInsert {
      DeleteInsertUpserts(key, rows, stream.arrived, k);
    } else {
      UpdateInsertUpserts(key, rows, stream.arrived, k);
    }
  }

  lemma FinalRowsAre(cfg: LoadConfig, stream: Stream, s0: State, s1: State)
    requires TookEffect(cfg, stream, s0, s1) && cfg.temp != cfg.target
    ensures ModeResult(cfg, stream, Rows(s0.committed, cfg.target)).Some?
    ensures Rows(s1.committed, cfg.target) == ModeResult(cfg, stream, Rows(s0.committed, cfg.target))
  {
    FinalRows(cfg, stream, s0, s1);
  }
}
