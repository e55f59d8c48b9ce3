/** A replication run: chunked full-refresh and truncate streams
    have their target cleared once, before their first chunk is loaded. */
module ReplicationRun {
  import opened Text
  import opened Names
  import opened Upsert
  import opened Warehouse
  import opened LoadProtocol

  datatype Task = Task(cfg: LoadConfig, stream: Stream, disabled: bool)

  /** One chunk of a load that starts from an empty target. */
  predicate IsClearedChunk(cfg: LoadConfig) {
    IsFullRefreshWithChunking(cfg) || IsTruncateWithChunking(cfg)
  }

  /** Where a run stands: the number of its next statement, and the committed
      tables. */
  datatype Point = Point(statement: nat, tables: Tables)

  function PointOf(db: Database): Point reads db {
    Point(db.statement, db.committed)
  }

  /** No statement of the clear fails, and a table to truncate is there. */
  ghost predicate CanClear(db: Database, cfg: LoadConfig, at: Point) {
    db.Run(at.statement, at.statement + 2) && (cfg.mode == Truncate ==> cfg.target in at.tables)
  }

  function AfterClear(cfg: LoadConfig, at: Point): Point {
    Point(at.statement + 2, if cfg.mode == FullRefresh then at.tables - {cfg.target} else at.tables[cfg.target := []])
  }

  /** Empties the target of a chunked load: dropped, or truncated if it exists. */
  method ClearTableForChunkLoad(db: Database, cfg: LoadConfig) returns (ok: bool)
    requires db.tx.None?
    modifies db
    ensures db.tx.None?
    ensures !(ok && IsClearedChunk(cfg)) ==> db.Now() == old(db.Now())
    ensures ok && IsClearedChunk(cfg) ==> PointOf(db) == AfterClear(cfg, old(PointOf(db)))
    ensures !(ok && IsClearedChunk(cfg)) ==> db.committed == old(db.committed)
    ensures !IsClearedChunk(cfg) ==> PointOf(db) == old(PointOf(db))
    ensures ok <==> (IsClearedChunk(cfg) ==> CanClear(db, cfg, old(PointOf(db))))
  {
    ok := true;
    if IsFullRefreshWithChunking(cfg) || IsTruncateWithChunking(cfg) {
      ok := db.Step();
      if !ok { return; }
      if cfg.mode == FullRefresh {
        ok := db.DropTable(cfg.target);
      } else {
        ok := db.TruncateTable(cfg.target);
      }
    }
  }

  /** The rows of a table; none if it does not exist. */
  function Contents(tables: Tables, name: string): multiset<Row> {
    if name in tables then multiset(tables[name]) else multiset{}
  }

  /** The rows a committed chunk adds. */
  function Added(task: Task): multiset<Row> {
    if task.stream.count == 0 then multiset{} else multiset(task.stream.arrived)
  }

  /** The rows of those tasks earlier far that load into name and committed. */
  function Loaded(tasks: seq<Task>, committed: seq<bool>, name: string): multiset<Row>
    requires |committed| <= |tasks|
  {
    if committed == [] then multiset{} else
      var n := |committed| - 1;
      Loaded(tasks, committed[..n], name) + if tasks[n].cfg.target == name && committed[n] then Added(tasks[n])
        else multiset{}
  }

  /** The tables these tasks start from empty. */
  function Started(tasks: seq<Task>): set<string> {
    set i | 0 <= i < |tasks| && IsClearedChunk(tasks[i].cfg) :: tasks[i].cfg.target
  }

  /** Every task on this table is such a chunk, and no task uses it to load
      through. */
  ghost predicate ChunksOnly(tasks: seq<Task>, name: string) {
    forall i | 0 <= i < |tasks| ::
      tasks[i].cfg.temp != name && (tasks[i].cfg.target == name ==> IsClearedChunk(tasks[i].cfg))
  }

  /** What the run has made of a table of chunks: its old rows until it is
      cleared, and the rows of every chunk that committed. */
  ghost predicate Holds(
    tasks: seq<Task>, committed: seq<bool>, cleared: set<string>, name: string, before: Tables, now: Tables)
  {
    |committed| <= |tasks| &&
    Contents(now, name)
      == (if name in cleared then multiset{} else Contents(before, name)) + Loaded(tasks, committed, name)
  }

  ghost predicate AllHold(tasks: seq<Task>, committed: seq<bool>, cleared: set<string>, before: Tables, now: Tables) {
    forall name | ChunksOnly(tasks, name) :: Holds(tasks, committed, cleared, name, before, now)
  }

  /** What one task does to the tables: its target holds the mode's result, or
      what it held; no other table but the temporary one changes. */
  ghost predicate TaskEffect(task: Task, committed: bool, t0: Tables, t1: Tables) {
    var cfg := task.cfg;
    && t1 - {cfg.temp, cfg.target} == t0 - {cfg.temp, cfg.target}
    && (cfg.mode == DefinitionOnly ==> !committed)
    && (cfg.mode != DefinitionOnly && !committed ==> Rows(t1, cfg.target) == Rows(t0, cfg.target))
    && (committed ==>
          var result := ModeResult(cfg, task.stream, Rows(t0, cfg.target));
          result.Some? && Rows(t1, cfg.target) == result)
  }

  /** The first statement after a load's final commit. */
  function PastCommit(task: Task, at: Point): nat {
    at.statement + 1 + STEPS_TO_LOAD + StepsToWrite(task.cfg, task.stream, task.cfg.target in at.tables)
  }

  /** How a task that starts here ends. A load that can be written commits when
      no statement up to there fails, and then succeeds unless the next
      statement fails or its stream did. */
  ghost predicate TaskEnds(db: Database, task: Task, at: Point, committed: bool, ok: bool, t1: Tables) {
    && (Loads(task.cfg, task.stream, Rows(at.tables, task.cfg.target)) && db.Run(at.statement, PastCommit(task, at)) ==>
          committed && (ok <==> PastCommit(task, at) !in db.fails && !task.stream.failed))
    && (task.cfg.mode == DefinitionOnly && db.Run(at.statement, at.statement + 8) ==>
          ok && Rows(t1, task.cfg.target) == Some([]))
    && (ok && task.cfg.mode != DefinitionOnly ==> committed || (task.stream.count == 0 && !task.cfg.allowEmpty))
  }

  method RunTask(db: Database, task: Task) returns (ok: bool, ghost committed: bool)
    requires db.tx.None? && task.cfg.temp != task.cfg.target
    modifies db
    ensures db.tx.None? && TaskEffect(task, committed, old(db.committed), db.committed)
    ensures TaskEnds(db, task, old(PointOf(db)), committed, ok, db.committed)
  {
    hide Quiet, TookEffect, ModeResult, Loads, StepsToWrite, Rows, EndsAs, Ended, Committed, TaskEffect, TaskEnds,
         Database.Run;
    ghost var at := PointOf(db);
    committed := false;
    ok := db.Step();
    if !ok {
      NotStarted(db, task, at);
      return;
    }
    ghost var s0, s := db.Now(), db.statement;
    var count, err := WriteToDb(db, task.cfg, task.stream);
    committed := task.cfg.mode != DefinitionOnly && Committed(task.cfg, task.stream, err);
    ok := err.None?;
    TaskEnded(db, task, at, err, committed, db.committed);
    if committed {
      LoadedChunk(task, s0, db.Now(), count, err);
    } else {
      NothingLoaded(task, s0, db.Now(), count, err);
    }
    db.Reconnect();
  }

  lemma NotStarted(db: Database, task: Task, at: Point)
    requires at.statement in db.fails
    ensures TaskEffect(task, false, at.tables, at.tables) && TaskEnds(db, task, at, false, false, at.tables)
  {
    hide ModeResult, Loads, StepsToWrite;
  }

  lemma TaskEnded(db: Database, task: Task, at: Point, err: Option<LoadError>, committed: bool, t1: Tables)
    requires var s := at.statement + 1;
             EndsAs(db, task.cfg, task.stream, Rows(at.tables, task.cfg.target), s, s + STEPS_TO_LOAD, err)
    requires committed <==> task.cfg.mode != DefinitionOnly && Committed(task.cfg, task.stream, err)
    requires task.cfg.mode == DefinitionOnly && db.Run(at.statement + 1, at.statement + 8) ==>
               err.None? && Rows(t1, task.cfg.target) == Some([])
    ensures TaskEnds(db, task, at, committed, err.None?, t1)
  {
    hide ModeResult, StepsToWrite;
  }

  lemma LoadedChunk(task: Task, s0: State, s1: State, count: nat, err: Option<LoadError>)
    requires Ended(task.cfg, task.stream, s0, s1, count, err) && Committed(task.cfg, task.stream, err)
    requires task.cfg.temp != task.cfg.target && task.cfg.mode != DefinitionOnly
    ensures TaskEffect(task, true, s0.committed, s1.committed)
  {
    hide ModeResult, Committed, Quiet;
    var temp, target := task.cfg.temp, task.cfg.target;
    FinalRows(task.cfg, task.stream, s0, s1);
    var result := ModeResult(task.cfg, task.stream, Rows(s0.committed, target)).value;
    assert s1.committed - {temp, target} == s1.committed - {temp} - {target};
    assert s0.committed - {temp, target} == (s0.committed - {temp})[target := result] - {target};
  }

  lemma NothingLoaded(task: Task, s0: State, s1: State, count: nat, err: Option<LoadError>)
    requires task.cfg.temp != task.cfg.target
    requires if task.cfg.mode == DefinitionOnly then Quiet(s0, s1, {task.cfg.temp, task.cfg.target})
             else Ended(task.cfg, task.stream, s0, s1, count, err) && !Committed(task.cfg, task.stream, err)
    ensures TaskEffect(task, false, s0.committed, s1.committed)
  {
    hide TookEffect, Committed, ModeResult;
    if task.cfg.mode != DefinitionOnly { QuietTargetKept(s0, s1, task.cfg); }
  }

  /** What a task adds to a table of chunks. */
  lemma ChunkAdds(task: Task, committed: bool, t0: Tables, t1: Tables)
    requires TaskEffect(task, committed, t0, t1) && IsClearedChunk(task.cfg)
    ensures Contents(t1, task.cfg.target)
         == Contents(t0, task.cfg.target) + if committed then Added(task) else multiset{}
  {
  }

  // ----- a run, turn by turn

  /** One task reached: where its turn starts, where its load starts, after
      any clear, and where it ends. */
  datatype Turn = Turn(start: Point, load: Point, end: Point, committed: bool, ok: bool)

  /** The target of the i-th task is to be cleared before it. */
  ghost predicate ClearsAt(tasks: seq<Task>, isThreadChild: bool, i: nat)
    requires i < |tasks|
  {
    !isThreadChild && IsClearedChunk(tasks[i].cfg) && tasks[i].cfg.target !in Started(tasks[..i])
  }

  /** The clear comes first, and then every task that is not disabled runs. */
  ghost predicate Turned(db: Database, task: Task, clears: bool, t: Turn) {
    && (if clears then CanClear(db, task.cfg, t.start) && t.load == AfterClear(task.cfg, t.start)
        else t.load == t.start)
    && if task.disabled then !t.committed && t.ok && t.end == t.load
       else TaskEffect(task, t.committed, t.load.tables, t.end.tables)
            && TaskEnds(db, task, t.load, t.committed, t.ok, t.end.tables)
  }

  function Now(start: Point, turns: seq<Turn>): Point {
    if turns == [] then start else turns[|turns| - 1].end
  }

  ghost predicate RunTrace(
    db: Database, tasks: seq<Task>, isThreadChild: bool, interrupts: nat -> bool, start: Point, turns: seq<Turn>)
  {
    |turns| <= |tasks| && forall i | 0 <= i < |turns| ::
      && !interrupts(i) && turns[i].start == Now(start, turns[..i])
      && Turned(db, tasks[i], ClearsAt(tasks, isThreadChild, i), turns[i])
  }

  /** A run that got here ends in a clear that fails. */
  ghost predicate ClearFails(
    db: Database, tasks: seq<Task>, isThreadChild: bool, interrupts: nat -> bool, start: Point, turns: seq<Turn>)
  {
    var i := |turns|;
    i < |tasks| && !interrupts(i) && ClearsAt(tasks, isThreadChild, i) && !CanClear(db, tasks[i].cfg, Now(start, turns))
  }

  /** No task that ran has failed. */
  ghost predicate AllFine(turns: seq<Turn>) {
    forall i | 0 <= i < |turns| :: turns[i].ok
  }

  function Commits(turns: seq<Turn>): (committed: seq<bool>)
    ensures |committed| == |turns| && forall i | 0 <= i < |turns| :: committed[i] == turns[i].committed
  {
    seq(|turns|, i requires 0 <= i < |turns| => turns[i].committed)
  }

  /** Runs all tasks in order; interrupts tells at which of them the user has
      asked to stop. Succeeds if no clear and no task that ran has failed.
      Returns also the tables cleared, in order, and every task reached. */
  method Run(db: Database, tasks: seq<Task>, isThreadChild: bool, interrupts: nat -> bool)
    returns (ok: bool, cleanedForChunkLoad: set<string>, ghost clears: seq<string>, ghost turns: seq<Turn>)
    requires db.tx.None?
    requires forall i | 0 <= i < |tasks| :: tasks[i].cfg.temp != tasks[i].cfg.target
    modifies db
    ensures db.tx.None? && RunTrace(db, tasks, isThreadChild, interrupts, old(PointOf(db)), turns)
    ensures db.committed == Now(old(PointOf(db)), turns).tables
    ensures |turns| == |tasks| || interrupts(|turns|)
            || ClearFails(db, tasks, isThreadChild, interrupts, old(PointOf(db)), turns)
    ensures ok <==> !ClearFails(db, tasks, isThreadChild, interrupts, old(PointOf(db)), turns)
                    && AllFine(turns)
    ensures AllHold(tasks, Commits(turns), cleanedForChunkLoad, old(db.committed), db.committed)
    ensures NoRepeats(clears) && SetOf(clears) == cleanedForChunkLoad
    ensures cleanedForChunkLoad == if isThreadChild then {} else Started(tasks[..|turns|])
  {
    hide *;
    ok, cleanedForChunkLoad, clears, turns := true, {}, [], [];
    ghost var start := PointOf(db);
    PointIs(db);
    NothingYet(db, tasks, isThreadChild, interrupts, start);
    for i := 0 to |tasks|
      invariant db.tx.None? && |turns| == i && PointOf(db) == Now(start, turns)
      invariant RunTrace(db, tasks, isThreadChild, interrupts, start, turns)
      invariant ok <==> AllFine(turns)
      invariant AllHold(tasks, Commits(turns), cleanedForChunkLoad, start.tables, db.committed)
      invariant NoRepeats(clears) && SetOf(clears) == cleanedForChunkLoad
      invariant cleanedForChunkLoad == if isThreadChild then {} else Started(tasks[..i])
    {
      ClearFailsAt(db, tasks, isThreadChild, interrupts, start, turns);
      PointIs(db);
      if interrupts(i) {
        return;
      }
      var cfg := tasks[i].cfg;
      ghost var turn := Turn(PointOf(db), PointOf(db), PointOf(db), false, true);
      StartedNext(tasks, i);
      ClearedChunkIs(cfg);
      var cleaned := cfg.target in cleanedForChunkLoad;
      if !isThreadChild && !cleaned && (IsFullRefreshWithChunking(cfg) || IsTruncateWithChunking(cfg)) {
        var done := ClearTableForChunkLoad(db, cfg);
        PointIs(db);
        if !done {
          return false, cleanedForChunkLoad, clears, turns;
        }
        turn := turn.(load := PointOf(db), end := PointOf(db));
        ClearedHolds(tasks, Commits(turns), cleanedForChunkLoad, start.tables, cfg, turn.start);
        NoRepeatsSnoc(clears, cfg.target);
        SetOfSnoc(clears, cfg.target);
        clears := clears + [cfg.target];
        cleanedForChunkLoad := cleanedForChunkLoad + {cfg.target};
      }
      if !tasks[i].disabled {
        PointIs(db);
        var fine, c := RunTask(db, tasks[i]);
        PointIs(db);
        turn := turn.(end := PointOf(db), committed := c, ok := fine);
        ok := ok && fine;
      }
      TurnIs(db, tasks, isThreadChild, turn, i);
      PointIs(db);
      NextTurn(db, tasks, isThreadChild, interrupts, start, turns, turn, cleanedForChunkLoad);
      turns := turns + [turn];
    }
    PointIs(db);
    ClearFailsAt(db, tasks, isThreadChild, interrupts, start, turns);
  }

  lemma PointIs(db: Database)
    ensures PointOf(db) == Point(db.statement, db.committed)
  {
  }

  lemma ClearedChunkIs(cfg: LoadConfig)
    ensures IsClearedChunk(cfg) <==> IsFullRefreshWithChunking(cfg) || IsTruncateWithChunking(cfg)
  {
  }

  lemma ClearFailsAt(
    db: Database, tasks: seq<Task>, isThreadChild: bool, interrupts: nat -> bool, start: Point, turns: seq<Turn>)
    ensures ClearFails(db, tasks, isThreadChild, interrupts, start, turns) <==>
              |turns| < |tasks| && !interrupts(|turns|) && !isThreadChild && IsClearedChunk(tasks[|turns|].cfg)
              && tasks[|turns|].cfg.target !in Started(tasks[..|turns|])
              && !CanClear(db, tasks[|turns|].cfg, Now(start, turns))
  {
    hide CanClear, Started, Now;
  }

  lemma TurnIs(db: Database, tasks: seq<Task>, isThreadChild: bool, t: Turn, i: nat)
    requires i < |tasks|
    requires if !isThreadChild && IsClearedChunk(tasks[i].cfg) && tasks[i].cfg.target !in Started(tasks[..i])
             then CanClear(db, tasks[i].cfg, t.start) && t.load == AfterClear(tasks[i].cfg, t.start)
             else t.load == t.start
    requires if tasks[i].disabled then !t.committed && t.ok && t.end == t.load
             else TaskEffect(tasks[i], t.committed, t.load.tables, t.end.tables)
                  && TaskEnds(db, tasks[i], t.load, t.committed, t.ok, t.end.tables)
    ensures Turned(db, tasks[i], ClearsAt(tasks, isThreadChild, i), t)
  {
    hide CanClear, AfterClear, TaskEffect, TaskEnds, Started;
  }

  lemma NextTurn(
    db: Database, tasks: seq<Task>, isThreadChild: bool, interrupts: nat -> bool, start: Point, turns: seq<Turn>,
    turn: Turn, cleared: set<string>)
    requires RunTrace(db, tasks, isThreadChild, interrupts, start, turns) && |turns| < |tasks| && !interrupts(|turns|)
    requires turn.start == Now(start, turns)
    requires Turned(db, tasks[|turns|], ClearsAt(tasks, isThreadChild, |turns|), turn)
    requires AllHold(tasks, Commits(turns), cleared, start.tables, turn.load.tables)
    ensures RunTrace(db, tasks, isThreadChild, interrupts, start, turns + [turn])
    ensures Now(start, turns + [turn]) == turn.end
    ensures AllFine(turns + [turn]) <==> AllFine(turns) && turn.ok
    ensures AllHold(tasks, Commits(turns + [turn]), cleared, start.tables, turn.end.tables)
  {
    hide *;
    TraceNext(db, tasks, isThreadChild, interrupts, start, turns, turn);
    TurnHolds(db, tasks, turns, turn, cleared, start.tables, ClearsAt(tasks, isThreadChild, |turns|));
  }

  lemma TraceNext(
    db: Database, tasks: seq<Task>, isThreadChild: bool, interrupts: nat -> bool, start: Point, turns: seq<Turn>,
    turn: Turn)
    requires RunTrace(db, tasks, isThreadChild, interrupts, start, turns) && |turns| < |tasks| && !interrupts(|turns|)
    requires turn.start == Now(start, turns)
    requires Turned(db, tasks[|turns|], ClearsAt(tasks, isThreadChild, |turns|), turn)
    ensures RunTrace(db, tasks, isThreadChild, interrupts, start, turns + [turn])
    ensures Now(start, turns + [turn]) == turn.end
    ensures AllFine(turns + [turn]) <==> AllFine(turns) && turn.ok
  {
    hide Turned, ClearsAt, Now;
    var all := turns + [turn];
    NowIs(start, turns, turn);
    assert all[..|turns|] == turns;
    assert forall i | 0 <= i < |turns| :: all[i] == turns[i] && all[..i] == turns[..i];
    assert all[|turns|] == turn;
  }

  lemma NowIs(start: Point, turns: seq<Turn>, turn: Turn)
    ensures Now(start, turns + [turn]) == turn.end
  {
  }

  lemma TurnHolds(
    db: Database, tasks: seq<Task>, turns: seq<Turn>, turn: Turn, cleared: set<string>, before: Tables, clears: bool)
    requires |turns| < |tasks| && Turned(db, tasks[|turns|], clears, turn)
    requires AllHold(tasks, Commits(turns), cleared, before, turn.load.tables)
    ensures AllHold(tasks, Commits(turns + [turn]), cleared, before, turn.end.tables)
  {
    hide AllHold, TaskEffect, TaskEnds, CanClear, AfterClear;
    assert Commits(turns + [turn]) == Commits(turns) + [turn.committed];
    TaskHolds(tasks, Commits(turns), cleared, before, turn.load.tables, turn.end.tables, turn.committed,
              tasks[|turns|].disabled);
  }

  lemma NothingYet(
    db: Database, tasks: seq<Task>, isThreadChild: bool, interrupts: nat -> bool, start: Point)
    ensures RunTrace(db, tasks, isThreadChild, interrupts, start, []) && Now(start, []) == start
    ensures AllHold(tasks, Commits([]), {}, start.tables, start.tables)
    ensures NoRepeats([]) && SetOf([]) == {} && Started(tasks[..0]) == {} && AllFine([])
  {
  }

  lemma StartedNext(tasks: seq<Task>, i: nat)
    requires i < |tasks|
    ensures Started(tasks[..i + 1]) == Started(tasks[..i]) + if IsClearedChunk(tasks[i].cfg) then {tasks[i].cfg.target}
            else {}
  {
    var a, b := tasks[..i], tasks[..i + 1];
    assert b == a + [tasks[i]];
    forall name
      ensures name in Started(b)
              <==> name in Started(a) || (IsClearedChunk(tasks[i].cfg) && name == tasks[i].cfg.target)
    {
      if name in Started(a) {
        var j :| 0 <= j < i && IsClearedChunk(a[j].cfg) && a[j].cfg.target == name;
        assert b[j] == a[j];
      }
      if name in Started(b) {
        var j :| 0 <= j < i + 1 && IsClearedChunk(b[j].cfg) && b[j].cfg.target == name;
        if j < i { assert a[j] == b[j]; }
      }
      assert b[i] == tasks[i];
    }
  }

  /** Nothing was loaded into a table of chunks before it is cleared. */
  lemma ClearedHolds(
    tasks: seq<Task>, committed: seq<bool>, cleared: set<string>, before: Tables, cfg: LoadConfig, start: Point)
    requires AllHold(tasks, committed, cleared, before, start.tables) && |committed| <= |tasks|
    requires cfg.target !in Started(tasks[..|committed|])
    ensures AllHold(tasks, committed, cleared + {cfg.target}, before, AfterClear(cfg, start).tables)
  {
    var t0, t1, target := start.tables, AfterClear(cfg, start).tables, cfg.target;
    assert t1 - {target} == t0 - {target} && Contents(t1, target) == multiset{};
    hide Loaded;
    forall name | ChunksOnly(tasks, name) ensures Holds(tasks, committed, cleared + {target}, name, before, t1) {
      assert Holds(tasks, committed, cleared, name, before, t0);
      if name == target {
        NotStartedNotLoaded(tasks, committed, name);
      } else {
        SameOutside(t0, t1, {target}, name);
      }
    }
  }

  lemma {:induction false} NotStartedNotLoaded(tasks: seq<Task>, committed: seq<bool>, name: string)
    requires ChunksOnly(tasks, name) && |committed| <= |tasks| && name !in Started(tasks[..|committed|])
    ensures Loaded(tasks, committed, name) == multiset{}
  {
    if committed != [] {
      var n := |committed| - 1;
      StartedNext(tasks, n);
      NotStartedNotLoaded(tasks, committed[..n], name);
    }
  }

  lemma TaskHolds(
    tasks: seq<Task>, committed: seq<bool>, cleared: set<string>, before: Tables, t0: Tables, t1: Tables, loaded: bool,
    disabled: bool)
    requires |committed| < |tasks| && AllHold(tasks, committed, cleared, before, t0)
    requires if disabled then t1 == t0 && !loaded else TaskEffect(tasks[|committed|], loaded, t0, t1)
    ensures AllHold(tasks, committed + [loaded], cleared, before, t1)
  {
    hide Loaded, Contents, TaskEffect, ChunksOnly, Holds;
    forall name | ChunksOnly(tasks, name) ensures Holds(tasks, committed + [loaded], cleared, name, before, t1) {
      assert Holds(tasks, committed, cleared, name, before, t0);
      TaskHoldsFor(tasks, committed, cleared, before, t0, t1, loaded, disabled, name);
    }
  }

  lemma TaskHoldsFor(
    tasks: seq<Task>, committed: seq<bool>, cleared: set<string>, before: Tables, t0: Tables, t1: Tables, loaded: bool,
    disabled: bool, name: string)
    requires |committed| < |tasks| && ChunksOnly(tasks, name) && Holds(tasks, committed, cleared, name, before, t0)
    requires if disabled then t1 == t0 && !loaded else TaskEffect(tasks[|committed|], loaded, t0, t1)
    ensures Holds(tasks, committed + [loaded], cleared, name, before, t1)
  {
    hide Loaded, IsClearedChunk, Contents, TaskEffect, ChunksOnly, Added;
    var task := tasks[|committed|];
    LoadedNext(tasks, committed, loaded, name);
    OneOfChunks(tasks, |committed|, name);
    var base := if name in cleared then multiset{} else Contents(before, name);
    var earlier := Loaded(tasks, committed, name);
    if disabled || name != task.cfg.target {
      if !disabled { OtherKept(task, loaded, t0, t1, name); }
      assert earlier + multiset{} == earlier;
    } else if loaded {
      ChunkAdds(task, loaded, t0, t1);
      SumInOrder(base, earlier, Added(task));
    } else {
      ChunkAdds(task, loaded, t0, t1);
      assert earlier + multiset{} == earlier;
      assert Contents(t0, name) + multiset{} == Contents(t0, name);
    }
  }

  lemma OneOfChunks(tasks: seq<Task>, i: nat, name: string)
    requires ChunksOnly(tasks, name) && i < |tasks|
    ensures name != tasks[i].cfg.temp && (name == tasks[i].cfg.target ==> IsClearedChunk(tasks[i].cfg))
  {
    hide IsClearedChunk;
  }

  lemma OtherKept(task: Task, committed: bool, t0: Tables, t1: Tables, name: string)
    requires TaskEffect(task, committed, t0, t1) && name !in {task.cfg.temp, task.cfg.target}
    ensures Contents(t1, name) == Contents(t0, name)
  {
    hide ModeResult, Rows;
    SameOutside(t0, t1, {task.cfg.temp, task.cfg.target}, name);
  }

  lemma SameOutside(t0: Tables, t1: Tables, names: set<string>, name: string)
    requires t1 - names == t0 - names && name !in names
    ensures Contents(t1, name) == Contents(t0, name)
  {
    assert Contents(t1 - names, name) == Contents(t1, name) && Contents(t0 - names, name) == Contents(t0, name);
  }

  lemma SumInOrder(a: multiset<Row>, b: multiset<Row>, c: multiset<Row>)
    ensures (a + b) + c == a + (b + c)
  {
  }

  lemma LoadedNext(tasks: seq<Task>, committed: seq<bool>, loaded: bool, name: string)
    requires |committed| < |tasks|
    ensures Loaded(tasks, committed + [loaded], name) ==
            Loaded(tasks, committed, name) + if tasks[|committed|].cfg.target == name && loaded
              then Added(tasks[|committed|]) else multiset{}
  {
    assert (committed + [loaded])[..|committed|] == committed;
  }

  /** After a run that reached every task, a table of chunks holds exactly the
      rows of the chunks that committed. */
  lemma CompleteRun(tasks: seq<Task>, committed: seq<bool>, before: Tables, now: Tables, name: string)
    requires |committed| == |tasks| && AllHold(tasks, committed, Started(tasks), before, now)
    requires ChunksOnly(tasks, name) && name in Started(tasks)
    ensures Contents(now, name) == Loaded(tasks, committed, name)
  {
    hide Loaded, Contents;
    assert Holds(tasks, committed, Started(tasks), name, before, now);
  }

  /** The clearing comes before the check for disabled streams: a table all of
      whose chunks are disabled is emptied too. */
  lemma DisabledStillCleared(tasks: seq<Task>, committed: seq<bool>, before: Tables, now: Tables, name: string)
    requires |committed| == |tasks| && AllHold(tasks, committed, Started(tasks), before, now)
    requires ChunksOnly(tasks, name) && name in Started(tasks)
    requires forall i | 0 <= i < |tasks| && tasks[i].cfg.target == name :: tasks[i].disabled
    requires forall i | 0 <= i < |committed| && tasks[i].disabled :: !committed[i]
    ensures Contents(now, name) == multiset{}
  {
    CompleteRun(tasks, committed, before, now, name);
    NoneLoaded(tasks, committed, name);
  }

  lemma {:induction false} NoneLoaded(tasks: seq<Task>, committed: seq<bool>, name: string)
    requires |committed| <= |tasks|
    requires forall i | 0 <= i < |committed| && tasks[i].cfg.target == name :: !committed[i]
    ensures Loaded(tasks, committed, name) == multiset{}
  {
    if committed != [] { NoneLoaded(tasks, committed[..|committed| - 1], name); }
  }

  // ----- a run in which no statement fails

  /** The rows that the tasks on a table are to bring. */
  function Brought(tasks: seq<Task>, name: string): multiset<Row> {
    if tasks == [] then multiset{} else
      var n := |tasks| - 1;
      Brought(tasks[..n], name)
      + if tasks[n].cfg.target == name && !tasks[n].disabled then Added(tasks[n]) else multiset{}
  }

  /** The task defines a table, or loads a stream without an error that can be
      written to any table. */
  ghost predicate Clean(task: Task) {
    task.disabled || task.cfg.mode == DefinitionOnly
    || (!task.stream.failed && forall target :: Loads(task.cfg, task.stream, target))
  }

  lemma TurnCommits(db: Database, task: Task, clears: bool, t: Turn)
    requires Turned(db, task, clears, t) && Clean(task) && db.fails == iset{}
    ensures t.ok && (t.committed <==> !task.disabled && task.cfg.mode != DefinitionOnly)
  {
    hide TaskEffect, StepsToWrite, CanClear;
    if !task.disabled && task.cfg.mode == DefinitionOnly { DefinesOnly(task, t); }
    if !task.disabled && task.cfg.mode != DefinitionOnly {
      assert Loads(task.cfg, task.stream, Rows(t.load.tables, task.cfg.target));
    }
  }

  lemma DefinesOnly(task: Task, t: Turn)
    requires TaskEffect(task, t.committed, t.load.tables, t.end.tables) && task.cfg.mode == DefinitionOnly
    ensures !t.committed
  {
  }

  /** Then all tasks succeed, and only a truncate of a missing table can fail. */
  lemma NoneFails(
    db: Database, tasks: seq<Task>, isThreadChild: bool, interrupts: nat -> bool, start: Point, turns: seq<Turn>)
    requires RunTrace(db, tasks, isThreadChild, interrupts, start, turns) && db.fails == iset{}
    requires forall i | 0 <= i < |tasks| :: Clean(tasks[i])
    ensures AllFine(turns)
    ensures forall i | 0 <= i < |turns| ::
              turns[i].committed <==> !tasks[i].disabled && tasks[i].cfg.mode != DefinitionOnly
    ensures ClearFails(db, tasks, isThreadChild, interrupts, start, turns) ==>
              tasks[|turns|].cfg.mode == Truncate && tasks[|turns|].cfg.target !in Now(start, turns).tables
  {
    hide Turned, Clean, ClearsAt, Now;
    forall i | 0 <= i < |turns|
      ensures turns[i].ok && (turns[i].committed <==> !tasks[i].disabled && tasks[i].cfg.mode != DefinitionOnly)
    {
      TurnCommits(db, tasks[i], ClearsAt(tasks, isThreadChild, i), turns[i]);
    }
  }

  lemma {:induction false} AllBrought(tasks: seq<Task>, committed: seq<bool>, name: string)
    requires ChunksOnly(tasks, name) && |committed| <= |tasks|
    requires forall i | 0 <= i < |committed| ::
               committed[i] <==> !tasks[i].disabled && tasks[i].cfg.mode != DefinitionOnly
    ensures Loaded(tasks, committed, name) == Brought(tasks[..|committed|], name)
  {
    hide Added;
    if committed != [] {
      var n := |committed| - 1;
      AllBrought(tasks, committed[..n], name);
      assert tasks[..n + 1][..n] == tasks[..n];
    }
  }

  /** A table of chunks that is not cleared yet is as it was. */
  lemma {:induction false} UntouchedYet(
    db: Database, tasks: seq<Task>, isThreadChild: bool, interrupts: nat -> bool, start: Point, turns: seq<Turn>,
    name: string)
    requires RunTrace(db, tasks, isThreadChild, interrupts, start, turns) && ChunksOnly(tasks, name)
    requires name !in Started(tasks[..|turns|])
    ensures Rows(Now(start, turns).tables, name) == Rows(start.tables, name)
    decreases |turns|
  {
    if turns != [] {
      var n := |turns| - 1;
      var task, t := tasks[n], turns[n];
      StartedNext(tasks, n);
      TraceBefore(db, tasks, isThreadChild, interrupts, start, turns, n);
      UntouchedYet(db, tasks, isThreadChild, interrupts, start, turns[..n], name);
      assert Turned(db, task, ClearsAt(tasks, isThreadChild, n), t) && task.cfg.target != name;
      if !task.disabled { RowsOutside(task, t, name); }
    }
  }

  lemma RowsOutside(task: Task, t: Turn, name: string)
    requires TaskEffect(task, t.committed, t.load.tables, t.end.tables) && name !in {task.cfg.temp, task.cfg.target}
    ensures Rows(t.end.tables, name) == Rows(t.load.tables, name)
  {
    var names := {task.cfg.temp, task.cfg.target};
    assert Rows(t.end.tables - names, name) == Rows(t.end.tables, name);
    assert Rows(t.load.tables - names, name) == Rows(t.load.tables, name);
  }

  lemma TraceBefore(
    db: Database, tasks: seq<Task>, isThreadChild: bool, interrupts: nat -> bool, start: Point, turns: seq<Turn>,
    n: nat)
    requires RunTrace(db, tasks, isThreadChild, interrupts, start, turns) && n < |turns|
    ensures RunTrace(db, tasks, isThreadChild, interrupts, start, turns[..n])
    ensures turns[n].start == Now(start, turns[..n])
  {
    hide Turned, ClearsAt, Now;
    assert forall i | 0 <= i < n :: turns[..n][i] == turns[i] && turns[..n][..i] == turns[..i];
  }

  /** Without a failure or an interrupt the run succeeds, and each table of
      chunks holds exactly the rows its chunks brought. */
  method CleanRun(tables: Tables, tasks: seq<Task>) returns (db: Database, ok: bool)
    requires forall i | 0 <= i < |tasks| :: tasks[i].cfg.temp != tasks[i].cfg.target && Clean(tasks[i])
    requires forall i | 0 <= i < |tasks| && IsTruncateWithChunking(tasks[i].cfg) ::
               tasks[i].cfg.target in tables && ChunksOnly(tasks, tasks[i].cfg.target)
    ensures fresh(db) && ok
    ensures forall name | ChunksOnly(tasks, name) && name in Started(tasks) ::
              Contents(db.committed, name) == Brought(tasks, name)
  {
    hide RunTrace, Clean, ChunksOnly, Started, Contents, Brought, Now, CanClear, AllHold, AllFine;
    db := new Database(tables, iset{});
    ghost var start := PointOf(db);
    var never: nat -> bool := i => false;
    var success, _, _, turns := Run(db, tasks, false, never);
    ok := success;
    CleanEnd(db, tasks, never, start, turns);
    assert tasks[..|tasks|] == tasks;
  }

  lemma CleanEnd(db: Database, tasks: seq<Task>, interrupts: nat -> bool, start: Point, turns: seq<Turn>)
    requires RunTrace(db, tasks, false, interrupts, start, turns) && db.fails == iset{}
    requires forall i | 0 <= i < |tasks| :: Clean(tasks[i])
    requires forall i | 0 <= i < |tasks| && IsTruncateWithChunking(tasks[i].cfg) ::
               tasks[i].cfg.target in start.tables && ChunksOnly(tasks, tasks[i].cfg.target)
    ensures AllFine(turns) && !ClearFails(db, tasks, false, interrupts, start, turns)
    ensures |turns| == |tasks|
            && AllHold(tasks, Commits(turns), Started(tasks), start.tables, Now(start, turns).tables) ==>
              forall name | ChunksOnly(tasks, name) && name in Started(tasks) ::
                Contents(Now(start, turns).tables, name) == Brought(tasks, name)
  {
    hide RunTrace, Clean, ChunksOnly, Started, Contents, Brought, Now, CanClear, AllHold, AllFine, Loaded;
    NoneFails(db, tasks, false, interrupts, start, turns);
    if ClearFails(db, tasks, false, interrupts, start, turns) {
      var name := tasks[|turns|].cfg.target;
      UntouchedYet(db, tasks, false, interrupts, start, turns, name);
      assert false;
    }
    if |turns| == |tasks| && AllHold(tasks, Commits(turns), Started(tasks), start.tables, Now(start, turns).tables) {
      forall name | ChunksOnly(tasks, name) && name in Started(tasks)
        ensures Contents(Now(start, turns).tables, name) == Brought(tasks, name)
      {
        CompleteRun(tasks, Commits(turns), start.tables, Now(start, turns).tables, name);
        AllBrought(tasks, Commits(turns), name);
        assert tasks[..|turns|] == tasks;
      }
    }
  }
}
