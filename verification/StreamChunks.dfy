/** Splitting the streams of a replication into chunks: the new list, the names
    of the chunks, and when list and map still agree. */
module StreamChunks {
  import opened Text
  import opened Sequences
  import opened Names
  import opened TableNames

  /** What the rewriting needs of a stream's configuration. */
  datatype StreamConfig = StreamConfig(single: Option<bool>, body: string)

  const EMPTY := StreamConfig(None, "")

  /** The list with each chunked stream replaced, in place, by its chunks. */
  function Split(names: seq<string>, chunks: map<string, seq<string>>): seq<string> {
    if names == [] then [] else
      (if names[0] in chunks then chunks[names[0]] else [names[0]]) + Split(names[1..], chunks)
  }

  /** The names in some set, in order. */
  function Only(names: seq<string>, some: set<string>): seq<string> {
    if names == [] then [] else (if names[0] in some then [names[0]] else []) + Only(names[1..], some)
  }

  lemma {:induction false} OnlyConcat(a: seq<string>, b: seq<string>, some: set<string>)
    ensures Only(a + b, some) == Only(a, some) + Only(b, some)
  {
    if a == [] {
      assert a + b == b;
    } else {
      assert (a + b)[0] == a[0] && (a + b)[1..] == a[1..] + b;
      OnlyConcat(a[1..], b, some);
      Regroup(if a[0] in some then [a[0]] else [], Only(a[1..], some), Only(b, some));
    }
  }

  lemma {:induction false} OnlyNone(a: seq<string>, some: set<string>)
    requires SetOf(a) !! some
    ensures Only(a, some) == []
  {
    if a != [] {
      assert a[0] in SetOf(a);
      assert SetOf(a[1..]) <= SetOf(a);
      OnlyNone(a[1..], some);
    }
  }

  lemma Joined(a: seq<string>, b: seq<string>)
    ensures SetOf(a + b) == SetOf(a) + SetOf(b)
    ensures NoRepeats(a + b) <==> NoRepeats(a) && NoRepeats(b) && SetOf(a) !! SetOf(b)
  {
    var all := a + b;
    if NoRepeats(all) {
      forall i, j | 0 <= i < j < |a| ensures a[i] != a[j] { assert all[i] != all[j]; }
      forall i, j | 0 <= i < j < |b| ensures b[i] != b[j] { assert all[|a| + i] != all[|a| + j]; }
      forall x | x in SetOf(a) ensures x !in SetOf(b) {
        var i :| 0 <= i < |a| && a[i] == x;
        forall j | 0 <= j < |b| ensures b[j] != x { assert all[i] != all[|a| + j]; }
      }
    }
    if NoRepeats(a) && NoRepeats(b) && SetOf(a) !! SetOf(b) {
      forall i, j | 0 <= i < j < |all| ensures all[i] != all[j] {
        if i < |a| <= j { assert all[i] in SetOf(a) && all[j] in SetOf(b); }
      }
    }
  }

  /** Streams that are not chunked keep their order, when no chunk takes their
      name. */
  lemma {:induction false} SplitKeepsOrder(names: seq<string>, chunks: map<string, seq<string>>, kept: set<string>)
    requires forall n | n in names && n in chunks :: n !in kept && SetOf(chunks[n]) !! kept
    ensures Only(Split(names, chunks), kept) == Only(names, kept)
  {
    if names != [] {
      var head := if names[0] in chunks then chunks[names[0]] else [names[0]];
      OnlyConcat(head, Split(names[1..], chunks), kept);
      SplitKeepsOrder(names[1..], chunks, kept);
      if names[0] in chunks { OnlyNone(head, kept); }
    }
  }

  // ----- chunks

  datatype Chunk = Chunk(name: string, cfg: StreamConfig)

  /** A stream to be chunked: its own query, if it has one, and the settings of
      each chunk. */
  datatype ChunkPlan = ChunkPlan(sql: string, cfgs: seq<StreamConfig>)

  /** What the names of a stream's chunks start with: the full name of its
      table, or the stream's name when it is a query. */
  function PrefixOf(d: Dialect, name: string, sql: string): Option<string> {
    match Parsed(d, if sql != "" then sql else name)
    case None => None
    case Some(table) => Some(if table.sql != "" then name else FullName(d, table))
  }

  function Parts(prefix: string, cfgs: seq<StreamConfig>): seq<Chunk> {
    seq(|cfgs|, j requires 0 <= j < |cfgs| => Chunk(ChunkName(prefix, j + 1), cfgs[j]))
  }

  function ChunksOf(d: Dialect, plans: map<string, ChunkPlan>): map<string, seq<Chunk>> {
    map n | n in plans :: match PrefixOf(d, n, plans[n].sql) case None => [] case Some(p) => Parts(p, plans[n].cfgs)
  }

  /** Streams that are chunked have different prefixes, and a chunk takes the
      name of no stream of the list but one that was chunked, and so removed,
      before it is added. */
  ghost predicate ChunksApart(d: Dialect, names: seq<string>, plans: map<string, ChunkPlan>) {
    && (forall i, j | 0 <= i < j < |names| && Chunked(names[i], plans) && Chunked(names[j], plans) ::
          PrefixOf(d, names[i], plans[names[i]].sql) != PrefixOf(d, names[j], plans[names[j]].sql))
    && (forall i, part | 0 <= i < |names| && names[i] in plans && 1 <= part <= |plans[names[i]].cfgs| ::
          Spares(names, plans, i, PartName(d, names[i], plans, part)))
  }

  /** The stream has at least one chunk. */
  predicate Chunked(name: string, plans: map<string, ChunkPlan>) {
    name in plans && plans[name].cfgs != []
  }

  function PartName(d: Dialect, name: string, plans: map<string, ChunkPlan>, part: nat): string
    requires name in plans
  {
    match PrefixOf(d, name, plans[name].sql)
    case None => ""
    case Some(p) => ChunkName(p, part)
  }

  ghost predicate Spares(names: seq<string>, plans: map<string, ChunkPlan>, i: nat, chunk: string) {
    chunk in names ==> exists j | 0 <= j < i && j < |names| :: names[j] == chunk && chunk in plans
  }

  function NamesOfChunks(chunks: seq<Chunk>): seq<string> {
    seq(|chunks|, i requires 0 <= i < |chunks| => chunks[i].name)
  }

  function ChunkNames(chunks: map<string, seq<Chunk>>): map<string, seq<string>> {
    map n | n in chunks :: NamesOfChunks(chunks[n])
  }

  lemma ChunkNamesOf(chunks: map<string, seq<Chunk>>, name: string)
    ensures name in chunks <==> name in ChunkNames(chunks)
    ensures name in chunks ==> ChunkNames(chunks)[name] == NamesOfChunks(chunks[name])
  {
  }

  /** The keys of the map after the chunked streams of a list are replaced, one
      after the other. */
  function KeysAfter(names: seq<string>, chunks: map<string, seq<string>>, keys: set<string>): set<string> {
    if names == [] then keys
    else KeysAfter(names[1..], chunks, if names[0] in chunks then keys + SetOf(chunks[names[0]]) - {names[0]} else keys)
  }

  /** Some chunk has the name of a stream that is chunked at the same time or
      later, and so removed again. */
  ghost predicate Clobbers(names: seq<string>, chunks: map<string, seq<string>>) {
    names != [] && (
      (names[0] in chunks && exists c :: c in chunks[names[0]] && c in names && c in chunks)
      || Clobbers(names[1..], chunks))
  }

  /** The names of the chunks of the streams in a list. */
  ghost function AllChunks(names: seq<string>, chunks: map<string, seq<string>>): set<string> {
    if names == [] then {}
       else (if names[0] in chunks then SetOf(chunks[names[0]]) else {}) + AllChunks(names[1..], chunks)
  }

  ghost function ChunkedOf(names: seq<string>, chunks: map<string, seq<string>>): set<string> {
    set n | n in names && n in chunks
  }

  lemma {:induction false} SplitMembers(names: seq<string>, chunks: map<string, seq<string>>)
    ensures SetOf(Split(names, chunks)) == (SetOf(names) - ChunkedOf(names, chunks)) + AllChunks(names, chunks)
  {
    if names != [] {
      var head := if names[0] in chunks then chunks[names[0]] else [names[0]];
      SplitMembers(names[1..], chunks);
      Joined(head, Split(names[1..], chunks));
      HeadTail(names, chunks);
    }
  }

  lemma HeadTail(names: seq<string>, chunks: map<string, seq<string>>)
    requires names != []
    ensures SetOf(names) == {names[0]} + SetOf(names[1..])
    ensures ChunkedOf(names, chunks) == ChunkedOf(names[1..], chunks) + if names[0] in chunks then {names[0]} else {}
  {
    assert names == [names[0]] + names[1..];
  }

  lemma {:induction false} KeysKept(names: seq<string>, chunks: map<string, seq<string>>, keys: set<string>)
    requires !Clobbers(names, chunks)
    ensures KeysAfter(names, chunks, keys) == (keys - ChunkedOf(names, chunks)) + AllChunks(names, chunks)
  {
    if names != [] {
      HeadTail(names, chunks);
      var keys1 := if names[0] in chunks then keys + SetOf(chunks[names[0]]) - {names[0]} else keys;
      KeysKept(names[1..], chunks, keys1);
      if names[0] in chunks {
        assert SetOf(chunks[names[0]]) !! ChunkedOf(names, chunks);
      }
    }
  }

  /** A key that is gone and is no chunk to come does not come back. */
  lemma {:induction false} NotReadded(
    names: seq<string>, chunks: map<string, seq<string>>, keys: set<string>, c: string)
    requires c !in keys && c !in AllChunks(names, chunks)
    ensures c !in KeysAfter(names, chunks, keys)
  {
    if names != [] {
      NotReadded(names[1..], chunks,
                 if names[0] in chunks then keys + SetOf(chunks[names[0]]) - {names[0]} else keys, c);
    }
  }

  lemma {:induction false} ChunkedRemoved(
    names: seq<string>, chunks: map<string, seq<string>>, keys: set<string>, c: string)
    requires c in names && c in chunks && c !in AllChunks(names, chunks)
    ensures c !in KeysAfter(names, chunks, keys)
  {
    var keys1 := if names[0] in chunks then keys + SetOf(chunks[names[0]]) - {names[0]} else keys;
    if names[0] == c {
      NotReadded(names[1..], chunks, keys1, c);
    } else {
      ChunkedRemoved(names[1..], chunks, keys1, c);
    }
  }

  /** A clobbered chunk is listed but has no key. */
  lemma {:induction false} ClobberedLost(
    names: seq<string>, chunks: map<string, seq<string>>, keys: set<string>) returns (c: string)
    requires Clobbers(names, chunks) && NoRepeats(Split(names, chunks))
    ensures c in SetOf(Split(names, chunks)) && c !in KeysAfter(names, chunks, keys)
  {
    var head := if names[0] in chunks then chunks[names[0]] else [names[0]];
    var keys1 := if names[0] in chunks then keys + SetOf(chunks[names[0]]) - {names[0]} else keys;
    Joined(head, Split(names[1..], chunks));
    SplitMembers(names[1..], chunks);
    if names[0] in chunks && exists c :: c in chunks[names[0]] && c in names && c in chunks {
      c :| c in chunks[names[0]] && c in names && c in chunks;
      assert c in SetOf(head);
      if c == names[0] {
        NotReadded(names[1..], chunks, keys1, c);
      } else {
        ChunkedRemoved(names[1..], chunks, keys1, c);
      }
    } else {
      c := ClobberedLost(names[1..], chunks, keys1);
    }
  }

  lemma SplitAgrees(names: seq<string>, chunks: map<string, seq<string>>)
    ensures NoRepeats(Split(names, chunks)) && SetOf(Split(names, chunks)) == KeysAfter(names, chunks, SetOf(names))
       <==> NoRepeats(Split(names, chunks)) && !Clobbers(names, chunks)
  {
    SplitMembers(names, chunks);
    if !Clobbers(names, chunks) {
      KeysKept(names, chunks, SetOf(names));
    } else if NoRepeats(Split(names, chunks)) {
      var c := ClobberedLost(names, chunks, SetOf(names));
    }
  }

  /** Chunks of different streams have different names. */
  ghost predicate PartsApart(names: seq<string>, chunks: map<string, seq<string>>) {
    forall i, j | 0 <= i < j < |names| && names[i] in chunks && names[j] in chunks ::
      SetOf(chunks[names[i]]) !! SetOf(chunks[names[j]])
  }

  /** No chunk has the name of a stream that stays. */
  ghost predicate StayersSpared(names: seq<string>, chunks: map<string, seq<string>>) {
    forall i | 0 <= i < |names| && names[i] in chunks :: SetOf(chunks[names[i]]) !! SetOf(names) - chunks.Keys
  }

  lemma {:induction false} AllChunksHas(names: seq<string>, chunks: map<string, seq<string>>, c: string)
    ensures c in AllChunks(names, chunks)
            <==> exists i | 0 <= i < |names| && names[i] in chunks :: c in chunks[names[i]]
  {
    if names != [] {
      AllChunksHas(names[1..], chunks, c);
      assert names == [names[0]] + names[1..];
      if i :| 0 <= i < |names[1..]| && names[1..][i] in chunks && c in chunks[names[1..][i]] {
        assert names[i + 1] == names[1..][i];
      }
    }
  }

  lemma NothingShared(a: seq<string>, b: seq<string>)
    requires forall i, j | 0 <= i < |a| && 0 <= j < |b| :: a[i] != b[j]
    ensures SetOf(a) !! SetOf(b)
  {
  }

  lemma {:induction false} ApartFromAll(some: set<string>, names: seq<string>, chunks: map<string, seq<string>>)
    ensures some !! AllChunks(names, chunks)
            <==> forall i | 0 <= i < |names| && names[i] in chunks :: some !! SetOf(chunks[names[i]])
  {
    hide SetOf;
    if names != [] {
      var rest := names[1..];
      ApartFromAll(some, rest, chunks);
      forall i | 0 <= i < |rest| ensures rest[i] == names[i + 1] {
      }
      if forall i | 0 <= i < |rest| && rest[i] in chunks :: some !! SetOf(chunks[rest[i]]) {
        forall i | 1 <= i < |names| && names[i] in chunks ensures some !! SetOf(chunks[names[i]]) {
          assert rest[i - 1] == names[i];
        }
      }
      if forall i | 0 <= i < |names| && names[i] in chunks :: some !! SetOf(chunks[names[i]]) {
        forall i | 0 <= i < |rest| && rest[i] in chunks ensures some !! SetOf(chunks[rest[i]]) {
          assert names[i + 1] in chunks;
        }
      }
    }
  }

  lemma PartsApartTail(names: seq<string>, chunks: map<string, seq<string>>)
    requires names != []
    ensures PartsApart(names, chunks) <==>
            PartsApart(names[1..], chunks)
            && (names[0] in chunks ==> SetOf(chunks[names[0]]) !! AllChunks(names[1..], chunks))
  {
    var rest := names[1..];
    hide SetOf, AllChunks;
    forall i | 0 <= i < |rest| ensures rest[i] == names[i + 1] {
    }
    if names[0] in chunks { ApartFromAll(SetOf(chunks[names[0]]), rest, chunks); }
    if PartsApart(names, chunks) {
      forall i, j | 0 <= i < j < |rest| && rest[i] in chunks && rest[j] in chunks
        ensures SetOf(chunks[rest[i]]) !! SetOf(chunks[rest[j]])
      {
        assert names[i + 1] in chunks && names[j + 1] in chunks;
      }
      if names[0] in chunks {
        forall i | 0 <= i < |rest| && rest[i] in chunks ensures SetOf(chunks[names[0]]) !! SetOf(chunks[rest[i]]) {
          assert names[i + 1] in chunks;
        }
      }
    }
    if PartsApart(rest, chunks) && (names[0] in chunks ==> SetOf(chunks[names[0]]) !! AllChunks(rest, chunks)) {
      forall i, j | 0 <= i < j < |names| && names[i] in chunks && names[j] in chunks
        ensures SetOf(chunks[names[i]]) !! SetOf(chunks[names[j]])
      {
        assert rest[j - 1] in chunks;
        if i > 0 { assert rest[i - 1] in chunks; }
      }
    }
  }

  lemma InSetOf(s: seq<string>, c: string)
    ensures c in SetOf(s) <==> c in s
  {
  }

  /** The new list repeats no name exactly if the parts keep apart and spare
      the streams that stay. */
  lemma {:induction false} SplitRepeats(names: seq<string>, chunks: map<string, seq<string>>)
    requires NoRepeats(names) && forall n | n in names && n in chunks :: NoRepeats(chunks[n])
    ensures NoRepeats(Split(names, chunks)) <==> PartsApart(names, chunks) && StayersSpared(names, chunks)
  {
    if names != [] {
      var rest := names[1..];
      var head := if names[0] in chunks then chunks[names[0]] else [names[0]];
      assert names == [names[0]] + rest;
      FirstOnce(names);
      SplitRepeats(rest, chunks);
      Joined(head, Split(rest, chunks));
      SplitMembers(rest, chunks);
      PartsApartTail(names, chunks);
      SparedTail(names, chunks);
      hide SetOf, AllChunks, PartsApart, StayersSpared, Split;
      assert Split(names, chunks) == head + Split(rest, chunks) by { SplitHead(names, chunks); }
      SplitDisjoint(names, chunks, head);
    }
  }

  lemma SplitHead(names: seq<string>, chunks: map<string, seq<string>>)
    requires names != []
    ensures Split(names, chunks)
            == (if names[0] in chunks then chunks[names[0]] else [names[0]]) + Split(names[1..], chunks)
  {
  }

  lemma FirstOnce(names: seq<string>)
    requires names != [] && NoRepeats(names)
    ensures NoRepeats(names[1..]) && names[0] !in names[1..]
  {
    var rest := names[1..];
    forall i | 0 <= i < |rest| ensures rest[i] == names[i + 1] != names[0] {
    }
  }

  lemma SplitDisjoint(names: seq<string>, chunks: map<string, seq<string>>, head: seq<string>)
    requires names != [] && NoRepeats(names) && head == if names[0] in chunks then chunks[names[0]] else [names[0]]
    ensures var rest := names[1..];
            SetOf(head) !! (SetOf(rest) - ChunkedOf(rest, chunks)) + AllChunks(rest, chunks)
            <==> SetOf(head) !! AllChunks(rest, chunks)
                 && (names[0] in chunks ==> SetOf(head) !! SetOf(names) - chunks.Keys)
  {
    FirstOnce(names);
    HeadTail(names, chunks);
    var rest := names[1..];
    assert SetOf(rest) - ChunkedOf(rest, chunks) == SetOf(rest) - chunks.Keys;
    if names[0] !in chunks { assert SetOf(head) == {names[0]}; }
  }

  /** Sparing the streams that stay, head and tail. */
  lemma SparedTail(names: seq<string>, chunks: map<string, seq<string>>)
    requires names != [] && NoRepeats(names)
    ensures StayersSpared(names, chunks) <==>
            && StayersSpared(names[1..], chunks)
            && (names[0] in chunks ==> SetOf(chunks[names[0]]) !! SetOf(names) - chunks.Keys)
            && (names[0] !in chunks ==> names[0] !in AllChunks(names[1..], chunks))
  {
    var rest := names[1..];
    HeadTail(names, chunks);
    AllChunksHas(rest, chunks, names[0]);
    forall i | 0 <= i < |rest| ensures names[i + 1] == rest[i] {
    }
    hide SetOf, AllChunks;
    forall i | 0 <= i < |rest| && rest[i] in chunks
      ensures SetOf(chunks[rest[i]]) !! SetOf(names) - chunks.Keys
         <==> SetOf(chunks[rest[i]]) !! SetOf(rest) - chunks.Keys
              && (names[0] !in chunks ==> names[0] !in chunks[rest[i]])
    {
      InSetOf(chunks[rest[i]], names[0]);
    }
    if StayersSpared(names, chunks) {
      forall i | 0 <= i < |rest| && rest[i] in chunks
        ensures SetOf(chunks[rest[i]]) !! SetOf(names) - chunks.Keys
      {
        assert names[i + 1] in chunks;
      }
    }
    if StayersSpared(rest, chunks) && (names[0] in chunks ==> SetOf(chunks[names[0]]) !! SetOf(names) - chunks.Keys)
       && (names[0] !in chunks ==> names[0] !in AllChunks(rest, chunks)) {
      forall i | 0 <= i < |names| && names[i] in chunks ensures SetOf(chunks[names[i]]) !! SetOf(names) - chunks.Keys {
        if i > 0 { assert rest[i - 1] == names[i]; }
      }
    }
  }

  /** A chunk is lost exactly if it has the name of a stream chunked no earlier. */
  lemma {:induction false} ClobbersAt(names: seq<string>, chunks: map<string, seq<string>>)
    ensures Clobbers(names, chunks) <==>
            exists i, c ::
              0 <= i < |names| && names[i] in chunks && c in chunks[names[i]] && c in names[i..] && c in chunks
  {
    if names != [] {
      var rest := names[1..];
      ClobbersAt(rest, chunks);
      forall i | 0 <= i < |rest| ensures rest[i..] == names[i + 1..] && rest[i] == names[i + 1] {
      }
      assert names[0..] == names;
      if i, c :| 0 <= i < |rest| && rest[i] in chunks && c in chunks[rest[i]] && c in rest[i..] && c in chunks {
        assert names[i + 1] in chunks && c in names[i + 1..];
      }
      if i, c :| 0 <= i < |names| && names[i] in chunks && c in chunks[names[i]] && c in names[i..] && c in chunks {
        if i > 0 { assert rest[i - 1] in chunks && c in rest[i - 1..]; }
      }
    }
  }

  // ----- the condition on the input

  lemma PartNames(d: Dialect, plans: map<string, ChunkPlan>, n: string)
    requires n in plans
    ensures n in ChunkNames(ChunksOf(d, plans))
    ensures var c := ChunkNames(ChunksOf(d, plans))[n];
            && (PrefixOf(d, n, plans[n].sql).Some? ==> |c| == |plans[n].cfgs|)
            && (PrefixOf(d, n, plans[n].sql).None? ==> c == [])
            && (forall k | 0 <= k < |c| :: c[k] == PartName(d, n, plans, k + 1))
            && (PrefixOf(d, n, plans[n].sql).Some? ==>
                  forall k | 0 <= k < |c| :: c[k] == ChunkName(PrefixOf(d, n, plans[n].sql).value, k + 1))
  {
    hide PrefixOf, ChunkName;
  }

  lemma PartsDiffer(d: Dialect, plans: map<string, ChunkPlan>, n: string)
    requires n in plans
    ensures n in ChunkNames(ChunksOf(d, plans)) && NoRepeats(ChunkNames(ChunksOf(d, plans))[n])
  {
    PartNames(d, plans, n);
    hide PrefixOf, ChunkName, ChunkNames, ChunksOf;
    var c := ChunkNames(ChunksOf(d, plans))[n];
    forall i, j | 0 <= i < j < |c| ensures c[i] != c[j] {
      var p := PrefixOf(d, n, plans[n].sql).value;
      if ChunkName(p, i + 1) == ChunkName(p, j + 1) { ChunkNamesDiffer(p, i + 1, p, j + 1); }
    }
  }

  /** Two streams share a chunk's name exactly if they share the prefix. */
  lemma ShareName(d: Dialect, plans: map<string, ChunkPlan>, m: string, n: string)
    requires m in plans && n in plans
    requires PrefixOf(d, m, plans[m].sql).Some? && PrefixOf(d, n, plans[n].sql).Some?
    ensures m in ChunkNames(ChunksOf(d, plans)) && n in ChunkNames(ChunksOf(d, plans))
    ensures var chunks := ChunkNames(ChunksOf(d, plans));
            SetOf(chunks[m]) !! SetOf(chunks[n])
            <==> !(Chunked(m, plans) && Chunked(n, plans)
                   && PrefixOf(d, m, plans[m].sql) == PrefixOf(d, n, plans[n].sql))
  {
    PartNames(d, plans, m);
    PartNames(d, plans, n);
    hide PrefixOf, ChunkName, ChunkNames, ChunksOf, SetOf;
    var x, y := ChunkNames(ChunksOf(d, plans))[m], ChunkNames(ChunksOf(d, plans))[n];
    SharedParts(PrefixOf(d, m, plans[m].sql).value, x, PrefixOf(d, n, plans[n].sql).value, y);
  }

  lemma SharedParts(p: string, x: seq<string>, q: string, y: seq<string>)
    requires forall i | 0 <= i < |x| :: x[i] == ChunkName(p, i + 1)
    requires forall j | 0 <= j < |y| :: y[j] == ChunkName(q, j + 1)
    ensures SetOf(x) !! SetOf(y) <==> !(x != [] && y != [] && p == q)
  {
    hide ChunkName, SetOf;
    if x != [] && y != [] && p == q {
      assert x[0] == ChunkName(p, 0 + 1) == y[0];
      InSetOf(x, x[0]);
      InSetOf(y, x[0]);
    } else {
      forall i, j | 0 <= i < |x| && 0 <= j < |y| ensures x[i] != y[j] {
        if ChunkName(p, i + 1) == ChunkName(q, j + 1) { ChunkNamesDiffer(p, i + 1, q, j + 1); }
      }
      NothingShared(x, y);
    }
  }

  ghost predicate AllParsed(d: Dialect, names: seq<string>, plans: map<string, ChunkPlan>) {
    forall n | n in names && n in plans :: PrefixOf(d, n, plans[n].sql).Some?
  }

  lemma PrefixesApart(d: Dialect, names: seq<string>, plans: map<string, ChunkPlan>)
    requires AllParsed(d, names, plans)
    ensures PartsApart(names, ChunkNames(ChunksOf(d, plans))) <==>
            forall i, j | 0 <= i < j < |names| && Chunked(names[i], plans) && Chunked(names[j], plans) ::
              PrefixOf(d, names[i], plans[names[i]].sql) != PrefixOf(d, names[j], plans[names[j]].sql)
  {
    var chunks := ChunkNames(ChunksOf(d, plans));
    assert chunks.Keys == plans.Keys;
    hide PrefixOf, ChunkNames, ChunksOf, SetOf;
    forall i, j | 0 <= i < j < |names| && names[i] in plans && names[j] in plans
      ensures SetOf(chunks[names[i]]) !! SetOf(chunks[names[j]])
         <==> !(Chunked(names[i], plans) && Chunked(names[j], plans)
                && PrefixOf(d, names[i], plans[names[i]].sql) == PrefixOf(d, names[j], plans[names[j]].sql))
    {
      ShareName(d, plans, names[i], names[j]);
    }
  }

  /** A chunk's name that is in the list is that of a stream chunked earlier. */
  ghost predicate Spared(names: seq<string>, chunks: map<string, seq<string>>) {
    forall i, c | 0 <= i < |names| && names[i] in chunks && c in chunks[names[i]] ::
      c in names ==> c in chunks && c !in names[i..]
  }

  lemma SparedIs(names: seq<string>, chunks: map<string, seq<string>>)
    ensures StayersSpared(names, chunks) && !Clobbers(names, chunks) <==> Spared(names, chunks)
  {
    ClobbersAt(names, chunks);
    hide Clobbers;
    if StayersSpared(names, chunks) && !Clobbers(names, chunks) {
      forall i, c | 0 <= i < |names| && names[i] in chunks && c in chunks[names[i]]
        ensures c in names ==> c in chunks && c !in names[i..]
      {
        InSetOf(chunks[names[i]], c);
        InSetOf(names, c);
      }
    }
    if Spared(names, chunks) {
      forall i | 0 <= i < |names| && names[i] in chunks ensures SetOf(chunks[names[i]]) !! SetOf(names) - chunks.Keys {
        StayersApart(names, chunks, i);
      }
      forall i, c | 0 <= i < |names| && names[i] in chunks && c in chunks[names[i]] && c in chunks
        ensures c !in names[i..]
      {
        if c !in names { NotInTail(names, i, c); }
      }
    }
  }

  lemma StayersApart(names: seq<string>, chunks: map<string, seq<string>>, i: nat)
    requires i < |names| && names[i] in chunks && Spared(names, chunks)
    ensures SetOf(chunks[names[i]]) !! SetOf(names) - chunks.Keys
  {
  }

  lemma NotInTail(names: seq<string>, i: nat, c: string)
    requires i <= |names| && c !in names
    ensures c !in names[i..]
  {
  }

  lemma SparesIs(names: seq<string>, plans: map<string, ChunkPlan>, i: nat, c: string)
    requires NoRepeats(names) && i < |names|
    ensures Spares(names, plans, i, c) <==> (c in names ==> c in plans && c !in names[i..])
  {
    if c in names {
      var j :| 0 <= j < |names| && names[j] == c;
      if j < i {
        assert c !in names[i..];
      } else {
        assert names[i..][j - i] == c;
      }
    }
  }

  /** No chunk takes the name of a stream that stays, or is chunked no earlier. */
  lemma ChunksSpare(d: Dialect, names: seq<string>, plans: map<string, ChunkPlan>)
    requires NoRepeats(names) && AllParsed(d, names, plans)
    ensures Spared(names, ChunkNames(ChunksOf(d, plans)))
       <==> forall i, part | 0 <= i < |names| && names[i] in plans && 1 <= part <= |plans[names[i]].cfgs| ::
              Spares(names, plans, i, PartName(d, names[i], plans, part))
  {
    hide ChunkNames, ChunksOf, PartName, Spares, Spared;
    if Spared(names, ChunkNames(ChunksOf(d, plans))) {
      forall i, part | 0 <= i < |names| && names[i] in plans && 1 <= part <= |plans[names[i]].cfgs|
        ensures Spares(names, plans, i, PartName(d, names[i], plans, part))
      {
        PartSpared(d, names, plans, i, part);
      }
    }
    if forall i, part | 0 <= i < |names| && names[i] in plans && 1 <= part <= |plans[names[i]].cfgs| ::
         Spares(names, plans, i, PartName(d, names[i], plans, part)) {
      PartsSpared(d, names, plans);
    }
  }

  lemma PartSpared(d: Dialect, names: seq<string>, plans: map<string, ChunkPlan>, i: nat, part: nat)
    requires NoRepeats(names) && AllParsed(d, names, plans) && Spared(names, ChunkNames(ChunksOf(d, plans)))
    requires i < |names| && names[i] in plans && 1 <= part <= |plans[names[i]].cfgs|
    ensures Spares(names, plans, i, PartName(d, names[i], plans, part))
  {
    var chunks := ChunkNames(ChunksOf(d, plans));
    assert chunks.Keys == plans.Keys;
    hide PrefixOf, ChunkNames, ChunksOf, PartName, Spares, ChunkName, NoRepeats;
    PartNames(d, plans, names[i]);
    assert chunks[names[i]][part - 1] in chunks[names[i]];
    SparesIs(names, plans, i, PartName(d, names[i], plans, part));
  }

  lemma PartsSpared(d: Dialect, names: seq<string>, plans: map<string, ChunkPlan>)
    requires NoRepeats(names) && AllParsed(d, names, plans)
    requires forall i, part | 0 <= i < |names| && names[i] in plans && 1 <= part <= |plans[names[i]].cfgs| ::
               Spares(names, plans, i, PartName(d, names[i], plans, part))
    ensures Spared(names, ChunkNames(ChunksOf(d, plans)))
  {
    var chunks := ChunkNames(ChunksOf(d, plans));
    assert chunks.Keys == plans.Keys;
    hide PrefixOf, ChunkNames, ChunksOf, PartName, Spares, ChunkName, NoRepeats;
    forall i, c | 0 <= i < |names| && names[i] in chunks && c in chunks[names[i]]
      ensures c in names ==> c in chunks && c !in names[i..]
    {
      PartNames(d, plans, names[i]);
      var k :| 0 <= k < |chunks[names[i]]| && chunks[names[i]][k] == c;
      assert Spares(names, plans, i, PartName(d, names[i], plans, k + 1));
      SparesIs(names, plans, i, c);
    }
  }

  /** List and map agree exactly under the condition on the input. */
  lemma AgreesIff(d: Dialect, names: seq<string>, plans: map<string, ChunkPlan>)
    requires NoRepeats(names) && AllParsed(d, names, plans)
    ensures var chunks := ChunkNames(ChunksOf(d, plans));
            NoRepeats(Split(names, chunks)) && SetOf(Split(names, chunks)) == KeysAfter(names, chunks, SetOf(names))
            <==> ChunksApart(d, names, plans)
  {
    var chunks := ChunkNames(ChunksOf(d, plans));
    forall n | n in names && n in chunks ensures NoRepeats(chunks[n]) { PartsDiffer(d, plans, n); }
    hide PrefixOf, ChunkNames, ChunksOf, SetOf, Clobbers, PartName, Split, KeysAfter, PartsApart, StayersSpared,
         Spared, Spares;
    SplitAgrees(names, chunks);
    SplitRepeats(names, chunks);
    SparedIs(names, chunks);
    PrefixesApart(d, names, plans);
    ChunksSpare(d, names, plans);
  }

  /** Chunks of streams that are not in the list make no difference. */
  lemma MadeChunks(d: Dialect, names: seq<string>, plans: map<string, ChunkPlan>, chunks: map<string, seq<Chunk>>)
    requires forall n :: n in chunks <==> n in names && n in plans
    requires forall n | n in chunks :: chunks[n] == ChunksOf(d, plans)[n]
    ensures Split(names, ChunkNames(chunks)) == Split(names, ChunkNames(ChunksOf(d, plans)))
    ensures forall keys ::
              KeysAfter(names, ChunkNames(chunks), keys) == KeysAfter(names, ChunkNames(ChunksOf(d, plans)), keys)
  {
    var x, y := ChunkNames(chunks), ChunkNames(ChunksOf(d, plans));
    assert forall n | n in names :: (n in x <==> n in y) && (n in x ==> x[n] == y[n]);
    hide ChunkNames, ChunksOf;
    SameSplit(names, x, y);
    forall keys ensures KeysAfter(names, x, keys) == KeysAfter(names, y, keys) { SameKeysAfter(names, x, y, keys); }
  }

  lemma {:induction false} SameSplit(names: seq<string>, x: map<string, seq<string>>, y: map<string, seq<string>>)
    requires forall n | n in names :: (n in x <==> n in y) && (n in x ==> x[n] == y[n])
    ensures Split(names, x) == Split(names, y)
  {
    if names != [] { SameSplit(names[1..], x, y); }
  }

  lemma {:induction false} SameKeysAfter(
    names: seq<string>, x: map<string, seq<string>>, y: map<string, seq<string>>, keys: set<string>)
    requires forall n | n in names :: (n in x <==> n in y) && (n in x ==> x[n] == y[n])
    ensures KeysAfter(names, x, keys) == KeysAfter(names, y, keys)
  {
    if names != [] {
      SameKeysAfter(names[1..], x, y, if names[0] in x then keys + SetOf(x[names[0]]) - {names[0]} else keys);
    }
  }

  // ----- the names of chunks

  function Digits(n: nat): (s: string)
    ensures s != "" && forall i | 0 <= i < |s| :: '0' <= s[i] <= '9'
  {
    var last := [('0' as int + n % 10) as char];
    if n < 10 then last else Digits(n / 10) + last
  }

  /** At least three digits. */
  function Padded(n: nat): (s: string)
    ensures forall i | 0 <= i < |s| :: '0' <= s[i] <= '9'
  {
    if n < 10 then "00" + Digits(n) else if n < 100 then "0" + Digits(n) else Digits(n)
  }

  function ChunkName(prefix: string, part: nat): string {
    PartOf(prefix, Padded(part))
  }

  lemma {:induction false} DigitsDiffer(m: nat, n: nat)
    requires Digits(m) == Digits(n)
    ensures m == n
  {
    var a, b := Digits(m), Digits(n);
    assert a[|a| - 1] == ('0' as int + m % 10) as char && b[|b| - 1] == ('0' as int + n % 10) as char;
    assert m % 10 == n % 10;
    if m >= 10 && n >= 10 {
      assert a[..|a| - 1] == Digits(m / 10) && b[..|b| - 1] == Digits(n / 10);
      DigitsDiffer(m / 10, n / 10);
    }
  }

  lemma {:induction false} DigitsLong(n: nat)
    ensures n < 10 ==> |Digits(n)| == 1
    ensures 10 <= n < 100 ==> |Digits(n)| == 2
    ensures n >= 100 ==> |Digits(n)| >= 3
  {
    if n >= 10 { DigitsLong(n / 10); }
  }

  /** Padding keeps numbers apart: the padded ones start with a zero. */
  lemma PaddedDiffer(m: nat, n: nat)
    requires Padded(m) == Padded(n)
    ensures m == n
  {
    DigitsLong(m);
    DigitsLong(n);
    LeadingDigit(m);
    LeadingDigit(n);
    var p, q := Padded(m), Padded(n);
    if m < 10 && n < 10 {
      assert p[2..] == Digits(m) && q[2..] == Digits(n);
      DigitsDiffer(m, n);
    } else if 10 <= m < 100 && 10 <= n < 100 {
      assert p[1..] == Digits(m) && q[1..] == Digits(n);
      DigitsDiffer(m, n);
    } else if m >= 100 && n >= 100 {
      DigitsDiffer(m, n);
    } else {
      PaddedStart(m);
      PaddedStart(n);
    }
  }

  lemma {:induction false} LeadingDigit(n: nat)
    ensures n > 0 ==> Digits(n)[0] != '0'
  {
    if n >= 10 { LeadingDigit(n / 10); }
  }

  lemma PaddedStart(n: nat)
    ensures |Padded(n)| >= 3
    ensures n < 10 <==> Padded(n)[0] == '0' && Padded(n)[1] == '0'
    ensures n < 100 <==> Padded(n)[0] == '0'
  {
    DigitsLong(n);
    LeadingDigit(n);
  }

  function PartOf(prefix: string, digits: string): string {
    prefix + " (part-" + digits + ")"
  }

  lemma DashBefore(prefix: string, digits: string)
    ensures PartOf(prefix, digits)[|PartOf(prefix, digits)| - 2 - |digits|] == '-'
  {
  }

  lemma DigitAt(prefix: string, digits: string, k: nat)
    requires k < |digits|
    ensures PartOf(prefix, digits)[|PartOf(prefix, digits)| - 2 - k] == digits[|digits| - 1 - k]
  {
  }

  lemma NotLonger(p: string, a: string, q: string, b: string)
    requires PartOf(p, a) == PartOf(q, b)
    requires forall i | 0 <= i < |b| :: '0' <= b[i] <= '9'
    ensures |b| <= |a|
  {
    hide PartOf;
    if |a| < |b| {
      DigitAt(q, b, |a|);
      DashBefore(p, a);
    }
  }

  /** The chunks of a stream have different names, and no two streams with
      different prefixes share one. */
  lemma ChunkNamesDiffer(p: string, i: nat, q: string, j: nat)
    requires ChunkName(p, i) == ChunkName(q, j)
    ensures p == q && i == j
  {
    var a, b := Padded(i), Padded(j);
    var s, t := ChunkName(p, i), ChunkName(q, j);
    NotLonger(p, a, q, b);
    NotLonger(q, b, p, a);
    assert s[|s| - 1 - |a|..|s| - 1] == a && t[|t| - 1 - |b|..|t| - 1] == b;
    PaddedDiffer(i, j);
    assert s[..|p|] == p && t[..|q|] == q;
  }

  /** One table listed under two spellings, both chunked: list and map no longer
      agree, in every dialect that quotes names. */
  lemma SameTableTwice(d: Dialect, q: char, s: string, t: string, plans: map<string, ChunkPlan>)
    requires d.quote == Some(q) && q != '.' && PlainWord(d, s) && PlainWord(d, t)
    requires PlainWord(d, Cased(d, s, false)) && PlainWord(d, Cased(d, t, false))
    requires var quoted := [q] + Cased(d, s, false) + [q] + "." + [q] + Cased(d, t, false) + [q];
             Chunked(s + "." + t, plans) && Chunked(quoted, plans) && plans[s + "." + t].sql == plans[quoted].sql == ""
    ensures var quoted := [q] + Cased(d, s, false) + [q] + "." + [q] + Cased(d, t, false) + [q];
            && NoRepeats([s + "." + t, quoted])
            && PrefixOf(d, s + "." + t, "") == PrefixOf(d, quoted, "") == Some(quoted)
            && !ChunksApart(d, [s + "." + t, quoted], plans)
  {
    var quoted := [q] + Cased(d, s, false) + [q] + "." + [q] + Cased(d, t, false) + [q];
    TwoSpellings(d, q, s, t);
    var names := [s + "." + t, quoted];
    hide Parsed, FullName, Cased, PlainWord;
    assert names[0] == s + "." + t && names[1] == quoted;
    assert Chunked(names[0], plans) && Chunked(names[1], plans);
    assert PrefixOf(d, names[0], plans[names[0]].sql) == PrefixOf(d, names[1], plans[names[1]].sql);
  }
}
