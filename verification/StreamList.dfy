/** The streams of a replication, kept as a map and as an ordered list of its
    keys, while wildcards are expanded and chunked streams are split. */
module StreamList {
  import opened Text
  import opened Sequences
  import opened Names
  import opened TableNames
  import opened StreamChunks

  type Streams = map<string, Option<StreamConfig>>

  /** A table or file a wildcard matches. */
  datatype Match = Table(key: string, fullName: string) | File(path: string, uri: string)

  /** The stream name a match gets. */
  function NameOf(m: Match): string {
    if m.Table? then m.fullName else m.path
  }

  function OtherName(m: Match): string {
    if m.Table? then m.key else m.uri
  }

  /** Some stream has this name, as far as names are told apart. */
  predicate Has(normalize: string -> string, keys: set<string>, name: string) {
    exists k :: k in keys && normalize(k) == normalize(name)
  }

  predicate Taken(normalize: string -> string, keys: set<string>, m: Match) {
    Has(normalize, keys, NameOf(m)) || Has(normalize, keys, OtherName(m))
  }

  lemma NotTakenIsNew(normalize: string -> string, keys: set<string>, m: Match)
    requires !Taken(normalize, keys, m)
    ensures NameOf(m) !in keys
  {
  }

  /** The names of the matches that no stream, nor an earlier match, has. */
  function Fresh(normalize: string -> string, matches: seq<Match>, keys: set<string>): seq<string> {
    if matches == [] then []
    else if Taken(normalize, keys, matches[0]) then Fresh(normalize, matches[1..], keys)
    else [NameOf(matches[0])] + Fresh(normalize, matches[1..], keys + {NameOf(matches[0])})
  }

  /** The list with each pattern replaced, in place, by its fresh matches. */
  function Expand(
    normalize: string -> string, names: seq<string>, wildcards: map<string, seq<Match>>, keys: set<string>): seq<string>
  {
    if names == [] then [] else
      if names[0] !in wildcards then [names[0]] + Expand(normalize, names[1..], wildcards, keys) else
        var found := Fresh(normalize, wildcards[names[0]], keys);
        found + Expand(normalize, names[1..], wildcards, keys + SetOf(found) - {names[0]})
  }

  lemma {:induction false} FreshAreNew(normalize: string -> string, matches: seq<Match>, keys: set<string>)
    ensures SetOf(Fresh(normalize, matches, keys)) !! keys
    ensures NoRepeats(Fresh(normalize, matches, keys))
  {
    if matches != [] {
      if Taken(normalize, keys, matches[0]) {
        FreshAreNew(normalize, matches[1..], keys);
      } else {
        var name := NameOf(matches[0]);
        NotTakenIsNew(normalize, keys, matches[0]);
        FreshAreNew(normalize, matches[1..], keys + {name});
        var rest := Fresh(normalize, matches[1..], keys + {name});
        forall i | 0 <= i < |rest| ensures rest[i] != name && rest[i] !in keys { assert rest[i] in SetOf(rest); }
      }
    }
  }

  /** Streams that are no patterns keep their order. */
  lemma {:induction false} ExpandKeepsOrder(
    normalize: string -> string, names: seq<string>, wildcards: map<string, seq<Match>>, keys: set<string>,
    kept: set<string>)
    requires kept <= keys && kept !! wildcards.Keys && forall n | n in names :: n in wildcards || n in kept
    ensures Only(Expand(normalize, names, wildcards, keys), kept) == Only(names, kept)
  {
    hide Fresh;
    if names != [] {
      if names[0] in wildcards {
        var found := Fresh(normalize, wildcards[names[0]], keys);
        var keys' := keys + SetOf(found) - {names[0]};
        FreshAreNew(normalize, wildcards[names[0]], keys);
        OnlyNone(found, kept);
        OnlyConcat(found, Expand(normalize, names[1..], wildcards, keys'), kept);
        ExpandKeepsOrder(normalize, names[1..], wildcards, keys', kept);
      } else {
        OnlyConcat([names[0]], Expand(normalize, names[1..], wildcards, keys), kept);
        ExpandKeepsOrder(normalize, names[1..], wildcards, keys, kept);
      }
    }
  }

  function Copy(cfg: Option<StreamConfig>): Option<StreamConfig> {
    Some(if cfg.Some? then cfg.value else EMPTY)
  }

  function Filter(names: seq<string>, key: string): seq<string> {
    if names == [] then [] else (if names[0] == key then [] else [names[0]]) + Filter(names[1..], key)
  }

  /** A stream that stems from a match of a pattern, with the pattern's
      configuration. */
  ghost predicate FromPattern(
    name: string, cfg: Option<StreamConfig>, wildcards: map<string, seq<Match>>, before: Streams)
  {
    exists p, i ::
      p in wildcards && p in before && 0 <= i < |wildcards[p]| && NameOf(wildcards[p][i]) == name
        && cfg == Copy(before[p])
  }

  class Replication {
    const normalize: string -> string
    var streams: Streams
    var streamsOrdered: seq<string>

    /** The list has the keys of the map, each once. */
    ghost predicate Agrees() reads this {
      NoRepeats(streamsOrdered) && SetOf(streamsOrdered) == streams.Keys
    }

    constructor (normalize: string -> string, streams: Streams, streamsOrdered: seq<string>)
      ensures this.normalize == normalize && this.streams == streams && this.streamsOrdered == streamsOrdered
    {
      this.normalize, this.streams, this.streamsOrdered := normalize, streams, streamsOrdered;
    }

    lemma AgreesMeans()
      ensures Agrees() <==> NoRepeats(streamsOrdered) && SetOf(streamsOrdered) == streams.Keys
    {
    }

    method AddStream(key: string, cfg: Option<StreamConfig>)
      modifies this
      ensures streams == old(streams)[key := Copy(cfg)] && streamsOrdered == old(streamsOrdered) + [key]
    {
      streams := streams[key := Some(if cfg.Some? then cfg.value else EMPTY)];
      streamsOrdered := streamsOrdered + [key];
    }

    method DeleteStream(key: string)
      modifies this
      ensures streams == old(streams) - {key} && streamsOrdered == Filter(old(streamsOrdered), key)
    {
      streams := streams - {key};
      streamsOrdered := Filter(streamsOrdered, key);
    }

    /** Adds the matches of one pattern that are not streams yet. */
    method AddMatches(pattern: string, matches: seq<Match>) returns (added: seq<string>)
      requires pattern in streams
      modifies this
      ensures added == Fresh(normalize, matches, old(streams).Keys)
      ensures MatchesAdded(old(streams), streams, pattern, matches, added)
    {
      added := [];
      hide Taken;
      for j := 0 to |matches|
        invariant MatchesAdded(old(streams), streams, pattern, matches, added)
        invariant added + Fresh(normalize, matches[j..], streams.Keys) == Fresh(normalize, matches, old(streams).Keys)
      {
        var m := matches[j];
        assert matches[j..][1..] == matches[j + 1..];
        if !Taken(normalize, streams.Keys, m) {
          NotTakenIsNew(normalize, streams.Keys, m);
          ghost var keys := streams.Keys;
          AddStream(NameOf(m), streams[pattern]);
          assert streams.Keys == keys + {NameOf(m)};
          SetOfSnoc(added, NameOf(m));
          Regroup(added, [NameOf(m)], Fresh(normalize, matches[j + 1..], streams.Keys));
          added := added + [NameOf(m)];
        }
      }
      assert added + [] == added;
    }

    /** Replaces each pattern by its matches, in place. */
    method ExpandWildcards(wildcards: map<string, seq<Match>>)
      requires Agrees()
      modifies this
      ensures Agrees()
      ensures streamsOrdered == Expand(normalize, old(streamsOrdered), wildcards, old(streams).Keys)
      ensures forall k | k in old(streams) && k !in wildcards :: k in streams && streams[k] == old(streams)[k]
      ensures forall k | k in streams && k !in old(streams) :: FromPattern(k, streams[k], wildcards, old(streams))
    {
      hide *;
      var names := streamsOrdered;
      var newNames: seq<string> := [];
      ghost var first := streams;
      assert names[0..] == names;
      AgreesMeans();
      StartList(names, first.Keys);
      StartConfigs(first, wildcards, names);
      for i := 0 to |names|
        invariant ListState(newNames, names[i..], streams.Keys) && NoRepeats(names)
        invariant newNames + Expand(normalize, names[i..], wildcards, streams.Keys)
                  == Expand(normalize, names, wildcards, first.Keys)
        invariant ConfigsKept(first, streams, wildcards, names[i..])
        invariant SetOf(names) == first.Keys
      {
        var name := names[i];
        TailNoRepeats(names, i);
        ghost var rest := names[i + 1..];
        assert names[i..] == [name] + rest;
        ghost var before := streams;
        ExpandNext(normalize, name, rest, wildcards, before.Keys);
        if name in wildcards {
          FirstHas(name, names, first);
          FreshAreNew(normalize, wildcards[name], before.Keys);
          StillThere(newNames, name, rest, before);
          var added := AddMatches(name, wildcards[name]);
          ConfigsAfter(name, rest, added, before, streams, wildcards, first);
          PatternExpanded(newNames, name, rest, before.Keys, added);
          DeleteStream(name);
          Regroup(newNames, added, Expand(normalize, rest, wildcards, streams.Keys));
          newNames := newNames + added;
        } else {
          NameKept(newNames, name, rest, before.Keys);
          ConfigsSame(name, rest, before, wildcards, first);
          Regroup(newNames, [name], Expand(normalize, rest, wildcards, before.Keys));
          newNames := newNames + [name];
        }
      }
      ExpandNone(normalize, wildcards, streams.Keys);
      assert names[|names|..] == [] && newNames + [] == newNames;
      streamsOrdered := newNames;
      AllListed(newNames, streams.Keys);
      AgreesMeans();
      ConfigsDone(first, streams, wildcards);
    }

    /** Tells the patterns, and marks the wildcards that are read as one stream. */
    method FindPatterns(host: Host) returns (err: bool, patterns: seq<string>)
      requires Agrees()
      modifies this`streams
      ensures streams.Keys == old(streams).Keys
      ensures err <==> "*" in old(streams) && !Single(host, old(streams)["*"])
      ensures forall k | k in streams ::
                streams[k] == old(streams)[k]
                  || (AutoSingle(host, k, old(streams)[k]) && streams[k] == MarkedSingle(host, k, old(streams)[k]))
      ensures !err ==>
                forall k | k in streams && AutoSingle(host, k, old(streams)[k]) ::
                  streams[k] == MarkedSingle(host, k, old(streams)[k])
      ensures !err ==> forall p :: p in patterns <==> p in streams && IsPattern(host, p, old(streams)[p])
    {
      patterns := [];
      ghost var first, names := streams, streamsOrdered;
      forall k ensures k in names <==> k in first { assert k in names <==> k in SetOf(names); }
      StarIs(host, first, names);
      assert names[..0] == [];
      hide Single, HasWildcard, SetOf, IsPattern, AutoSingle;
      for i := 0 to |streamsOrdered|
        invariant Scanned(host, first, streams, names[..i], patterns)
        invariant NoRepeats(names) && forall j | 0 <= j < i && names[j] == "*" :: Single(host, first["*"])
      {
        var name := streamsOrdered[i];
        ScanStep(names, i);
        hide NoRepeats;
        var cfg := streams[name];
        assert cfg == first[name];
        ghost var now, found := streams, patterns;
        hide Scanned;
        PatternCases(host, name, cfg);
        if !Single(host, cfg) {
          if name == "*" {
            ScannedSo(host, first, streams, names[..i], patterns);
            return true, patterns;
          } else if HasWildcard(name) {
            if !host.hasVars(name, cfg) {
              if cfg.Some? {
                streams := streams[name := Some(cfg.value.(single := Some(host.fileMaxUnset(name, cfg))))];
              }
            } else {
              patterns := patterns + [name];
            }
          }
        }
        ScanNext(host, first, now, streams, names[..i], found, patterns, name);
      }
      err := false;
      assert names[..|names|] == names;
      ScannedAll(host, first, streams, names, patterns);
    }

    /** Expands all wildcards; on an error the list is as it was. */
    method ProcessWildcards(
      host: Host) returns (err: bool, ghost wildcards: map<string, seq<Match>>, ghost marked: Streams)
      requires Agrees()
      modifies this
      ensures Agrees()
      ensures err ==> streamsOrdered == old(streamsOrdered)
      ensures err <==> WildcardsFail(host, old(streams))
      ensures !err ==>
                forall p :: p in wildcards <==>
                  p in old(streams) && IsPattern(host, p, old(streams)[p]) && host.discover(p).Discovered?
      ensures !err ==> forall p | p in wildcards :: wildcards[p] == host.discover(p).matches
      ensures !err ==> streamsOrdered == Expand(normalize, old(streamsOrdered), wildcards, old(streams).Keys)
      ensures marked.Keys == old(streams).Keys
      ensures forall k | k in marked ::
                marked[k] == old(streams)[k]
                  || (AutoSingle(host, k, old(streams)[k]) && marked[k] == MarkedSingle(host, k, old(streams)[k]))
      ensures !err ==> forall k | k in marked && k !in wildcards :: k in streams && streams[k] == marked[k]
      ensures !err ==> forall k | k in streams && k !in marked :: FromPattern(k, streams[k], wildcards, marked)
    {
      hide IsPattern, AutoSingle, MarkedSingle, Single, FromPattern, Expand, NoRepeats, SetOf;
      var failed, patterns := FindPatterns(host);
      marked := streams;
      wildcards := map[];
      if failed { return true, wildcards, marked; }
      var found: map<string, seq<Match>> := map[];
      for i := 0 to |patterns|
        invariant forall p :: p in found <==> p in patterns[..i] && host.discover(p).Discovered?
        invariant forall p | p in found :: found[p] == host.discover(p).matches
        invariant forall p | p in patterns[..i] :: !host.discover(p).NotDiscovered?
      {
        assert patterns[..i + 1] == patterns[..i] + [patterns[i]];
        match host.discover(patterns[i]) {
          case NotDiscovered =>
            assert patterns[i] in patterns;
            return true, wildcards, marked;
          case NoSchema =>
          case Discovered(matches) => found := found[patterns[i] := matches];
        }
      }
      assert patterns[..|patterns|] == patterns;
      wildcards := found;
      ExpandWildcards(found);
      err := false;
    }

    /** Replaces each chunked stream by its chunks, in place. List and map agree
        after that exactly if the chunked streams have different prefixes and no
        chunk takes the name of a stream, but for one that was chunked earlier. */
    method ProcessChunks(d: Dialect, plans: map<string, ChunkPlan>) returns (err: bool)
      requires Agrees()
      modifies this
      ensures err <==> exists n :: n in old(streamsOrdered) && n in plans && PrefixOf(d, n, plans[n].sql).None?
      ensures err ==> streams == old(streams) && streamsOrdered == old(streamsOrdered)
      ensures !err ==> streamsOrdered == Split(old(streamsOrdered), ChunkNames(ChunksOf(d, plans)))
      ensures !err ==> streams.Keys == KeysAfter(old(streamsOrdered), ChunkNames(ChunksOf(d, plans)), old(streams).Keys)
      ensures !err ==> (Agrees() <==> ChunksApart(d, old(streamsOrdered), plans))
      ensures !err && ChunksApart(d, old(streamsOrdered), plans) ==>
                && (forall n, part | n in old(streamsOrdered) && n in plans && 1 <= part <= |plans[n].cfgs| ::
                      PartName(d, n, plans, part) in streams
                      && streams[PartName(d, n, plans, part)] == Some(plans[n].cfgs[part - 1]))
                && (forall n | n in old(streamsOrdered) && n !in plans ::
                      n in streams && n in old(streams) && streams[n] == old(streams)[n])
    {
      var chunks;
      err, chunks := MakeChunks(d, plans);
      if err {
        return;
      }
      SplitStreams(streamsOrdered, chunks);
      ghost var names := old(streamsOrdered);
      MadeChunks(d, names, plans, chunks);
      AgreesIff(d, names, plans);
      if ChunksApart(d, names, plans) { ChunksHold(d, names, plans, chunks, old(streams)); }
    }

    /** Names the chunks of every stream to be chunked. */
    method MakeChunks(d: Dialect, plans: map<string, ChunkPlan>) returns (err: bool, chunks: map<string, seq<Chunk>>)
      ensures err <==> exists n :: n in streamsOrdered && n in plans && PrefixOf(d, n, plans[n].sql).None?
      ensures !err ==> forall n :: n in chunks <==> n in streamsOrdered && n in plans
      ensures !err ==> forall n | n in chunks :: chunks[n] == ChunksOf(d, plans)[n]
    {
      hide PrefixOf, ChunkName;
      chunks := map[];
      for i := 0 to |streamsOrdered|
        invariant forall n | n in streamsOrdered[..i] && n in plans :: PrefixOf(d, n, plans[n].sql).Some?
        invariant forall n :: n in chunks <==> n in streamsOrdered[..i] && n in plans
        invariant forall n | n in chunks :: chunks[n] == ChunksOf(d, plans)[n]
      {
        var name := streamsOrdered[i];
        assert streamsOrdered[..i + 1] == streamsOrdered[..i] + [name];
        if name in plans {
          var prefix := PrefixFor(d, name, plans[name].sql);
          if prefix.None? {
            return true, map[];
          }
          var parts := NameChunks(prefix.value, plans[name].cfgs);
          chunks := chunks[name := parts];
        }
      }
      assert streamsOrdered[..|streamsOrdered|] == streamsOrdered;
      err := false;
    }

    method PrefixFor(d: Dialect, name: string, sql: string) returns (prefix: Option<string>)
      ensures prefix == PrefixOf(d, name, sql)
    {
      var table := ParseTableName(d, name);
      if sql != "" {
        table := ParseTableName(d, sql);
      }
      if table.None? {
        return None;
      }
      prefix := Some(if table.value.sql != "" then name else FullName(d, table.value));
    }

    method NameChunks(prefix: string, cfgs: seq<StreamConfig>) returns (parts: seq<Chunk>)
      ensures parts == Parts(prefix, cfgs)
    {
      hide ChunkName;
      parts := [];
      for j := 0 to |cfgs|
        invariant parts == Parts(prefix, cfgs[..j])
      {
        assert cfgs[..j + 1] == cfgs[..j] + [cfgs[j]];
        parts := parts + [Chunk(ChunkName(prefix, j + 1), cfgs[j])];
      }
      assert cfgs[..|cfgs|] == cfgs;
    }

    /** Puts the chunks in the place of their streams. */
    method SplitStreams(names: seq<string>, chunks: map<string, seq<Chunk>>)
      modifies this
      ensures streamsOrdered == Split(names, ChunkNames(chunks))
      ensures streams.Keys == KeysAfter(names, ChunkNames(chunks), old(streams).Keys)
      ensures streams == StreamsAfter(names, chunks, old(streams))
    {
      ghost var first, keys0, chunkNames := streams, streams.Keys, ChunkNames(chunks);
      var newNames: seq<string> := [];
      assert names[0..] == names;
      hide ChunkNames, NoRepeats, SetOf;
      for i := 0 to |names|
        invariant newNames + Split(names[i..], chunkNames) == Split(names, chunkNames)
        invariant KeysAfter(names[i..], chunkNames, streams.Keys) == KeysAfter(names, chunkNames, keys0)
        invariant StreamsAfter(names[i..], chunks, streams) == StreamsAfter(names, chunks, first)
      {
        var name := names[i];
        assert names[i..][0] == name && names[i..][1..] == names[i + 1..];
        ChunkNamesOf(chunks, name);
        if name in chunks {
          var added := AddChunks(chunks[name]);
          DeleteStream(name);
          Regroup(newNames, added, Split(names[i + 1..], chunkNames));
          newNames := newNames + added;
        } else {
          Regroup(newNames, [name], Split(names[i + 1..], chunkNames));
          newNames := newNames + [name];
        }
      }
      assert newNames + [] == newNames;
      streamsOrdered := newNames;
    }

    method AddChunks(chunks: seq<Chunk>) returns (added: seq<string>)
      modifies this
      ensures added == NamesOfChunks(chunks)
      ensures streams.Keys == old(streams).Keys + SetOf(added)
      ensures streams == WithChunks(old(streams), chunks)
    {
      hide NoRepeats, WithChunks, NamesOfChunks, SetOf;
      NoChunks(streams, chunks);
      added := [];
      for j := 0 to |chunks|
        invariant added == NamesOfChunks(chunks[..j])
        invariant streams.Keys == old(streams).Keys + SetOf(added)
        invariant streams == WithChunks(old(streams), chunks[..j])
      {
        AddStream(chunks[j].name, Some(chunks[j].cfg));
        SetOfSnoc(added, chunks[j].name);
        ChunksNext(old(streams), chunks, j);
        added := added + [chunks[j].name];
      }
      assert chunks[..|chunks|] == chunks;
    }
  }

  /** A lone star is to be expanded, or the matches of some pattern cannot be
      told. */
  ghost predicate WildcardsFail(host: Host, streams: Streams) {
    || ("*" in streams && !Single(host, streams["*"]))
    || exists p :: p in streams && IsPattern(host, p, streams[p]) && host.discover(p).NotDiscovered?
  }

  // ----- what stands under the names of chunks

  /** Each chunk under its name, the last one where a name repeats. */
  function WithChunks(streams: Streams, chunks: seq<Chunk>): Streams {
    if chunks == [] then streams
    else
      var n := |chunks| - 1;
      WithChunks(streams, chunks[..n])[chunks[n].name := Some(chunks[n].cfg)]
  }

  lemma NoChunks(streams: Streams, chunks: seq<Chunk>)
    ensures WithChunks(streams, chunks[..0]) == streams && NamesOfChunks(chunks[..0]) == [] && SetOf([]) == {}
  {
  }

  lemma ChunksNext(streams: Streams, chunks: seq<Chunk>, j: nat)
    requires j < |chunks|
    ensures WithChunks(streams, chunks[..j + 1])
         == WithChunks(streams, chunks[..j])[chunks[j].name := Some(chunks[j].cfg)]
    ensures NamesOfChunks(chunks[..j + 1]) == NamesOfChunks(chunks[..j]) + [chunks[j].name]
  {
    assert chunks[..j + 1][..j] == chunks[..j];
  }

  /** The map after the chunked streams of a list are replaced, one after the
      other. */
  function StreamsAfter(names: seq<string>, chunks: map<string, seq<Chunk>>, streams: Streams): Streams {
    if names == [] then streams
    else StreamsAfter(names[1..], chunks, StreamsStep(names[0], chunks, streams))
  }

  function StreamsStep(name: string, chunks: map<string, seq<Chunk>>, streams: Streams): Streams {
    if name in chunks then WithChunks(streams, chunks[name]) - {name} else streams
  }

  lemma {:induction false} WithChunksAt(streams: Streams, chunks: seq<Chunk>, key: string)
    ensures key !in NamesOfChunks(chunks) ==>
              (key in WithChunks(streams, chunks) <==> key in streams)
              && (key in streams ==> WithChunks(streams, chunks)[key] == streams[key])
    ensures NoRepeats(NamesOfChunks(chunks)) ==>
              forall j | 0 <= j < |chunks| ::
                chunks[j].name in WithChunks(streams, chunks)
                && WithChunks(streams, chunks)[chunks[j].name] == Some(chunks[j].cfg)
  {
    if chunks != [] {
      var n, all := |chunks| - 1, NamesOfChunks(chunks);
      WithChunksAt(streams, chunks[..n], key);
      assert all == NamesOfChunks(chunks[..n]) + [chunks[n].name];
      if NoRepeats(all) {
        var some := NamesOfChunks(chunks[..n]);
        forall i, j | 0 <= i < j < n ensures some[i] != some[j] { assert all[i] != all[j]; }
        forall j | 0 <= j < n ensures chunks[j].name != chunks[n].name && chunks[..n][j] == chunks[j] {
          assert all[j] != all[n];
        }
      }
    }
  }

  /** The stream under a name that no later turn adds or removes stays. */
  lemma {:induction false} StreamStays(
    names: seq<string>, chunks: map<string, seq<Chunk>>, streams: Streams, key: string)
    requires key in streams
    requires forall n | n in names && n in chunks :: n != key && key !in NamesOfChunks(chunks[n])
    ensures key in StreamsAfter(names, chunks, streams) && StreamsAfter(names, chunks, streams)[key] == streams[key]
  {
    if names != [] {
      var n := names[0];
      if n in chunks { WithChunksAt(streams, chunks[n], key); }
      StreamStays(names[1..], chunks, StreamsStep(n, chunks, streams), key);
    }
  }

  /** So does a chunk, once it is added. */
  lemma {:induction false} ChunkStays(
    names: seq<string>, chunks: map<string, seq<Chunk>>, streams: Streams, i: nat, j: nat)
    requires i < |names| && names[i] in chunks && j < |chunks[names[i]]| && NoRepeats(Split(names, ChunkNames(chunks)))
    requires var key := chunks[names[i]][j].name;
             forall k | i <= k < |names| && names[k] in chunks :: names[k] != key
    ensures var c, after := chunks[names[i]][j], StreamsAfter(names, chunks, streams);
            c.name in after && after[c.name] == Some(c.cfg)
  {
    var n, rest, split := names[0], names[1..], ChunkNames(chunks);
    ChunkNamesOf(chunks, n);
    Joined(if n in split then split[n] else [n], Split(rest, split));
    hide NoRepeats, ChunkNames;
    if i > 0 {
      ChunkStays(rest, chunks, StreamsStep(n, chunks, streams), i - 1, j);
    } else {
      var c, added := chunks[n][j], NamesOfChunks(chunks[n]);
      WithChunksAt(streams, chunks[n], c.name);
      assert added[j] == c.name && c.name in SetOf(added);
      forall m | m in rest && m in chunks ensures m != c.name && c.name !in NamesOfChunks(chunks[m]) {
        var k :| 0 <= k < |rest| && rest[k] == m;
        assert names[k + 1] == m;
        ChunkNamesOf(chunks, m);
        SplitHas(rest, split, m);
      }
      StreamStays(rest, chunks, StreamsStep(n, chunks, streams), c.name);
    }
  }

  lemma {:induction false} SplitHas(names: seq<string>, chunks: map<string, seq<string>>, n: string)
    requires n in names
    ensures n in chunks ==> forall c | c in chunks[n] :: c in SetOf(Split(names, chunks))
    ensures n !in chunks ==> n in SetOf(Split(names, chunks))
  {
    if names[0] != n {
      SplitHas(names[1..], chunks, n);
    }
  }

  /** Where the chunks are apart, each has its own settings, and streams that
      are not chunked have theirs. */
  lemma ChunksHold(
    d: Dialect, names: seq<string>, plans: map<string, ChunkPlan>, chunks: map<string, seq<Chunk>>, first: Streams)
    requires NoRepeats(names) && SetOf(names) == first.Keys && ChunksApart(d, names, plans)
    requires NoRepeats(Split(names, ChunkNames(chunks)))
    requires forall n | n in names && n in plans :: PrefixOf(d, n, plans[n].sql).Some?
    requires forall n :: n in chunks <==> n in names && n in plans
    requires forall n | n in chunks :: chunks[n] == ChunksOf(d, plans)[n]
    ensures var after := StreamsAfter(names, chunks, first);
            && (forall n, part | n in names && n in plans && 1 <= part <= |plans[n].cfgs| ::
                  PartName(d, n, plans, part) in after
                  && after[PartName(d, n, plans, part)] == Some(plans[n].cfgs[part - 1]))
            && (forall n | n in names && n !in plans :: n in after && n in first && after[n] == first[n])
  {
    var after := StreamsAfter(names, chunks, first);
    hide StreamsAfter, PrefixOf, ChunkName, Split, ChunkNames, PartName, ChunksOf;
    forall n, part | n in names && n in plans && 1 <= part <= |plans[n].cfgs|
      ensures PartName(d, n, plans, part) in after
      ensures after[PartName(d, n, plans, part)] == Some(plans[n].cfgs[part - 1])
    {
      var i :| 0 <= i < |names| && names[i] == n;
      PartAt(d, plans, n, part);
      assert Spares(names, plans, i, PartName(d, n, plans, part));
      ChunkStays(names, chunks, first, i, part - 1);
    }
    forall n | n in names && n !in plans ensures n in after && n in first && after[n] == first[n] {
      assert n in SetOf(names);
      forall m | m in names && m in chunks ensures m != n && n !in NamesOfChunks(chunks[m]) {
        OwnSplit(names, chunks, n, m);
      }
      StreamStays(names, chunks, first, n);
    }
  }

  lemma PartAt(d: Dialect, plans: map<string, ChunkPlan>, n: string, part: nat)
    requires n in plans && 1 <= part <= |plans[n].cfgs| && PrefixOf(d, n, plans[n].sql).Some?
    ensures |ChunksOf(d, plans)[n]| == |plans[n].cfgs|
    ensures ChunksOf(d, plans)[n][part - 1] == Chunk(PartName(d, n, plans, part), plans[n].cfgs[part - 1])
  {
    hide PrefixOf, ChunkName;
  }

  /** No chunk has the name of a stream that is not chunked. */
  lemma {:induction false} OwnSplit(names: seq<string>, chunks: map<string, seq<Chunk>>, n: string, m: string)
    requires NoRepeats(Split(names, ChunkNames(chunks))) && n in names && n !in chunks && m in names && m in chunks
    ensures n !in NamesOfChunks(chunks[m])
  {
    var rest, split := names[1..], ChunkNames(chunks);
    ChunkNamesOf(chunks, names[0]);
    ChunkNamesOf(chunks, m);
    ChunkNamesOf(chunks, n);
    var head := if names[0] in split then split[names[0]] else [names[0]];
    Joined(head, Split(rest, split));
    if n in rest { SplitHas(rest, split, n); }
    if m in rest { SplitHas(rest, split, m); }
    if n in rest && m in rest {
      OwnSplit(rest, chunks, n, m);
    } else if n in rest {
      assert head == NamesOfChunks(chunks[m]) && n !in SetOf(head);
    } else {
      assert head[0] == n && n in SetOf(head);
    }
  }

  lemma StartList(names: seq<string>, keys: set<string>)
    requires NoRepeats(names) && SetOf(names) == keys
    ensures ListState([], names, keys)
  {
    assert SetOf([]) == {};
  }

  lemma ExpandNone(normalize: string -> string, wildcards: map<string, seq<Match>>, keys: set<string>)
    ensures Expand(normalize, [], wildcards, keys) == []
  {
  }

  lemma FirstHas(name: string, names: seq<string>, first: Streams)
    requires name in names && SetOf(names) == first.Keys
    ensures name in first
  {
    assert name in SetOf(names);
  }

  lemma ConfigsDone(first: Streams, now: Streams, wildcards: map<string, seq<Match>>)
    requires ConfigsKept(first, now, wildcards, [])
    ensures forall k | k in first && k !in wildcards :: k in now && now[k] == first[k]
    ensures forall k | k in now && k !in first :: FromPattern(k, now[k], wildcards, first)
  {
  }

  /** The streams that are no patterns, and the patterns still to come, have the
      configuration they had; the new streams have that of a pattern. */
  ghost predicate ConfigsKept(first: Streams, now: Streams, wildcards: map<string, seq<Match>>, rest: seq<string>) {
    && (forall k | k in first && (k !in wildcards || k in SetOf(rest)) :: k in now && now[k] == first[k])
    && (forall k | k in now && k !in first :: FromPattern(k, now[k], wildcards, first))
  }

  lemma StartConfigs(first: Streams, wildcards: map<string, seq<Match>>, names: seq<string>)
    ensures ConfigsKept(first, first, wildcards, names)
  {
  }

  lemma ExpandNext(
    normalize: string -> string, name: string, rest: seq<string>, wildcards: map<string, seq<Match>>, keys: set<string>)
    ensures Expand(normalize, [name] + rest, wildcards, keys) ==
            if name !in wildcards then [name] + Expand(normalize, rest, wildcards, keys)
            else var added := Fresh(normalize, wildcards[name], keys);
                 added + Expand(normalize, rest, wildcards, keys + SetOf(added) - {name})
  {
    assert ([name] + rest)[1..] == rest;
  }

  lemma StillThere(newNames: seq<string>, name: string, rest: seq<string>, before: Streams)
    requires ListState(newNames, [name] + rest, before.Keys)
    ensures name in before
  {
    assert name in SetOf([name] + rest);
  }

  lemma ConfigsSame(
    name: string, rest: seq<string>, before: Streams, wildcards: map<string, seq<Match>>, first: Streams)
    requires ConfigsKept(first, before, wildcards, [name] + rest)
    ensures ConfigsKept(first, before, wildcards, rest)
  {
    forall k | k in SetOf(rest) ensures k in SetOf([name] + rest) { assert k in [name] + rest; }
  }

  lemma AllListed(newNames: seq<string>, keys: set<string>)
    requires ListState(newNames, [], keys)
    ensures NoRepeats(newNames) && SetOf(newNames) == keys
  {
  }

  /** The streams added are named after matches and have the pattern's
      configuration. */
  ghost predicate MatchesAdded(
    before: Streams, after: Streams, pattern: string, matches: seq<Match>, added: seq<string>)
  {
    && pattern in before
    && after.Keys == before.Keys + SetOf(added)
    && (forall k | k in before :: after[k] == before[k])
    && (forall k | k in added ::
          after[k] == Copy(before[pattern]) && exists i :: 0 <= i < |matches| && NameOf(matches[i]) == k)
  }

  /** What has been listed and what is still to come are the keys. */
  ghost predicate ListState(newNames: seq<string>, rest: seq<string>, keys: set<string>) {
    NoRepeats(newNames) && SetOf(newNames) !! SetOf(rest) && keys == SetOf(newNames) + SetOf(rest)
  }

  lemma TailNoRepeats(names: seq<string>, i: nat)
    requires NoRepeats(names) && i < |names|
    ensures NoRepeats([names[i]] + names[i + 1..])
  {
    assert [names[i]] + names[i + 1..] == names[i..];
  }

  lemma HeadNotInTail(name: string, rest: seq<string>)
    requires NoRepeats([name] + rest)
    ensures name !in SetOf(rest) && SetOf([name] + rest) == {name} + SetOf(rest)
  {
    var all := [name] + rest;
    forall j | 0 <= j < |rest| ensures rest[j] != name { assert all[0] == name && all[j + 1] == rest[j]; }
  }

  lemma NameKept(newNames: seq<string>, name: string, rest: seq<string>, keys: set<string>)
    requires ListState(newNames, [name] + rest, keys) && NoRepeats([name] + rest)
    ensures ListState(newNames + [name], rest, keys)
  {
    HeadNotInTail(name, rest);
    NoRepeatsSnoc(newNames, name);
    SetOfSnoc(newNames, name);
  }

  lemma PatternExpanded(newNames: seq<string>, name: string, rest: seq<string>, keys: set<string>, added: seq<string>)
    requires ListState(newNames, [name] + rest, keys) && NoRepeats([name] + rest)
    requires NoRepeats(added) && SetOf(added) !! keys
    ensures ListState(newNames + added, rest, keys + SetOf(added) - {name})
  {
    HeadNotInTail(name, rest);
    Joined(newNames, added);
  }

  lemma ConfigsAfter(
    p: string, rest: seq<string>, added: seq<string>, before: Streams, after: Streams,
    wildcards: map<string, seq<Match>>, first: Streams)
    requires p in wildcards && NoRepeats([p] + rest) && ConfigsKept(first, before, wildcards, [p] + rest)
    requires p in first && MatchesAdded(before, after, p, wildcards[p], added)
    ensures ConfigsKept(first, after - {p}, wildcards, rest)
    ensures (after - {p}).Keys == before.Keys + SetOf(added) - {p}
  {
    HeadNotInTail(p, rest);
    hide Copy, NoRepeats;
    assert p in SetOf([p] + rest);
    forall k | k in after - {p} && k !in first ensures FromPattern(k, after[k], wildcards, first) {
      if k !in before {
        assert k in added;
        var i :| 0 <= i < |wildcards[p]| && NameOf(wildcards[p][i]) == k;
      }
    }
  }

  // ----- which streams are patterns

  datatype Discovery = NotDiscovered | NoSchema | Discovered(matches: seq<Match>)

  /** What the source connection and the defaults contribute: whether the
      target object has stream variables, whether no file limits are set, and
      the tables or files a pattern matches. */
  datatype Host = Host(
    defaultSingle: Option<bool>,
    hasVars: (string, Option<StreamConfig>) -> bool,
    fileMaxUnset: (string, Option<StreamConfig>) -> bool,
    discover: string -> Discovery)

  predicate HasWildcard(name: string) {
    '*' in name || '?' in name
  }

  /** The stream is to be read as one, by its own setting or else by default. */
  predicate Single(host: Host, cfg: Option<StreamConfig>) {
    if cfg.Some? && cfg.value.single.Some? then cfg.value.single.value else host.defaultSingle == Some(true)
  }

  predicate IsPattern(host: Host, name: string, cfg: Option<StreamConfig>) {
    !Single(host, cfg) && HasWildcard(name) && host.hasVars(name, cfg)
  }

  /** A wildcard all of whose matches go to one target. */
  predicate AutoSingle(host: Host, name: string, cfg: Option<StreamConfig>) {
    !Single(host, cfg) && name != "*" && HasWildcard(name) && !host.hasVars(name, cfg) && cfg.Some?
  }

  function MarkedSingle(host: Host, name: string, cfg: Option<StreamConfig>): Option<StreamConfig>
    requires cfg.Some?
  {
    Some(cfg.value.(single := Some(host.fileMaxUnset(name, cfg))))
  }

  /** The wildcards done so far are marked, and the patterns among them known. */
  ghost predicate Scanned(host: Host, first: Streams, now: Streams, done: seq<string>, patterns: seq<string>) {
    && now.Keys == first.Keys
    && (forall k | k in first ::
          now[k] == if k in done && AutoSingle(host, k, first[k]) then MarkedSingle(host, k, first[k]) else first[k])
    && (forall p :: p in patterns <==> p in done && p in first && IsPattern(host, p, first[p]))
  }

  /** How a stream is handled, case by case. */
  lemma PatternCases(host: Host, name: string, cfg: Option<StreamConfig>)
    ensures IsPattern(host, name, cfg) <==> !Single(host, cfg) && HasWildcard(name) && host.hasVars(name, cfg)
    ensures AutoSingle(host, name, cfg)
            <==> !Single(host, cfg) && name != "*" && HasWildcard(name) && !host.hasVars(name, cfg) && cfg.Some?
  {
  }

  /** A wildcard that no setting of its own, nor the default where it has none,
      reads as one stream is expanded where its target depends on the stream,
      and else marked. */
  lemma WildcardIs(host: Host, name: string, cfg: Option<StreamConfig>)
    ensures var asOne := match cfg
                         case Some(StreamConfig(Some(own), _)) => own
                         case _ => host.defaultSingle == Some(true);
            var wild := exists i :: 0 <= i < |name| && (name[i] == '*' || name[i] == '?');
            && (IsPattern(host, name, cfg) <==> wild && !asOne && host.hasVars(name, cfg))
            && (AutoSingle(host, name, cfg) <==> wild && !asOne && !host.hasVars(name, cfg) && cfg.Some? && name != "*")
            && (AutoSingle(host, name, cfg) ==>
                  MarkedSingle(host, name, cfg)
                    == Some(StreamConfig(Some(host.fileMaxUnset(name, cfg)), cfg.value.body)))
  {
  }

  /** A match becomes a stream, under the full name of its table or the path of
      its file, unless a stream has one of its two names. */
  lemma FreshOne(normalize: string -> string, keys: set<string>, first: string, other: string)
    ensures var free := forall k | k in keys :: normalize(k) != normalize(first) && normalize(k) != normalize(other);
            && Fresh(normalize, [Table(other, first)], keys) == (if free then [first] else [])
            && Fresh(normalize, [File(first, other)], keys) == (if free then [first] else [])
  {
  }

  lemma StarIs(host: Host, first: Streams, names: seq<string>)
    requires forall k :: k in names <==> k in first
    ensures (exists j :: 0 <= j < |names| && names[j] == "*") <==> "*" in first
  {
  }

  lemma ScanStep(names: seq<string>, i: nat)
    requires i < |names| && NoRepeats(names)
    ensures names[..i + 1] == names[..i] + [names[i]] && names[i] !in names[..i] && names[i] in names
  {
  }

  lemma ScanNext(
    host: Host, first: Streams, now: Streams, next: Streams, done: seq<string>, patterns: seq<string>,
    after: seq<string>, name: string)
    requires Scanned(host, first, now, done, patterns) && name in first && name !in done
             && (name != "*" || Single(host, first[name]))
    requires next == if AutoSingle(host, name, first[name]) then now[name := MarkedSingle(host, name, first[name])]
             else now
    requires after == if IsPattern(host, name, first[name]) then patterns + [name] else patterns
    ensures Scanned(host, first, next, done + [name], after)
  {
    hide Single, HasWildcard;
  }

  lemma ScannedSo(host: Host, first: Streams, now: Streams, done: seq<string>, patterns: seq<string>)
    requires Scanned(host, first, now, done, patterns)
    ensures now.Keys == first.Keys
    ensures forall k | k in now ::
              now[k] == first[k] || (AutoSingle(host, k, first[k]) && now[k] == MarkedSingle(host, k, first[k]))
  {
  }

  lemma ScannedAll(host: Host, first: Streams, now: Streams, names: seq<string>, patterns: seq<string>)
    requires Scanned(host, first, now, names, patterns) && forall k :: k in names <==> k in first
    ensures now.Keys == first.Keys
    ensures forall k | k in now ::
              now[k] == if AutoSingle(host, k, first[k]) then MarkedSingle(host, k, first[k]) else first[k]
    ensures forall p :: p in patterns <==> p in first && IsPattern(host, p, first[p])
  {
  }
}
