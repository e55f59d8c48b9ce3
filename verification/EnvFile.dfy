/** The decoded env file, and the comparison that guards every edit: the file
    without the entries an operation names must be the same before and after. */
module EnvFile {
  import opened Text
  import opened Values

  type File = map<string, Value>

  // ----- the decoded file without the entries an operation names

  function Entries(file: File, block: string): Option<map<string, Value>> {
    if block in file && file[block].Map? then Some(file[block].entries) else None
  }

  /** The file without the connections whose key folds to name. A connections
      block with nothing else in it goes away. */
  function DropConn(fold: string -> string, file: File, name: string): File {
    var conns := match Entries(file, "connections") case None => map[] case Some(m) => m;
    var rest := map k | k in conns && fold(k) != fold(name) :: conns[k];
    if rest == map[] then file - {"connections"} else file["connections" := Map(rest)]
  }

  /** The values DropConn takes out. */
  function DroppedConns(fold: string -> string, file: File, name: string): set<Value> {
    match Entries(file, "connections")
    case None => {}
    case Some(m) => set k | k in m && fold(k) == fold(name) :: m[k]
  }

  function DropEnvBlock(file: File, block: string, keys: set<string>): File {
    if block !in file then file
    else if file[block].Map? then
      var rest := file[block].entries - keys;
      if rest == map[] then file - {block} else file[block := Map(rest)]
    else if file[block] == NULL then file - {block}
    else file
  }

  function DropEnv(file: File, keys: set<string>): File {
    DropEnvBlock(DropEnvBlock(file, "env", keys), "variables", keys)
  }

  function EntryAt(file: File, block: string, key: string): Option<Value> {
    match Entries(file, block)
    case None => None
    case Some(m) => if key in m then Some(m[key]) else None
  }

  /** Nothing but the connections folding to names and the env keys changed. */
  ghost predicate Keeps(fold: string -> string, before: File, after: File, names: set<string>, envKeys: set<string>) {
    && (forall k | fold(k) !in names :: EntryAt(before, "connections", k) == EntryAt(after, "connections", k))
    && (forall k | k !in envKeys :: EntryAt(before, "env", k) == EntryAt(after, "env", k))
    && (forall k | k !in envKeys :: EntryAt(before, "variables", k) == EntryAt(after, "variables", k))
    && (forall k | k !in {"connections", "env", "variables"} ::
          (k in before <==> k in after) && (k in before ==> before[k] == after[k]))
  }

  lemma DropConnEntry(fold: string -> string, file: File, name: string, block: string, key: string)
    requires block != "connections" || fold(key) != fold(name)
    ensures EntryAt(DropConn(fold, file, name), block, key) == EntryAt(file, block, key)
    ensures block != "connections" ==>
              (block in DropConn(fold, file, name) <==> block in file)
              && (block in file ==> DropConn(fold, file, name)[block] == file[block])
  {
    if block == "connections" {
      var conns := match Entries(file, "connections") case None => map[] case Some(m) => m;
      var rest := map k | k in conns && fold(k) != fold(name) :: conns[k];
      assert key in conns ==> key in rest;
    }
  }

  lemma DropEnvBlockEntry(file: File, dropped: string, keys: set<string>, block: string, key: string)
    requires block != dropped || key !in keys
    ensures EntryAt(DropEnvBlock(file, dropped, keys), block, key) == EntryAt(file, block, key)
    ensures block != dropped ==>
              (block in DropEnvBlock(file, dropped, keys) <==> block in file)
              && (block in file ==> DropEnvBlock(file, dropped, keys)[block] == file[block])
  {
    if block == dropped && block in file && file[block].Map? {
      var rest := file[block].entries - keys;
      assert key in file[block].entries ==> key in rest;
    }
  }

  /** The comparison the editor makes says what it must: everything but the
      named entries is the same. */
  lemma ComparisonKeeps(fold: string -> string, before: File, after: File, was: string, now: string, keys: set<string>)
    requires DropEnv(DropConn(fold, before, was), keys) == DropEnv(DropConn(fold, after, now), keys)
    ensures Keeps(fold, before, after, {fold(was), fold(now)}, keys)
  {
    hide DropConn, DropEnvBlock, EntryAt;
    var b, a := DropConn(fold, before, was), DropConn(fold, after, now);
    forall block, key | block != "connections" || (fold(key) != fold(was) && fold(key) != fold(now))
      ensures EntryAt(b, block, key) == EntryAt(before, block, key)
      ensures EntryAt(a, block, key) == EntryAt(after, block, key)
      ensures block != "connections" ==>
                (block in b <==> block in before) && (block in before ==> b[block] == before[block])
      ensures block != "connections" ==>
                (block in a <==> block in after) && (block in after ==> a[block] == after[block])
    {
      DropConnEntry(fold, before, was, block, key);
      DropConnEntry(fold, after, now, block, key);
    }
    EnvComparison(b, a, keys);
    forall k | k !in {"connections", "env", "variables"}
      ensures (k in before <==> k in after) && (k in before ==> before[k] == after[k])
    {
      assert EntryAt(b, k, "") == EntryAt(before, k, "");
    }
  }

  lemma EnvComparison(b: File, a: File, keys: set<string>)
    requires DropEnv(b, keys) == DropEnv(a, keys)
    ensures forall block, key | (block != "env" && block != "variables") || key !in keys ::
              EntryAt(b, block, key) == EntryAt(a, block, key)
    ensures forall block | block != "env" && block != "variables" ::
              (block in b <==> block in a) && (block in b ==> b[block] == a[block])
  {
    hide DropEnvBlock, EntryAt;
    var b2, a2 := DropEnvBlock(b, "env", keys), DropEnvBlock(a, "env", keys);
    forall block, key | (block != "env" && block != "variables") || key !in keys
      ensures EntryAt(b, block, key) == EntryAt(a, block, key)
    {
      DropEnvBlockEntry(b, "env", keys, block, key);
      DropEnvBlockEntry(b2, "variables", keys, block, key);
      DropEnvBlockEntry(a, "env", keys, block, key);
      DropEnvBlockEntry(a2, "variables", keys, block, key);
    }
    forall block | block != "env" && block != "variables"
      ensures (block in b <==> block in a) && (block in b ==> b[block] == a[block])
    {
      DropEnvBlockEntry(b, "env", keys, block, "");
      DropEnvBlockEntry(b2, "variables", keys, block, "");
      DropEnvBlockEntry(a, "env", keys, block, "");
      DropEnvBlockEntry(a2, "variables", keys, block, "");
    }
  }

  /** What an env block holds besides some keys; nothing if it is not there,
      null, or a mapping of these keys only. */
  function Besides(file: File, block: string, keys: set<string>): Option<Value> {
    if block !in file then None
    else match file[block]
      case Map(m) => if m.Keys <= keys then None else Some(Map(m - keys))
      case Scalar(tag, text) => if tag == "!!null" && text == "" then None else Some(file[block])
      case List(_) => Some(file[block])
  }

  /** The connections besides some name. */
  function OtherConns(fold: string -> string, file: File, name: string): map<string, Value> {
    var conns := match Entries(file, "connections") case None => map[] case Some(m) => m;
    map k | k in conns && fold(k) != fold(name) :: conns[k]
  }

  /** The comparison passes exactly if all other connections, all other env keys
      and all other blocks are the same; it does not tell an empty block, a null
      one and none apart. */
  lemma ComparisonExact(fold: string -> string, before: File, after: File, was: string, now: string, keys: set<string>)
    ensures DropEnv(DropConn(fold, before, was), keys) == DropEnv(DropConn(fold, after, now), keys)
       <==> && OtherConns(fold, before, was) == OtherConns(fold, after, now)
            && (forall block | block == "env" || block == "variables" ::
                  Besides(before, block, keys) == Besides(after, block, keys))
            && (forall block | block !in {"connections", "env", "variables"} ::
                  (block in before <==> block in after) && (block in before ==> before[block] == after[block]))
  {
    var b, a := DropEnv(DropConn(fold, before, was), keys), DropEnv(DropConn(fold, after, now), keys);
    forall block
      ensures At(b, block) == Left(fold, before, was, keys, block)
              && At(a, block) == Left(fold, after, now, keys, block)
    {
      LeftIs(fold, before, was, keys, block);
      LeftIs(fold, after, now, keys, block);
    }
    hide DropEnv, DropConn, Left;
    SameFiles(b, a);
    LeftSame(fold, before, after, was, now, keys);
  }

  function At(file: File, block: string): Option<Value> {
    if block in file then Some(file[block]) else None
  }

  lemma SameFiles(b: File, a: File)
    ensures b == a <==> forall block :: At(b, block) == At(a, block)
  {
    if forall block :: At(b, block) == At(a, block) {
      forall block ensures block in b <==> block in a { assert At(b, block) == At(a, block); }
      forall block | block in b ensures b[block] == a[block] { assert At(b, block) == At(a, block); }
      assert b.Keys == a.Keys;
    }
  }

  /** What the comparison looks at in a block. */
  function Left(fold: string -> string, file: File, name: string, keys: set<string>, block: string): Option<Value> {
    if block == "connections" then
      var rest := OtherConns(fold, file, name);
      if rest == map[] then None else Some(Map(rest))
    else if block == "env" || block == "variables" then Besides(file, block, keys)
    else At(file, block)
  }

  lemma LeftIs(fold: string -> string, file: File, name: string, keys: set<string>, block: string)
    ensures At(DropEnv(DropConn(fold, file, name), keys), block) == Left(fold, file, name, keys, block)
  {
    var f := DropConn(fold, file, name);
    var g := DropEnvBlock(f, "env", keys);
    DropBlockAt(f, "env", keys, block);
    DropBlockAt(g, "variables", keys, block);
    hide DropEnvBlock;
  }

  lemma DropBlockAt(file: File, dropped: string, keys: set<string>, block: string)
    ensures At(DropEnvBlock(file, dropped, keys), block)
         == if block == dropped then Besides(file, block, keys) else At(file, block)
  {
    if dropped in file && file[dropped].Map? {
      var m := file[dropped].entries;
      if m.Keys <= keys { assert m - keys == map[]; }
      if m - keys == map[] {
        forall k | k in m ensures k in keys { assert k !in m - keys; }
      }
    }
  }

  lemma LeftSame(fold: string -> string, before: File, after: File, was: string, now: string, keys: set<string>)
    ensures (forall block :: Left(fold, before, was, keys, block) == Left(fold, after, now, keys, block))
       <==> && OtherConns(fold, before, was) == OtherConns(fold, after, now)
            && (forall block | block == "env" || block == "variables" ::
                  Besides(before, block, keys) == Besides(after, block, keys))
            && (forall block | block !in {"connections", "env", "variables"} ::
                  (block in before <==> block in after) && (block in before ==> before[block] == after[block]))
  {
    hide OtherConns, Besides;
    if forall block :: Left(fold, before, was, keys, block) == Left(fold, after, now, keys, block) {
      assert Left(fold, before, was, keys, "connections") == Left(fold, after, now, keys, "connections");
      forall block | block != "connections"
        ensures block == "env" || block == "variables" ==> Besides(before, block, keys) == Besides(after, block, keys)
        ensures block != "env" && block != "variables" ==>
                  (block in before <==> block in after) && (block in before ==> before[block] == after[block])
      {
        assert Left(fold, before, was, keys, block) == Left(fold, after, now, keys, block);
        assert block != "env" && block != "variables" ==> At(before, block) == At(after, block);
      }
    }
  }

  lemma DropNoEnvComparison(fold: string -> string, before: File, after: File, was: string, now: string)
    requires DropConn(fold, before, was) == DropConn(fold, after, now)
    ensures Keeps(fold, before, after, {fold(was), fold(now)}, {})
  {
    ComparisonKeeps(fold, before, after, was, now, {});
  }

  lemma KeepsTransitive(
    fold: string -> string, x: File, y: File, z: File, names: set<string>, keys: set<string>, names2: set<string>,
    keys2: set<string>)
    requires Keeps(fold, x, y, names, keys) && Keeps(fold, y, z, names2, keys2)
    ensures Keeps(fold, x, z, names + names2, keys + keys2)
  {
    hide EntryAt;
  }

  lemma EnvKeeps(fold: string -> string, before: File, after: File, keys: set<string>)
    requires DropEnv(before, keys) == DropEnv(after, keys)
    ensures Keeps(fold, before, after, {}, keys)
  {
    EnvComparison(before, after, keys);
  }

  lemma KeepsItself(fold: string -> string, file: File, names: set<string>, keys: set<string>)
    ensures Keeps(fold, file, file, names, keys)
  {
  }
}
