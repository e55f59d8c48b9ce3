/** Whether promoted secrets expand to what they were, over the environment and
    the variables that promotion writes. */
module SecretRecovery {
  import opened Text
  import opened Sequences
  import opened Names
  import opened Secrets

  // ----- promoted secrets expand to what they were

  /** Writing the variables one after the other, the last value stays. */
  lemma {:induction false} LastWrite(updates: Env, plan: seq<Change>, i: nat) returns (j: nat)
    requires i < |plan| && plan[i].variable.Some?
    ensures i <= j < |plan| && plan[j].variable == plan[i].variable
    ensures plan[i].variable.value in ApplyEnv(updates, plan)
            && ApplyEnv(updates, plan)[plan[i].variable.value] == plan[j].value
    decreases |plan|
  {
    var v := plan[i].variable.value;
    var rest := plan[1..];
    if i > 0 {
      j := LastWrite(Updated(updates, plan[0]), rest, i - 1);
      j := j + 1;
    } else if exists k :: 0 <= k < |rest| && rest[k].variable == Some(v) {
      var k :| 0 <= k < |rest| && rest[k].variable == Some(v);
      j := LastWrite(Updated(updates, plan[0]), rest, k);
      j := j + 1;
    } else {
      j := 0;
      NotWritten(Updated(updates, plan[0]), rest, v);
    }
  }

  lemma {:induction false} NotWritten(updates: Env, plan: seq<Change>, v: string)
    requires forall k | 0 <= k < |plan| :: plan[k].variable != Some(v)
    ensures v in ApplyEnv(updates, plan) <==> v in updates
    ensures v in updates ==> ApplyEnv(updates, plan)[v] == updates[v]
    decreases |plan|
  {
    if plan != [] { NotWritten(Updated(updates, plan[0]), plan[1..], v); }
  }

  /** No variable is written with two values, and the variable of a reference
      that is kept has, if it is set here at all, the value it had. */
  ghost predicate Consistent(updates: Env, plan: seq<Change>) {
    && (forall i, j | 0 <= i < j < |plan| && plan[i].variable.Some? && plan[i].variable == plan[j].variable ::
          plan[i].value == plan[j].value)
    && (forall i | 0 <= i < |plan| && plan[i].variable.None? && RefName(plan[i].ref).Some?
        && RefName(plan[i].ref).value in ApplyEnv(updates, plan) ::
          ApplyEnv(updates, plan)[RefName(plan[i].ref).value] == plan[i].value)
  }

  /** What is known of each change of a plan when the name is all right. */
  predicate GoodChange(env: Env, c: Change) {
    if c.variable.None? then IsEnvVarRef(c.ref) && ExpandRef(env, c.ref) == c.value
    else c.ref == RefTo(c.variable.value) && IsVarName(c.variable.value)
  }

  /** What a reference of the plan expands to when the variables are set. */
  lemma Expansion(env: Env, after: Env, c: Change)
    requires GoodChange(env, c)
    ensures RefName(c.ref).Some? && (c.variable.Some? ==> RefName(c.ref) == c.variable)
    ensures RefName(c.ref).value in after ==> ExpandRef(env + after, c.ref) == after[RefName(c.ref).value]
    ensures RefName(c.ref).value !in after && c.variable.None? ==> ExpandRef(env + after, c.ref) == c.value
  {
    if c.variable.Some? { RefNameOf(c.variable.value); }
    hide RefName, RefTo, IsVarName;
  }

  lemma RecoveredIff(env: Env, updates: Env, plan: seq<Change>)
    requires forall c | c in plan :: GoodChange(env, c)
    ensures Recovered(env + ApplyEnv(updates, plan), plan) <==> Consistent(updates, plan)
  {
    if Consistent(updates, plan) { ConsistentRecovers(env, updates, plan); }
    if Recovered(env + ApplyEnv(updates, plan), plan) { RecoveredIsConsistent(env, updates, plan); }
  }

  lemma ConsistentRecovers(env: Env, updates: Env, plan: seq<Change>)
    requires (forall c | c in plan :: GoodChange(env, c)) && Consistent(updates, plan)
    ensures Recovered(env + ApplyEnv(updates, plan), plan)
  {
    var after := ApplyEnv(updates, plan);
    hide ApplyEnv, GoodChange, ExpandRef, RefName;
    forall c | c in plan ensures ExpandRef(env + after, c.ref) == c.value {
      var i :| 0 <= i < |plan| && plan[i] == c;
      Expansion(env, after, c);
      if c.variable.Some? { var j := LastWrite(updates, plan, i); }
    }
    RecoveredBy(env + after, plan);
  }

  lemma RecoveredIsConsistent(env: Env, updates: Env, plan: seq<Change>)
    requires (forall c | c in plan :: GoodChange(env, c)) && Recovered(env + ApplyEnv(updates, plan), plan)
    ensures Consistent(updates, plan)
  {
    var after := ApplyEnv(updates, plan);
    RecoveredAt(env + after, plan);
    hide ApplyEnv, GoodChange, ExpandRef, RefName, Recovered;
    forall i | 0 <= i < |plan|
      ensures RefName(plan[i].ref).Some?
      ensures plan[i].variable.Some? ==>
                plan[i].variable.value in after && after[plan[i].variable.value] == plan[i].value
      ensures RefName(plan[i].ref).value in after ==> after[RefName(plan[i].ref).value] == plan[i].value
    {
      assert plan[i] in plan;
      Expansion(env, after, plan[i]);
      if plan[i].variable.Some? { var j := LastWrite(updates, plan, i); }
    }
  }

  lemma RecoveredBy(env: Env, plan: seq<Change>)
    requires forall c | c in plan :: ExpandRef(env, c.ref) == c.value
    ensures Recovered(env, plan)
  {
  }

  lemma RecoveredAt(env: Env, plan: seq<Change>)
    requires Recovered(env, plan)
    ensures forall i | 0 <= i < |plan| :: ExpandRef(env, plan[i].ref) == plan[i].value
  {
    forall i | 0 <= i < |plan| ensures ExpandRef(env, plan[i].ref) == plan[i].value { assert plan[i] in plan; }
  }

  /** Every secret that was a literal expands to what it was. */
  ghost predicate AllRecovered(env: Env, props: Props, after: Props, keys: seq<string>) {
    FieldsRecovered(env, SECRET_KEYS, props, after) && NestedAllRecovered(env, props, after, keys)
  }

  ghost predicate NestedAllRecovered(env: Env, props: Props, after: Props, keys: seq<string>) {
    var before, now := EntriesOf(props, SECRETS), EntriesOf(after, SECRETS);
    before.None? || (now.Some? && FieldsRecovered(env, keys, before.value, now.value))
  }

  /** Over the environment and the variables to be written the secrets are what
      they were exactly if these variables do not contradict one another or a
      reference that was kept. */
  lemma SecretsRecovered(host: Host, props: Props, existing: Props, updates: Env, keys: seq<string>)
    requires NameOk(host.upper, host.conn) && NoRepeats(keys)
    requires EntriesOf(props, SECRETS).Some? ==> props[SECRETS].shared && SetOf(keys) == props[SECRETS].entries.Keys
    ensures var plan := TopPlan(host, props, existing, updates) + NestedPlan(host, props, existing, updates, keys);
            AllRecovered(host.env + ApplyEnv(updates, plan), props, AfterPromote(host, props, existing, updates, keys),
                         keys)
            <==> Consistent(updates, plan)
  {
    var top, nested := TopPlan(host, props, existing, updates), NestedPlan(host, props, existing, updates, keys);
    var env := host.env + ApplyEnv(updates, top + nested);
    TopRecovered(host, props, existing, updates, keys, env);
    NestedRecovered(host, props, existing, updates, keys, env);
    hide SECRET_KEYS, TopPlan, NestedPlan, NestedAllRecovered, AfterPromote, ApplyEnv, GoodChange, FieldsRecovered,
         Consistent, Recovered, NameOk;
    forall c | c in top + nested ensures GoodChange(host.env, c) {
      PlannedGood(host, props, existing, updates, keys, c);
    }
    RecoveredIff(host.env, updates, top + nested);
    RecoveredBoth(env, top, nested);
  }

  lemma NestedRecovered(host: Host, props: Props, existing: Props, updates: Env, keys: seq<string>, env: Env)
    requires NoRepeats(keys)
    requires EntriesOf(props, SECRETS).Some? ==> props[SECRETS].shared && SetOf(keys) == props[SECRETS].entries.Keys
    ensures NestedAllRecovered(env, props, AfterPromote(host, props, existing, updates, keys), keys)
       <==> Recovered(env, NestedPlan(host, props, existing, updates, keys))
  {
    if EntriesOf(props, SECRETS).Some? {
      NestedAfter(host, props, existing, updates, keys);
      PlanFields(host, true, keys, props[SECRETS].entries, NestedExisting(existing),
                 ApplyEnv(updates, TopPlan(host, props, existing, updates)), props[SECRETS].entries, env);
      hide AfterPromote, FieldsRecovered, Recovered, ApplyProps, Plan;
    }
  }

  lemma TopRecovered(host: Host, props: Props, existing: Props, updates: Env, keys: seq<string>, env: Env)
    ensures FieldsRecovered(env, SECRET_KEYS, props, AfterPromote(host, props, existing, updates, keys))
       <==> Recovered(env, TopPlan(host, props, existing, updates))
  {
    var after := ApplyProps(props, TopPlan(host, props, existing, updates));
    TopFields(host, props, existing, updates, env);
    NestedNotAField(env, SECRET_KEYS, props, after, AfterPromote(host, props, existing, updates, keys));
    hide FieldsRecovered, Recovered;
  }

  lemma TopFields(host: Host, props: Props, existing: Props, updates: Env, env: Env)
    ensures var plan := TopPlan(host, props, existing, updates);
            FieldsRecovered(env, SECRET_KEYS, props, ApplyProps(props, plan)) <==> Recovered(env, plan)
  {
    SecretKeysDiffer();
    PlanFields(host, false, SECRET_KEYS, props, existing, updates, props, env);
  }

  /** Replacing the nested map changes no literal field. */
  lemma NestedNotAField(env: Env, keys: seq<string>, values: Props, x: Props, y: Props)
    requires forall k | k != SECRETS :: (k in x <==> k in y) && (k in x ==> x[k] == y[k])
    requires x == y || EntriesOf(values, SECRETS).Some?
    ensures FieldsRecovered(env, keys, values, x) <==> FieldsRecovered(env, keys, values, y)
  {
    hide ExpandRef;
    assert forall k | k in values && IsLiteral(values[k]) :: k != SECRETS || EntriesOf(values, SECRETS).None?;
    hide IsLiteral;
  }

  lemma PlannedGood(host: Host, props: Props, existing: Props, updates: Env, keys: seq<string>, c: Change)
    requires NameOk(host.upper, host.conn)
    requires c in TopPlan(host, props, existing, updates) + NestedPlan(host, props, existing, updates, keys)
    ensures GoodChange(host.env, c)
  {
    hide NameOk, Plan, IsLiteral, ExpandRef, IsEnvVarRef, IsVarName;
    if c in TopPlan(host, props, existing, updates) {
      PlanKeys(host, false, SECRET_KEYS, props, existing, updates, c);
    } else {
      PlanKeys(host, true, keys, EntriesOf(props, SECRETS).value, NestedExisting(existing),
               ApplyEnv(updates, TopPlan(host, props, existing, updates)), c);
    }
  }

  lemma RecoveredBoth(env: Env, a: seq<Change>, b: seq<Change>)
    ensures Recovered(env, a + b) <==> Recovered(env, a) && Recovered(env, b)
  {
    assert forall c :: c in a + b <==> c in a || c in b;
  }

  // ----- recovered, judged by the keys

  /** A name of lower-case letters, digits and underscores. */
  predicate LowerName(s: string) {
    forall i | 0 <= i < |s| :: 'a' <= s[i] <= 'z' || IsDigit(s[i]) || s[i] == '_'
  }

  /** Names that need no trimming are sanitized character by character. */
  lemma SanitizeAt(upper: char -> char, s: string)
    requires s == "" || (!IsSpace(s[0]) && !IsSpace(s[|s| - 1]))
    ensures |Sanitize(upper, s)| == |s| && forall i | 0 <= i < |s| :: Sanitize(upper, s)[i] == SanitizeChar(upper, s[i])
  {
    TrimLeftIs(s, IsSpace, 0);
    TrimRightIs(s, IsSpace, |s|);
    assert s[0..] == s && s[..|s|] == s;
  }

  /** Different lower-case names stay different when sanitized. */
  lemma LowerSanitized(upper: char -> char, s: string, t: string)
    requires LowerName(s) && LowerName(t) && Sanitize(upper, s) == Sanitize(upper, t)
    ensures s == t
  {
    SanitizeAt(upper, s);
    SanitizeAt(upper, t);
    hide Sanitize, IsSpace, SanitizeChar;
    forall i | 0 <= i < |s| ensures s[i] == t[i] {
      assert SanitizeChar(upper, s[i]) == SanitizeChar(upper, t[i]);
      LowerCharSanitized(upper, s[i], t[i]);
    }
  }

  lemma LowerCharSanitized(upper: char -> char, c: char, d: char)
    requires ('a' <= c <= 'z' || IsDigit(c) || c == '_') && ('a' <= d <= 'z' || IsDigit(d) || d == '_')
    requires SanitizeChar(upper, c) == SanitizeChar(upper, d)
    ensures c == d
  {
  }

  lemma FirstKeysLower(i: nat, s: string)
    requires i < 8 && s == SECRET_KEYS[i]
    ensures LowerName(s)
  {
  }

  lemma MiddleKeysLower(i: nat, s: string)
    requires 8 <= i < 15 && s == SECRET_KEYS[i]
    ensures LowerName(s)
  {
  }

  lemma LastKeysLower(i: nat, s: string)
    requires 15 <= i < 22 && s == SECRET_KEYS[i]
    ensures LowerName(s)
  {
  }

  /** Different secret fields never share a variable. */
  lemma SecretKeysSanitized(upper: char -> char, s: string, t: string)
    requires s in SECRET_KEYS && t in SECRET_KEYS && Sanitize(upper, s) == Sanitize(upper, t)
    ensures s == t
  {
    var i :| 0 <= i < |SECRET_KEYS| && SECRET_KEYS[i] == s;
    var j :| 0 <= j < |SECRET_KEYS| && SECRET_KEYS[j] == t;
    KeyLower(i, s);
    KeyLower(j, t);
    hide SECRET_KEYS, LowerName;
    LowerSanitized(upper, s, t);
  }

  lemma KeyLower(i: nat, s: string)
    requires i < |SECRET_KEYS| && s == SECRET_KEYS[i]
    ensures LowerName(s)
  {
    hide LowerName;
    if i < 8 { FirstKeysLower(i, s); } else if i < 15 { MiddleKeysLower(i, s); } else { LastKeysLower(i, s); }
  }

  // ----- which variables a plan writes

  function VarOf(host: Host, k: string): string {
    EnvVarNameOf(host.upper, host.conn, k)
  }

  lemma VarsDiffer(host: Host, k: string, l: string)
    ensures VarOf(host, k) == VarOf(host, l) <==> Sanitize(host.upper, k) == Sanitize(host.upper, l)
  {
    var head := Sanitize(host.upper, host.conn) + "_";
    var a, b := Sanitize(host.upper, k), Sanitize(host.upper, l);
    if head + a == head + b { assert (head + a)[|head|..] == a && (head + b)[|head|..] == b; }
  }

  lemma {:induction false} ApplyEnvKeys(updates: Env, plan: seq<Change>, v: string)
    ensures v in ApplyEnv(updates, plan) <==> v in updates || exists c :: c in plan && c.variable == Some(v)
    decreases |plan|
  {
    if plan != [] {
      ApplyEnvKeys(Updated(updates, plan[0]), plan[1..], v);
      assert forall c :: c in plan <==> c == plan[0] || c in plan[1..];
    }
  }

  // ----- three spellings of one name

  const SPELLINGS: seq<string> := ["a-b", "a.b", "a_b"]

  /** Texts that differ only in characters a name cannot have. */
  ghost predicate SameButMarks(upper: char -> char, s: string, t: string) {
    && |s| == |t| && s != "" && t != ""
    && !IsSpace(s[0]) && !IsSpace(s[|s| - 1]) && !IsSpace(t[0]) && !IsSpace(t[|t| - 1])
    && forall i | 0 <= i < |s| :: SanitizeChar(upper, s[i]) == SanitizeChar(upper, t[i])
  }

  lemma SameSanitized(upper: char -> char, s: string, t: string)
    requires SameButMarks(upper, s, t)
    ensures Sanitize(upper, s) == Sanitize(upper, t)
  {
    hide Sanitize, SanitizeChar, IsSpace;
    SanitizeAt(upper, s);
    SanitizeAt(upper, t);
  }

  lemma PathsSame(upper: char -> char, s: string, t: string)
    requires SameButMarks(upper, s, t)
    ensures SameButMarks(upper, SECRETS + "." + s, SECRETS + "." + t)
  {
    hide SanitizeChar;
    var p, q := SECRETS + "." + s, SECRETS + "." + t;
    assert p[0] == SECRETS[0] == q[0] && p[|p| - 1] == s[|s| - 1] && q[|q| - 1] == t[|t| - 1];
    forall i | 0 <= i < |p| ensures SanitizeChar(upper, p[i]) == SanitizeChar(upper, q[i]) {
      if i > |SECRETS| { assert p[i] == s[i - |SECRETS| - 1] && q[i] == t[i - |SECRETS| - 1]; }
    }
  }

  lemma MarksSanitized(upper: char -> char, s: string, t: string)
    requires SameButMarks(upper, s, t)
    ensures Sanitize(upper, s) == Sanitize(upper, t)
    ensures Sanitize(upper, SECRETS + "." + s) == Sanitize(upper, SECRETS + "." + t)
  {
    hide *;
    SameSanitized(upper, s, t);
    PathsSame(upper, s, t);
    SameSanitized(upper, SECRETS + "." + s, SECRETS + "." + t);
  }

  lemma SpellingsAscend()
    ensures Ascending(SPELLINGS)
  {
    LessAt(SPELLINGS[0], SPELLINGS[1], 1);
    LessAt(SPELLINGS[1], SPELLINGS[2], 1);
    hide Less;
    StepsAscend(SPELLINGS);
  }

  /** Some secret does not expand to what it was, where nothing is on disk and
      no variable is set yet. */
  ghost predicate SomeLost(host: Host, props: Props, keys: seq<string>) {
    var plan := TopPlan(host, props, map[], map[]) + NestedPlan(host, props, map[], map[], keys);
    !AllRecovered(host.env + ApplyEnv(map[], plan), props, AfterPromote(host, props, map[], map[], keys), keys)
  }

  /** Nested secrets under "a-b", "a.b" and "a_b": the last takes the variable of
      the second, whose value is lost. */
  lemma ThreeSpellings(host: Host, entries: Props)
    requires NameOk(host.upper, host.conn)
    requires entries.Keys == SetOf(SPELLINGS) && forall k | k in entries :: IsLiteral(entries[k])
    requires "a.b" in entries && "a_b" in entries && ToText(entries["a.b"]) != ToText(entries["a_b"])
    ensures Ascending(SPELLINGS) && SomeLost(host, map[SECRETS := Nested(true, entries)], SPELLINGS)
  {
    SpellingsFit(host.upper);
    hide NameOk, IsLiteral, ToText, SomeLost, Sanitize, Ascending;
    assert SPELLINGS == ["a-b", "a.b", "a_b"] && "a-b" in SPELLINGS;
    SecondIsLost(host, entries, "a-b", "a.b", "a_b");
  }

  lemma SpellingsFit(upper: char -> char)
    ensures Ascending(SPELLINGS)
    ensures Sanitize(upper, "a-b") == Sanitize(upper, "a.b") == Sanitize(upper, "a_b")
    ensures Sanitize(upper, SECRETS + "." + "a.b") == Sanitize(upper, SECRETS + "." + "a_b")
  {
    SpellingsAscend();
    hide Sanitize, Ascending;
    MarksSanitized(upper, "a-b", "a.b");
    MarksSanitized(upper, "a.b", "a_b");
  }

  /** Three nested keys with one sanitized name, the last two with one sanitized
      path: not all are recovered. */
  lemma SecondIsLost(host: Host, entries: Props, a: string, b: string, c: string)
    requires NameOk(host.upper, host.conn) && Ascending([a, b, c]) && entries.Keys == SetOf([a, b, c])
    requires a in entries && b in entries && c in entries
    requires IsLiteral(entries[a]) && IsLiteral(entries[b]) && IsLiteral(entries[c])
             && ToText(entries[b]) != ToText(entries[c])
    requires Sanitize(host.upper, a) == Sanitize(host.upper, b) == Sanitize(host.upper, c)
    requires Sanitize(host.upper, SECRETS + "." + b) == Sanitize(host.upper, SECRETS + "." + c)
    ensures SomeLost(host, map[SECRETS := Nested(true, entries)], [a, b, c])
  {
    var props: Props := map[SECRETS := Nested(true, entries)];
    NoTopPlan(host, props);
    SharedVariable(host, entries, a, b, c);
    LostBy(host, entries, props, [a, b, c]);
  }

  lemma LostBy(host: Host, entries: Props, props: Props, keys: seq<string>)
    requires NameOk(host.upper, host.conn) && Ascending(keys) && SetOf(keys) == entries.Keys
    requires props == map[SECRETS := Nested(true, entries)] && TopPlan(host, props, map[], map[]) == []
    requires !Consistent(map[], Plan(host, true, keys, entries, map[], map[]))
    ensures SomeLost(host, props, keys)
  {
    hide IsLiteral, NameOk, Plan, Consistent, AllRecovered, AfterPromote, NoRepeats, Ascending, SECRET_KEYS, TopPlan;
    AscendingNoRepeats(keys);
    var none: seq<Change> := [];
    var nested: seq<Change> := Plan(host, true, keys, entries, map[], map[]);
    assert NestedPlan(host, props, map[], map[], keys) == nested;
    assert none + nested == nested;
    SecretsRecovered(host, props, map[], map[], keys);
  }

  lemma NoTopPlan(host: Host, props: Props)
    requires props.Keys == {SECRETS}
    ensures TopPlan(host, props, map[], map[]) == []
  {
    NotSecretKeys();
    NoSuchFields(host, SECRET_KEYS, props);
  }

  lemma {:induction false} NoSuchFields(host: Host, keys: seq<string>, values: Props)
    requires forall k | k in keys :: k !in values
    ensures Plan(host, false, keys, values, map[], map[]) == []
  {
    if keys != [] { NoSuchFields(host, keys[1..], values); }
  }

  /** Three nested keys with one sanitized name, the last two with one
      sanitized path. */
  lemma SharedVariable(host: Host, entries: Props, a: string, b: string, c: string)
    requires a in entries && b in entries && c in entries
    requires IsLiteral(entries[a]) && IsLiteral(entries[b]) && IsLiteral(entries[c])
             && ToText(entries[b]) != ToText(entries[c])
    requires Sanitize(host.upper, a) == Sanitize(host.upper, b) == Sanitize(host.upper, c)
    requires Sanitize(host.upper, SECRETS + "." + b) == Sanitize(host.upper, SECRETS + "." + c)
    ensures !Consistent(map[], Plan(host, true, [a, b, c], entries, map[], map[]))
  {
    hide IsLiteral, Sanitize;
    var p1, p2 := [b, c], [c];
    assert [a] + p1 == [a, b, c] && [b] + p2 == p1 && [c] + [] == p2;
    var ca := ChangeFor(host, true, a, entries[a], map[], map[]);
    var env1 := Updated(map[], ca);
    var cb := ChangeFor(host, true, b, entries[b], map[], env1);
    var env2 := Updated(env1, cb);
    var plan := Plan(host, true, [a, b, c], entries, map[], map[]);
    var plan1 := Plan(host, true, p1, entries, map[], env1);
    hide Plan;
    PlanNext(host, true, a, p1, entries, map[], map[], map[], [], plan);
    PlanHead(host, true, p1, entries, map[], env1);
    PlanNext(host, true, b, p2, entries, map[], env1, map[], [], plan1);
    PlanHead(host, true, p2, entries, map[], env2);
    assert EnvVarNameOf(host.upper, host.conn, a) in env2;
    assert plan[1] == plan1[0] && plan[2] == plan1[1];
    assert plan[1].variable == plan[2].variable && plan[1].variable.Some? && plan[1].value != plan[2].value;
  }
}
