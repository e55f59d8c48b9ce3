/** Literal secrets of a connection: their promotion to references to
    environment variables, and the check that refuses literals. */
module Secrets {
  import opened Text
  import opened Sequences
  import opened Names

  /** A connection property: nil, a string, another scalar with its text, or a
      nested map; shared tells a map that is written to in place from one that
      is converted, and so copied, when it is read. */
  datatype Prop = Nil | Str(text: string) | Scalar(text: string) | Nested(shared: bool, entries: map<string, Prop>)

  type Props = map<string, Prop>
  type Env = map<string, string>

  const SECRET_KEYS: seq<string> := [
    "access_key_id", "account_key", "aws_access_key_id", "aws_secret_access_key", "aws_session_token",
    "azure_account_key", "azure_sas_token", "conn_str", "gcp_credentials_json", "gcs_secret_access_key",
    "password", "rest_oauth_client_secret", "rest_token", "s3_secret_access_key", "s3_session_token",
    "sas_svc_url", "sas_token", "secret_access_key", "session_token", "ssh_passphrase", "ssh_private_key", "token"]

  const SECRETS := "secrets"
  const INPUTS := "inputs"

  // ----- names of variables and references to them

  predicate IsUpper(c: char) { 'A' <= c <= 'Z' }
  predicate IsDigit(c: char) { '0' <= c <= '9' }

  predicate IsVarName(s: string) {
    s != "" && !IsDigit(s[0]) && forall i | 0 <= i < |s| :: IsUpper(s[i]) || IsDigit(s[i]) || s[i] == '_'
  }

  /** upper is upper-casing outside ASCII. */
  function Upper(upper: char -> char, c: char): char {
    if 'a' <= c <= 'z' then (c as int - 32) as char else if c < '\U{0080}' then c else upper(c)
  }

  function SanitizeChar(upper: char -> char, c: char): char {
    var u := Upper(upper, c);
    if IsUpper(u) || IsDigit(u) then u else '_'
  }

  function Sanitize(upper: char -> char, s: string): (r: string)
    ensures forall i | 0 <= i < |r| :: IsUpper(r[i]) || IsDigit(r[i]) || r[i] == '_'
  {
    var t := TrimSpace(s);
    seq(|t|, i requires 0 <= i < |t| => SanitizeChar(upper, t[i]))
  }

  function EnvVarNameOf(upper: char -> char, conn: string, key: string): string {
    Sanitize(upper, conn) + "_" + Sanitize(upper, key)
  }

  /** The name of a connection can start a variable's name. */
  predicate NameOk(upper: char -> char, conn: string) {
    var part := Sanitize(upper, conn);
    part == "" || !IsDigit(part[0])
  }

  function RefTo(name: string): string {
    "${" + name + "}"
  }

  /** The variable a text refers to, if the whole text is one reference. */
  function RefName(s: string): Option<string> {
    var t := TrimSpace(s);
    if |t| > 3 && t[..2] == "${" && t[|t| - 1] == '}' && IsVarName(t[2..|t| - 1]) then Some(t[2..|t| - 1]) else None
  }

  predicate IsEnvVarRef(s: string) {
    RefName(s).Some?
  }

  function ExpandRef(env: Env, s: string): string {
    var name := RefName(s);
    if name.Some? && name.value in env then env[name.value] else s
  }

  lemma RefNameOf(name: string)
    ensures RefName(RefTo(name)) == if IsVarName(name) then Some(name) else None
  {
    var t := RefTo(name);
    assert t[0] == '$' && t[|t| - 1] == '}';
    TrimLeftIs(t, IsSpace, 0);
    TrimRightIs(t, IsSpace, |t|);
    assert t[2..|t| - 1] == name && t[..2] == "${";
  }

  /** A variable made for a secret has a proper name exactly when the
      connection's name allows it. */
  lemma GeneratedName(upper: char -> char, conn: string, key: string)
    ensures IsVarName(EnvVarNameOf(upper, conn, key)) <==> NameOk(upper, conn)
  {
    var part, name := Sanitize(upper, conn), EnvVarNameOf(upper, conn, key);
    assert name[0] == if part == "" then '_' else part[0];
  }

  // ----- literals

  function ToText(p: Prop): string {
    match p
    case Str(text) => text
    case Scalar(text) => text
    case _ => ""
  }

  predicate IsLiteral(p: Prop) {
    !p.Nil? && !p.Nested? && TrimSpace(ToText(p)) != "" && !IsEnvVarRef(TrimSpace(ToText(p)))
  }

  predicate AllSpace(s: string) {
    forall i | 0 <= i < |s| :: IsSpace(s[i])
  }

  lemma TrimmedIs(left: string, text: string, right: string)
    requires AllSpace(left) && AllSpace(right) && (text != "" ==> !IsSpace(text[0]) && !IsSpace(text[|text| - 1]))
    ensures TrimSpace(left + text + right) == text
  {
    var all := left + text + right;
    if text == "" {
      TrimLeftIs(all, IsSpace, |all|);
      assert all[|all|..] == [];
    } else {
      TrimLeftIs(all, IsSpace, |left|);
      assert all[|left|..] == text + right;
      TrimRightIs(text + right, IsSpace, |text|);
      assert (text + right)[..|text|] == text;
    }
  }

  lemma RefNameIs(t: string, name: string)
    requires t != "" ==> !IsSpace(t[0]) && !IsSpace(t[|t| - 1])
    ensures RefName(t) == Some(name) <==> IsVarName(name) && t == RefTo(name)
  {
    hide TrimSpace, IsSpace, IsVarName;
    TrimmedIs("", t, "");
    assert "" + t + "" == t;
    if IsVarName(name) && t == RefTo(name) { RefNameOf(name); }
    if RefName(t) == Some(name) { assert t == t[..2] + t[2..|t| - 1] + [t[|t| - 1]]; }
  }

  /** A text, of a string or any other scalar, is a literal exactly if without
      the space around it it is neither empty nor one whole reference; nil and
      nested maps are none. */
  lemma LiteralIs(left: string, text: string, right: string, entries: Props)
    requires AllSpace(left) && AllSpace(right) && (text != "" ==> !IsSpace(text[0]) && !IsSpace(text[|text| - 1]))
    ensures !IsLiteral(Nil) && !IsLiteral(Nested(true, entries)) && !IsLiteral(Nested(false, entries))
    ensures forall p | p == Str(left + text + right) || p == Scalar(left + text + right) ::
              IsLiteral(p) <==> text != "" && forall name | IsVarName(name) :: text != "${" + name + "}"
  {
    TrimmedIs(left, text, right);
    hide IsVarName, RefName, TrimSpace, IsSpace;
    if RefName(text).Some? { RefNameIs(text, RefName(text).value); }
    forall name | IsVarName(name) && text == "${" + name + "}" ensures RefName(text).Some? { RefNameIs(text, name); }
  }

  function EntriesOf(props: Props, key: string): Option<Props> {
    if key in props && props[key].Nested? then Some(props[key].entries) else None
  }

  /** The reference on disk for a field, when it expands to the literal. */
  function ExistingRefFor(existing: Props, key: string, literal: string, env: Env): Option<string> {
    if key in existing && existing[key].Str? && IsEnvVarRef(existing[key].text) && literal != ""
       && ExpandRef(env, existing[key].text) == literal
    then Some(existing[key].text) else None
  }

  /** A nested map given as text, read as a map. */
  function ReadField(props: Props, field: string, parse: string -> Option<Props>): Option<Props> {
    if field !in props || !props[field].Str? || TrimSpace(props[field].text) == "" then Some(props)
    else match parse(props[field].text)
      case None => None
      case Some(m) => Some(props[field := Nested(true, m)])
  }

  function ReadProps(props: Props, parse: string -> Option<Props>): Option<Props> {
    match ReadField(props, SECRETS, parse)
    case None => None
    case Some(read) => ReadField(read, INPUTS, parse)
  }

  // ----- the specification

  /** A literal becomes a reference: a kept one, or one to a variable set to
      the value. */
  datatype Change = Change(key: string, ref: string, variable: Option<string>, value: string)

  /** What promotion is given besides the properties: the connection's name,
      the process environment, and upper-casing. */
  datatype Host = Host(conn: string, env: Env, upper: char -> char)

  /** The variable for a field: nested ones fall back to their path when the
      short name is taken. */
  function VariableFor(host: Host, nested: bool, key: string, updates: Env): string {
    var name := EnvVarNameOf(host.upper, host.conn, key);
    if nested && name in updates then EnvVarNameOf(host.upper, host.conn, SECRETS + "." + key) else name
  }

  function ChangeFor(host: Host, nested: bool, key: string, p: Prop, existing: Props, updates: Env): Change {
    var kept := ExistingRefFor(existing, key, ToText(p), host.env);
    if kept.Some? then Change(key, kept.value, None, ToText(p))
    else
      var name := VariableFor(host, nested, key, updates);
      Change(key, RefTo(name), Some(name), ToText(p))
  }

  function Updated(updates: Env, c: Change): Env {
    if c.variable.Some? then updates[c.variable.value := c.value] else updates
  }

  /** The changes for the literals among some keys, in order. */
  function Plan(host: Host, nested: bool, keys: seq<string>, props: Props, existing: Props, updates: Env): seq<Change> {
    if keys == [] then []
    else if keys[0] !in props || !IsLiteral(props[keys[0]]) then Plan(host, nested, keys[1..], props, existing, updates)
    else
      var c := ChangeFor(host, nested, keys[0], props[keys[0]], existing, updates);
      [c] + Plan(host, nested, keys[1..], props, existing, Updated(updates, c))
  }

  function ApplyEnv(updates: Env, plan: seq<Change>): Env
    decreases |plan|
  {
    if plan == [] then updates else ApplyEnv(Updated(updates, plan[0]), plan[1..])
  }

  function ApplyProps(props: Props, plan: seq<Change>): Props
    decreases |plan|
  {
    if plan == [] then props else ApplyProps(props[plan[0].key := Str(plan[0].ref)], plan[1..])
  }

  // ----- the operations

  /** The keys of a map in order. */
  method SortedKeys(m: Props) returns (keys: seq<string>)
    ensures Ascending(keys) && SetOf(keys) == m.Keys
  {
    var left := m.Keys;
    var all: seq<string> := [];
    while left != {}
      invariant left <= m.Keys && NoRepeats(all) && SetOf(all) == m.Keys - left
    {
      var k :| k in left;
      NoRepeatsSnoc(all, k);
      SetOfSnoc(all, k);
      all := all + [k];
      left := left - {k};
    }
    keys := SortNames(all);
    SortAscends(all);
    forall k ensures k in keys <==> k in all { SortMembers(all, k); }
    assert SetOf(keys) == SetOf(all);
  }

  class Promotion {
    const host: Host
    var props: Props
    var envUpdates: Env

    constructor (host: Host, props: Props, envUpdates: Env)
      ensures this.host == host && this.props == props && this.envUpdates == envUpdates
    {
      this.host, this.props, this.envUpdates := host, props, envUpdates;
    }

    /** Replaces the literals among some of the values by references. */
    method PromoteFields(
      nested: bool, keys: seq<string>, values: Props, existing: Props) returns (after: Props, promoted: seq<string>)
      requires NoRepeats(keys)
      modifies this`envUpdates
      ensures after == ApplyProps(values, Plan(host, nested, keys, values, existing, old(envUpdates)))
      ensures envUpdates == ApplyEnv(old(envUpdates), Plan(host, nested, keys, values, existing, old(envUpdates)))
      ensures promoted == PromotedOf(nested, Plan(host, nested, keys, values, existing, old(envUpdates)))
    {
      after, promoted := values, [];
      ghost var updates0 := envUpdates;
      assert keys[0..] == keys;
      assert Progress(host, nested, keys, values, existing, keys, envUpdates, updates0, after, promoted);
      hide Progress, IsLiteral, ApplyEnv, ApplyProps, PromotedOf, Plan, ChangeFor, Updated, PathOf;
      for i := 0 to |keys|
        invariant Progress(host, nested, keys, values, existing, keys[i..], envUpdates, updates0, after, promoted)
      {
        var k := keys[i];
        ghost var rest := keys[i + 1..];
        assert keys[i..] == [k] + rest;
        ProgressField(host, nested, keys, values, existing, k, rest, envUpdates, updates0, after, promoted);
        if k !in after || !IsLiteral(after[k]) { continue; }
        var c := Reference(nested, k, after[k], existing);
        after := after[k := Str(c.ref)];
        if c.variable.Some? {
          promoted := promoted + [PathOf(nested, k)];
        }
      }
      assert keys[|keys|..] == [];
      ProgressDone(host, nested, keys, values, existing, envUpdates, updates0, after, promoted);
    }

    /** Replaces every literal secret by a reference. */
    method PromoteLiteralSecrets(existing: Props) returns (promoted: seq<string>, ghost keys: seq<string>)
      modifies this
      ensures Ascending(keys)
      ensures SECRETS in old(props) && old(props)[SECRETS].Nested? ==> SetOf(keys) == old(props)[SECRETS].entries.Keys
      ensures props == AfterPromote(host, old(props), existing, old(envUpdates), keys)
      ensures envUpdates == ApplyEnv(ApplyEnv(old(envUpdates), TopPlan(host, old(props), existing, old(envUpdates))),
                                     NestedPlan(host, old(props), existing, old(envUpdates), keys))
      ensures promoted == PromotedOf(false, TopPlan(host, old(props), existing, old(envUpdates)))
                        + PromotedOf(true, NestedPlan(host, old(props), existing, old(envUpdates), keys))
    {
      keys := [];
      ghost var props0, updates0 := props, envUpdates;
      SecretKeysDiffer();
      assert Ascending(keys);
      hide ApplyProps, ApplyEnv, Plan, PromotedOf, IsLiteral, NoRepeats, Ascending;
      var after, top := PromoteFields(false, SECRET_KEYS, props, existing);
      props := after;
      promoted := top;
      NestedKept(host, props0, existing, updates0);
      var secrets := EntriesOf(props, SECRETS);
      if secrets.None? {
        NoNestedPlan(host, props0, existing, updates0);
        assert promoted + [] == promoted;
        return;
      }
      var entries, nested;
      entries, nested, keys := PromoteNested(secrets.value, NestedExisting(existing));
      if props[SECRETS].shared {
        props := props[SECRETS := Nested(true, entries)];
      }
      promoted := promoted + nested;
    }

    method PromoteNested(
      secrets: Props, existing: Props) returns (entries: Props, promoted: seq<string>, ghost keys: seq<string>)
      modifies this`envUpdates
      ensures Ascending(keys) && SetOf(keys) == secrets.Keys
      ensures var plan := Plan(host, true, keys, secrets, existing, old(envUpdates));
              entries == ApplyProps(secrets, plan) && envUpdates == ApplyEnv(old(envUpdates), plan)
                && promoted == PromotedOf(true, plan)
    {
      hide ApplyProps, ApplyEnv, Plan, PromotedOf, IsLiteral;
      var sorted := SortedKeys(secrets);
      keys := sorted;
      AscendingNoRepeats(sorted);
      entries, promoted := PromoteFields(true, sorted, secrets, existing);
    }

    /** Refuses literals, once the nested maps given as text are parsed. */
    method RejectLiteralSecrets(parse: string -> Option<Props>) returns (ok: bool)
      modifies this`props
      ensures ok <==> ReadProps(old(props), parse).Some? && NoLiterals(ReadProps(old(props), parse).value)
      ensures ReadProps(old(props), parse).Some? ==> props == ReadProps(old(props), parse).value
    {
      ok := Normalize(SECRETS, parse);
      if !ok { return; }
      ok := Normalize(INPUTS, parse);
      if !ok { return; }
      var literals := LiteralsAmong(false, SECRET_KEYS, props);
      var secrets := EntriesOf(props, SECRETS);
      hide IsLiteral, Normalized, Ascending, ReadField;
      if secrets.Some? {
        var keys := SortedKeys(secrets.value);
        var nested := LiteralsAmong(true, keys, secrets.value);
        forall k | k in secrets.value ensures k in keys { assert k in SetOf(keys); }
        literals := literals + nested;
      }
      ok := literals == [];
    }

    method LiteralsAmong(nested: bool, keys: seq<string>, values: Props) returns (literals: seq<string>)
      ensures literals == [] <==> forall k | k in keys && k in values :: !IsLiteral(values[k])
    {
      literals := [];
      hide IsLiteral;
      for i := 0 to |keys|
        invariant literals == [] <==> forall k | k in keys[..i] && k in values :: !IsLiteral(values[k])
      {
        assert keys[..i + 1] == keys[..i] + [keys[i]];
        if keys[i] in values && IsLiteral(values[keys[i]]) {
          literals := literals + [PathOf(nested, keys[i])];
        }
      }
      assert keys[..|keys|] == keys;
    }

    method Normalize(field: string, parse: string -> Option<Props>) returns (ok: bool)
      modifies this`props
      ensures ok == ReadField(old(props), field, parse).Some?
      ensures props == if ok then ReadField(old(props), field, parse).value else old(props)
    {
      if field !in props || !props[field].Str? || TrimSpace(props[field].text) == "" {
        return true;
      }
      var parsed := parse(props[field].text);
      if parsed.None? {
        return false;
      }
      props := props[field := Nested(true, parsed.value)];
      ok := true;
    }

    /** The reference for one literal; it records the value unless the one on
        disk will do. */
    method Reference(nested: bool, key: string, p: Prop, existing: Props) returns (c: Change)
      modifies this`envUpdates
      ensures c == ChangeFor(host, nested, key, p, existing, old(envUpdates))
      ensures envUpdates == Updated(old(envUpdates), c)
    {
      var literal := ToText(p);
      var ref := ExistingRefFor(existing, key, literal, host.env);
      if ref.Some? {
        return Change(key, ref.value, None, literal);
      }
      var name := EnvVarNameOf(host.upper, host.conn, key);
      if nested && name in envUpdates {
        name := EnvVarNameOf(host.upper, host.conn, SECRETS + "." + key);
      }
      envUpdates := envUpdates[name := literal];
      c := Change(key, RefTo(name), Some(name), literal);
    }
  }

  /** The fields with these keys are as they were. */
  ghost predicate Untouched(keys: seq<string>, values: Props, after: Props) {
    forall k | k in keys :: (k in after <==> k in values) && (k in values ==> after[k] == values[k])
  }

  lemma UntouchedNext(keys: seq<string>, i: nat, values: Props, before: Props, after: Props)
    requires i < |keys| && NoRepeats(keys) && Untouched(keys[i..], values, before)
    requires forall k | k != keys[i] :: (k in after <==> k in before) && (k in before ==> after[k] == before[k])
    ensures Untouched(keys[i + 1..], values, after)
    ensures keys[i] in before <==> keys[i] in values
    ensures keys[i] in values ==> before[keys[i]] == values[keys[i]]
  {
    assert keys[i] in keys[i..];
    forall k | k in keys[i + 1..] ensures k in keys[i..] && k != keys[i] {
      var j :| 0 <= j < |keys[i + 1..]| && keys[i + 1..][j] == k;
      assert keys[i..][j + 1] == k && keys[i + 1 + j] == k;
    }
  }

  function PathOf(nested: bool, key: string): string {
    if nested then SECRETS + "." + key else key
  }

  /** The paths of the fields that got a variable. */
  function PromotedOf(nested: bool, plan: seq<Change>): seq<string> {
    if plan == [] then [] else
      (if plan[0].variable.Some? then [PathOf(nested, plan[0].key)] else []) + PromotedOf(nested, plan[1..])
  }

  /** With the rest of the keys still to come, what has been done and what is
      planned for them is the whole plan. */
  ghost predicate Progress(host: Host, nested: bool, keys: seq<string>, values: Props, existing: Props,
                           rest: seq<string>,
                           updates: Env, updates0: Env, after: Props, promoted: seq<string>) {
    var plan, todo :=
        Plan(host, nested, keys, values, existing, updates0), Plan(host, nested, rest, values, existing, updates);
    && NoRepeats(rest) && Untouched(rest, values, after)
    && ApplyProps(after, todo) == ApplyProps(values, plan)
    && ApplyEnv(updates, todo) == ApplyEnv(updates0, plan)
    && promoted + PromotedOf(nested, todo) == PromotedOf(nested, plan)
  }

  lemma ProgressField(host: Host, nested: bool, keys: seq<string>, values: Props, existing: Props, k: string,
                      rest: seq<string>,
                      updates: Env, updates0: Env, after: Props, promoted: seq<string>)
    requires Progress(host, nested, keys, values, existing, [k] + rest, updates, updates0, after, promoted)
    ensures if k !in after || !IsLiteral(after[k])
            then Progress(host, nested, keys, values, existing, rest, updates, updates0, after, promoted)
            else var c := ChangeFor(host, nested, k, after[k], existing, updates);
                 Progress(host, nested, keys, values, existing, rest, Updated(updates, c), updates0,
                          after[k := Str(c.ref)],
                          if c.variable.Some? then promoted + [PathOf(nested, k)] else promoted)
  {
    var all := [k] + rest;
    hide IsLiteral, ApplyEnv, ApplyProps, PromotedOf, Plan, ChangeFor, Updated, PathOf, NoRepeats, Untouched;
    assert all[0..] == all && all[1..] == rest;
    RestOnce(k, rest);
    UntouchedNext(all, 0, values, after, after);
    if k !in after || !IsLiteral(after[k]) {
      PlanSkips(host, nested, k, rest, values, existing, updates);
    } else {
      var c := ChangeFor(host, nested, k, after[k], existing, updates);
      PlanNext(host, nested, k, rest, values, existing, updates, after, promoted,
               Plan(host, nested, all, values, existing, updates));
      UntouchedNext(all, 0, values, after, after[k := Str(c.ref)]);
      assert promoted + [] == promoted;
    }
  }

  lemma RestOnce(k: string, rest: seq<string>)
    requires NoRepeats([k] + rest)
    ensures NoRepeats(rest) && k !in rest
  {
    assert ([k] + rest)[1..] == rest;
    FirstOnce([k] + rest);
  }

  lemma ProgressDone(host: Host, nested: bool, keys: seq<string>, values: Props, existing: Props,
                     updates: Env, updates0: Env, after: Props, promoted: seq<string>)
    requires Progress(host, nested, keys, values, existing, [], updates, updates0, after, promoted)
    ensures var plan := Plan(host, nested, keys, values, existing, updates0);
            after == ApplyProps(values, plan) && updates == ApplyEnv(updates0, plan)
              && promoted == PromotedOf(nested, plan)
  {
    assert promoted + [] == promoted;
  }

  lemma PlanSkips(host: Host, nested: bool, k: string, rest: seq<string>, values: Props, existing: Props, updates: Env)
    requires k !in values || !IsLiteral(values[k])
    ensures Plan(host, nested, [k] + rest, values, existing, updates)
            == Plan(host, nested, rest, values, existing, updates)
  {
    assert ([k] + rest)[1..] == rest;
  }

  lemma PlanNext(host: Host, nested: bool, k: string, rest: seq<string>, values: Props, existing: Props, updates: Env,
                 after: Props, promoted: seq<string>, todo: seq<Change>)
    requires todo == Plan(host, nested, [k] + rest, values, existing, updates) && k in values && IsLiteral(values[k])
    ensures var c := ChangeFor(host, nested, k, values[k], existing, updates);
            && todo != []
            && todo[1..] == Plan(host, nested, rest, values, existing, Updated(updates, c))
            && ApplyProps(after, todo) == ApplyProps(after[k := Str(c.ref)], todo[1..])
            && ApplyEnv(updates, todo) == ApplyEnv(Updated(updates, c), todo[1..])
            && promoted + PromotedOf(nested, todo)
               == (promoted + if c.variable.Some? then [PathOf(nested, k)] else []) + PromotedOf(nested, todo[1..])
  {
    assert ([k] + rest)[1..] == rest;
    var c := ChangeFor(host, nested, k, values[k], existing, updates);
    assert todo == [c] + Plan(host, nested, rest, values, existing, Updated(updates, c));
    Regroup(promoted, if c.variable.Some? then [PathOf(nested, k)] else [], PromotedOf(nested, todo[1..]));
  }

  predicate NormalizedField(props: Props, field: string) {
    field in props && props[field].Str? ==> TrimSpace(props[field].text) == ""
  }

  /** No nested map is given as text. */
  predicate Normalized(props: Props) {
    NormalizedField(props, SECRETS) && NormalizedField(props, INPUTS)
  }

  predicate NoLiterals(props: Props) {
    && (forall k | k in SECRET_KEYS && k in props :: !IsLiteral(props[k]))
    && NoNestedLiterals(props)
  }

  predicate NoNestedLiterals(props: Props) {
    EntriesOf(props, SECRETS).Some? ==>
      forall k | k in EntriesOf(props, SECRETS).value :: !IsLiteral(EntriesOf(props, SECRETS).value[k])
  }

  // ----- the whole of a promotion

  function TopPlan(host: Host, props: Props, existing: Props, updates: Env): seq<Change> {
    Plan(host, false, SECRET_KEYS, props, existing, updates)
  }

  function NestedPlan(host: Host, props: Props, existing: Props, updates: Env, keys: seq<string>): seq<Change> {
    var secrets := EntriesOf(props, SECRETS);
    if secrets.None? then [] else
      Plan(host, true, keys, secrets.value, NestedExisting(existing),
           ApplyEnv(updates, TopPlan(host, props, existing, updates)))
  }

  /** The properties after promotion; a nested map that was converted when it
      was read keeps its literals. */
  function AfterPromote(host: Host, props: Props, existing: Props, updates: Env, keys: seq<string>): Props {
    var after := ApplyProps(props, TopPlan(host, props, existing, updates));
    var secrets := EntriesOf(props, SECRETS);
    if secrets.Some? && props[SECRETS].shared
    then after[SECRETS := Nested(true, ApplyProps(secrets.value, NestedPlan(host, props, existing, updates, keys)))]
    else after
  }

  lemma NoNestedPlan(host: Host, props: Props, existing: Props, updates: Env)
    requires EntriesOf(props, SECRETS).None?
    ensures NestedPlan(host, props, existing, updates, []) == []
    ensures ApplyEnv(ApplyEnv(updates, TopPlan(host, props, existing, updates)), [])
            == ApplyEnv(updates, TopPlan(host, props, existing, updates))
    ensures PromotedOf(true, []) == []
  {
  }

  lemma {:induction false} OthersKept(plan: seq<Change>, props: Props, key: string)
    ensures if forall c | c in plan :: c.key != key
            then (key in ApplyProps(props, plan) <==> key in props)
                 && (key in props ==> ApplyProps(props, plan)[key] == props[key])
            else key in ApplyProps(props, plan) && ApplyProps(props, plan)[key].Str?
    decreases |plan|
  {
    if plan != [] {
      assert forall c :: c in plan <==> c == plan[0] || c in plan[1..];
      OthersKept(plan[1..], props[plan[0].key := Str(plan[0].ref)], key);
    }
  }

  lemma {:induction false} PlanKeys(
    host: Host, nested: bool, keys: seq<string>, values: Props, existing: Props, updates: Env, c: Change)
    requires c in Plan(host, nested, keys, values, existing, updates)
    ensures c.key in keys && c.key in values && IsLiteral(values[c.key]) && c.value == ToText(values[c.key])
    ensures c.variable.None? ==> IsEnvVarRef(c.ref) && ExpandRef(host.env, c.ref) == c.value
    ensures c.variable.Some? ==>
              c.ref == RefTo(c.variable.value) && (IsVarName(c.variable.value) <==> NameOk(host.upper, host.conn))
  {
    hide IsLiteral, EnvVarNameOf, NameOk, IsEnvVarRef, ExpandRef;
    if keys[0] !in values || !IsLiteral(values[keys[0]]) {
      PlanKeys(host, nested, keys[1..], values, existing, updates, c);
    } else {
      var head := ChangeFor(host, nested, keys[0], values[keys[0]], existing, updates);
      if c == head {
        GeneratedName(host.upper, host.conn, keys[0]);
        GeneratedName(host.upper, host.conn, SECRETS + "." + keys[0]);
      } else {
        PlanKeys(host, nested, keys[1..], values, existing, Updated(updates, head), c);
      }
    }
  }

  lemma NestedKept(host: Host, props: Props, existing: Props, updates: Env)
    ensures var after := ApplyProps(props, TopPlan(host, props, existing, updates));
            EntriesOf(after, SECRETS) == EntriesOf(props, SECRETS)
            && (EntriesOf(props, SECRETS).Some? ==> SECRETS in after && after[SECRETS] == props[SECRETS])
  {
    var plan := TopPlan(host, props, existing, updates);
    OthersKept(plan, props, SECRETS);
    hide ApplyProps;
    if c :| c in plan && c.key == SECRETS {
      PlanKeys(host, false, SECRET_KEYS, props, existing, updates, c);
    }
  }

  lemma FirstKeysAscend(i: nat)
    requires 0 <= i < 11
    ensures Less(SECRET_KEYS[i], SECRET_KEYS[i + 1])
  {
    hide Less;
    match i {
      case 0 => LessAt(SECRET_KEYS[0], SECRET_KEYS[1], 3);
      case 1 => LessAt(SECRET_KEYS[1], SECRET_KEYS[2], 1);
      case 2 => LessAt(SECRET_KEYS[2], SECRET_KEYS[3], 4);
      case 3 => LessAt(SECRET_KEYS[3], SECRET_KEYS[4], 6);
      case 4 => LessAt(SECRET_KEYS[4], SECRET_KEYS[5], 1);
      case 5 => LessAt(SECRET_KEYS[5], SECRET_KEYS[6], 6);
      case 6 => LessAt(SECRET_KEYS[6], SECRET_KEYS[7], 0);
      case 7 => LessAt(SECRET_KEYS[7], SECRET_KEYS[8], 0);
      case 8 => LessAt(SECRET_KEYS[8], SECRET_KEYS[9], 2);
      case 9 => LessAt(SECRET_KEYS[9], SECRET_KEYS[10], 0);
      case 10 => LessAt(SECRET_KEYS[10], SECRET_KEYS[11], 0);
    }
  }

  lemma LastKeysAscend(i: nat)
    requires 11 <= i < 21
    ensures Less(SECRET_KEYS[i], SECRET_KEYS[i + 1])
  {
    hide Less;
    match i {
      case 11 => LessAt(SECRET_KEYS[11], SECRET_KEYS[12], 5);
      case 12 => LessAt(SECRET_KEYS[12], SECRET_KEYS[13], 0);
      case 13 => LessAt(SECRET_KEYS[13], SECRET_KEYS[14], 5);
      case 14 => LessAt(SECRET_KEYS[14], SECRET_KEYS[15], 1);
      case 15 => LessAt(SECRET_KEYS[15], SECRET_KEYS[16], 4);
      case 16 => LessAt(SECRET_KEYS[16], SECRET_KEYS[17], 1);
      case 17 => LessAt(SECRET_KEYS[17], SECRET_KEYS[18], 2);
      case 18 => LessAt(SECRET_KEYS[18], SECRET_KEYS[19], 1);
      case 19 => LessAt(SECRET_KEYS[19], SECRET_KEYS[20], 5);
      case 20 => LessAt(SECRET_KEYS[20], SECRET_KEYS[21], 0);
    }
  }

  lemma SecretKeysDiffer()
    ensures NoRepeats(SECRET_KEYS)
  {
    SecretKeysOrdered();
    AscendingNoRepeats(SECRET_KEYS);
  }

  lemma SecretKeysOrdered()
    ensures Ascending(SECRET_KEYS)
  {
    forall i | 0 <= i < |SECRET_KEYS| - 1 ensures Less(SECRET_KEYS[i], SECRET_KEYS[i + 1]) {
      if i < 11 { FirstKeysAscend(i); } else { LastKeysAscend(i); }
    }
    StepsAscend(SECRET_KEYS);
  }

  // ----- promoted properties are accepted

  predicate NoVariables(plan: seq<Change>) {
    forall c | c in plan :: c.variable.None?
  }

  /** The literals among some fields that no reference on disk stands for. */
  predicate NeedsVariable(env: Env, values: Props, existing: Props, k: string) {
    k in values && IsLiteral(values[k]) && ExistingRefFor(existing, k, ToText(values[k]), env).None?
  }

  /** Every literal among some fields has its reference on disk. */
  ghost predicate AllKept(env: Env, keys: seq<string>, values: Props, existing: Props) {
    forall k | k in keys :: !NeedsVariable(env, values, existing, k)
  }

  lemma {:induction false} KeptNeedNone(
    host: Host, nested: bool, keys: seq<string>, values: Props, existing: Props, updates: Env)
    ensures NoVariables(Plan(host, nested, keys, values, existing, updates))
            <==> AllKept(host.env, keys, values, existing)
  {
    hide IsLiteral, ExistingRefFor, VariableFor;
    if keys != [] {
      assert forall k :: k in keys <==> k == keys[0] || k in keys[1..];
      if keys[0] !in values || !IsLiteral(values[keys[0]]) {
        KeptNeedNone(host, nested, keys[1..], values, existing, updates);
      } else {
        var c := ChangeFor(host, nested, keys[0], values[keys[0]], existing, updates);
        var rest := Plan(host, nested, keys[1..], values, existing, Updated(updates, c));
        KeptNeedNone(host, nested, keys[1..], values, existing, Updated(updates, c));
        assert Plan(host, nested, keys, values, existing, updates) == [c] + rest;
        assert c.variable.Some? <==> NeedsVariable(host.env, values, existing, keys[0]);
        hide Plan, ChangeFor, Updated, NeedsVariable;
        assert forall x :: x in [c] + rest <==> x == c || x in rest;
      }
    }
  }

  /** The nested references on disk. */
  function NestedExisting(existing: Props): Props {
    var m := EntriesOf(existing, SECRETS);
    if m.Some? then m.value else map[]
  }

  /** No literal, at the top or nested, needs a variable. */
  ghost predicate NothingNeeded(host: Host, props: Props, existing: Props, keys: seq<string>) {
    && AllKept(host.env, SECRET_KEYS, props, existing)
    && (EntriesOf(props, SECRETS).Some? ==>
          AllKept(host.env, keys, EntriesOf(props, SECRETS).value, NestedExisting(existing)))
  }

  lemma NeededIff(host: Host, props: Props, existing: Props, updates: Env, keys: seq<string>)
    ensures NothingNeeded(host, props, existing, keys) <==>
            NoVariables(TopPlan(host, props, existing, updates))
              && NoVariables(NestedPlan(host, props, existing, updates, keys))
  {
    KeptNeedNone(host, false, SECRET_KEYS, props, existing, updates);
    if EntriesOf(props, SECRETS).Some? {
      KeptNeedNone(host, true, keys, EntriesOf(props, SECRETS).value, NestedExisting(existing),
                   ApplyEnv(updates, TopPlan(host, props, existing, updates)));
    }
    hide SECRET_KEYS, Plan, AllKept, ApplyEnv;
  }

  lemma RefNotLiteral(ref: string)
    requires IsEnvVarRef(ref)
    ensures !IsLiteral(Str(ref))
  {
    var t := TrimSpace(ref);
    TrimLeftIs(t, IsSpace, 0);
    TrimRightIs(t, IsSpace, |t|);
  }

  lemma BadRefIsLiteral(name: string)
    requires !IsVarName(name)
    ensures IsLiteral(Str(RefTo(name)))
  {
    var t := RefTo(name);
    RefNameOf(name);
    assert t[0] == '$' && t[|t| - 1] == '}';
    TrimLeftIs(t, IsSpace, 0);
    TrimRightIs(t, IsSpace, |t|);
  }

  lemma ChangedIsLiteral(host: Host, c: Change)
    requires if c.variable.None? then IsEnvVarRef(c.ref)
             else c.ref == RefTo(c.variable.value) && (IsVarName(c.variable.value) <==> NameOk(host.upper, host.conn))
    ensures IsLiteral(Str(c.ref)) <==> c.variable.Some? && !NameOk(host.upper, host.conn)
  {
    hide IsLiteral, NameOk, IsVarName;
    if c.variable.None? {
      RefNotLiteral(c.ref);
    } else if IsVarName(c.variable.value) {
      RefNameOf(c.variable.value);
      RefNotLiteral(c.ref);
    } else {
      BadRefIsLiteral(c.variable.value);
    }
  }

  ghost predicate NoneLiteral(keys: seq<string>, values: Props) {
    forall k | k in keys && k in values :: !IsLiteral(values[k])
  }

  /** Every literal among some fields expands to what it was. */
  ghost predicate FieldsRecovered(env: Env, keys: seq<string>, values: Props, after: Props) {
    forall k | k in keys && k in values && IsLiteral(values[k]) ::
      k in after && after[k].Str? && ExpandRef(env, after[k].text) == ToText(values[k])
  }

  ghost predicate Recovered(env: Env, plan: seq<Change>) {
    forall c | c in plan :: ExpandRef(env, c.ref) == c.value
  }

  /** What the changes of a plan mean for the fields they are for. */
  lemma {:induction false} PlanFields(
    host: Host, nested: bool, keys: seq<string>, values: Props, existing: Props, updates: Env, base: Props, env: Env)
    requires NoRepeats(keys) && Untouched(keys, values, base)
    ensures var plan := Plan(host, nested, keys, values, existing, updates);
            var after := ApplyProps(base, plan);
            && (NoneLiteral(keys, after) <==> NameOk(host.upper, host.conn) || NoVariables(plan))
            && (FieldsRecovered(env, keys, values, after) <==> Recovered(env, plan))
  {
    hide IsLiteral, NameOk, ExpandRef, IsEnvVarRef, IsVarName, ChangeFor, NoRepeats;
    if keys != [] {
      var k, rest := keys[0], keys[1..];
      var plan := Plan(host, nested, keys, values, existing, updates);
      assert keys == [k] + rest;
      FirstOnce(keys);
      if k !in values || !IsLiteral(values[k]) {
        PlanSkips(host, nested, k, rest, values, existing, updates);
        PlanFields(host, nested, rest, values, existing, updates, base, env);
        SkippedKept(host, nested, k, rest, values, existing, updates, base);
        HeadSkipped(env, k, rest, values, ApplyProps(base, plan));
      } else {
        var c := ChangeFor(host, nested, k, values[k], existing, updates);
        PlanNext(host, nested, k, rest, values, existing, updates, base, [], plan);
        var base' := base[k := Str(c.ref)];
        PlanFields(host, nested, rest, values, existing, Updated(updates, c), base', env);
        SkippedKept(host, nested, k, rest, values, existing, Updated(updates, c), base');
        PlanHead(host, nested, keys, values, existing, updates);
        ChangedIsLiteral(host, c);
        HeadChanged(env, k, rest, values, ApplyProps(base, plan), c, plan);
      }
    }
  }

  lemma FirstOnce(keys: seq<string>)
    requires NoRepeats(keys) && keys != []
    ensures NoRepeats(keys[1..]) && keys[0] !in keys[1..]
  {
  }

  /** A field that is not among the keys stays as it is. */
  lemma SkippedKept(
    host: Host, nested: bool, k: string, rest: seq<string>, values: Props, existing: Props, updates: Env, base: Props)
    requires k !in rest
    ensures var after := ApplyProps(base, Plan(host, nested, rest, values, existing, updates));
            (k in after <==> k in base) && (k in base ==> after[k] == base[k])
  {
    var plan := Plan(host, nested, rest, values, existing, updates);
    OthersKept(plan, base, k);
    hide ApplyProps;
    forall c | c in plan ensures c.key != k { PlanKeys(host, nested, rest, values, existing, updates, c); }
  }

  lemma PlanHead(host: Host, nested: bool, keys: seq<string>, values: Props, existing: Props, updates: Env)
    requires keys != [] && keys[0] in values && IsLiteral(values[keys[0]])
    ensures var c := ChangeFor(host, nested, keys[0], values[keys[0]], existing, updates);
            var plan := Plan(host, nested, keys, values, existing, updates);
            && plan != [] && plan[0] == c && c.value == ToText(values[keys[0]])
            && (if c.variable.None? then IsEnvVarRef(c.ref)
                else c.ref == RefTo(c.variable.value)
                     && (IsVarName(c.variable.value) <==> NameOk(host.upper, host.conn)))
  {
    hide IsLiteral, NameOk, IsVarName, ExistingRefFor, EnvVarNameOf;
    var plan := Plan(host, nested, keys, values, existing, updates);
    assert plan[0] in plan;
    PlanKeys(host, nested, keys, values, existing, updates, plan[0]);
  }

  lemma HeadSkipped(env: Env, k: string, rest: seq<string>, values: Props, after: Props)
    requires (k in after <==> k in values) && (k in values ==> after[k] == values[k] && !IsLiteral(values[k]))
    ensures NoneLiteral([k] + rest, after) <==> NoneLiteral(rest, after)
    ensures FieldsRecovered(env, [k] + rest, values, after) <==> FieldsRecovered(env, rest, values, after)
  {
    hide IsLiteral, ExpandRef;
    assert forall x :: x in [k] + rest <==> x == k || x in rest;
  }

  lemma HeadChanged(env: Env, k: string, rest: seq<string>, values: Props, after: Props, c: Change, plan: seq<Change>)
    requires k in values && IsLiteral(values[k]) && k in after && after[k] == Str(c.ref) && c.value == ToText(values[k])
    requires plan != [] && plan[0] == c
    ensures NoneLiteral([k] + rest, after) <==> !IsLiteral(Str(c.ref)) && NoneLiteral(rest, after)
    ensures FieldsRecovered(env, [k] + rest, values, after)
            <==> ExpandRef(env, c.ref) == c.value && FieldsRecovered(env, rest, values, after)
    ensures Recovered(env, plan) <==> ExpandRef(env, c.ref) == c.value && Recovered(env, plan[1..])
    ensures NoVariables(plan) <==> c.variable.None? && NoVariables(plan[1..])
  {
    hide IsLiteral, ExpandRef, ToText;
    assert forall x :: x in [k] + rest <==> x == k || x in rest;
    assert forall x :: x in plan <==> x == plan[0] || x in plan[1..];
  }

  /** After promotion no literal is left, so the check accepts, exactly if the
      connection's name can start a variable name or every literal has its
      reference on disk, and no literal sits in a nested map that is not written
      to in place. */
  lemma PromotedAccepted(host: Host, props: Props, existing: Props, updates: Env, keys: seq<string>)
    requires NoRepeats(keys)
             && (EntriesOf(props, SECRETS).Some? ==> SetOf(keys) == EntriesOf(props, SECRETS).value.Keys)
    ensures NoLiterals(AfterPromote(host, props, existing, updates, keys)) <==>
            && (NameOk(host.upper, host.conn) || NothingNeeded(host, props, existing, keys))
            && (EntriesOf(props, SECRETS).Some? && !props[SECRETS].shared ==> NoNestedLiterals(props))
  {
    var after := ApplyProps(props, TopPlan(host, props, existing, updates));
    var all := AfterPromote(host, props, existing, updates, keys);
    TopAccepted(host, props, existing, updates);
    NestedAccepted(host, props, existing, updates, keys);
    NestedKept(host, props, existing, updates);
    NestedNoLiteral(SECRET_KEYS, all, after);
    NeededIff(host, props, existing, updates, keys);
    hide IsLiteral, ApplyProps, NameOk, NoVariables, NothingNeeded, NestedPlan, TopPlan, AfterPromote, SECRET_KEYS;
    assert NoLiterals(all) <==> NoneLiteral(SECRET_KEYS, all) && NoNestedLiterals(all);
  }

  lemma TopAccepted(host: Host, props: Props, existing: Props, updates: Env)
    ensures var plan := TopPlan(host, props, existing, updates);
            NoneLiteral(SECRET_KEYS, ApplyProps(props, plan)) <==> NameOk(host.upper, host.conn) || NoVariables(plan)
  {
    SecretKeysDiffer();
    PlanFields(host, false, SECRET_KEYS, props, existing, updates, props, map[]);
  }

  lemma NestedNoLiteral(keys: seq<string>, x: Props, y: Props)
    requires forall k | k != SECRETS :: (k in x <==> k in y) && (k in x ==> x[k] == y[k])
    requires x == y || (SECRETS in x && SECRETS in y && x[SECRETS].Nested? && y[SECRETS].Nested?)
    ensures NoneLiteral(keys, x) <==> NoneLiteral(keys, y)
  {
    assert SECRETS in x && x[SECRETS].Nested? ==> !IsLiteral(x[SECRETS]);
    assert SECRETS in y && y[SECRETS].Nested? ==> !IsLiteral(y[SECRETS]);
    hide IsLiteral;
  }

  lemma NestedAccepted(host: Host, props: Props, existing: Props, updates: Env, keys: seq<string>)
    requires NoRepeats(keys)
             && (EntriesOf(props, SECRETS).Some? ==> SetOf(keys) == EntriesOf(props, SECRETS).value.Keys)
    ensures NoNestedLiterals(AfterPromote(host, props, existing, updates, keys)) <==>
            if EntriesOf(props, SECRETS).Some? && !props[SECRETS].shared then NoNestedLiterals(props)
            else NameOk(host.upper, host.conn) || NoVariables(NestedPlan(host, props, existing, updates, keys))
    ensures EntriesOf(props, SECRETS).Some? && NoNestedLiterals(props) ==>
              NoVariables(NestedPlan(host, props, existing, updates, keys))
  {
    var after := ApplyProps(props, TopPlan(host, props, existing, updates));
    var all := AfterPromote(host, props, existing, updates, keys);
    NestedKept(host, props, existing, updates);
    hide ApplyProps, TopPlan, Plan, IsLiteral, NameOk, NoVariables, ApplyEnv;
    if EntriesOf(props, SECRETS).None? {
      assert NestedPlan(host, props, existing, updates, keys) == [];
      NothingVaries();
    } else {
      var entries := props[SECRETS].entries;
      NestedFields(host, keys, entries, NestedExisting(existing),
                   ApplyEnv(updates, TopPlan(host, props, existing, updates)));
      NestedAfter(host, props, existing, updates, keys);
      hide AfterPromote;
    }
  }

  lemma NestedAfter(host: Host, props: Props, existing: Props, updates: Env, keys: seq<string>)
    requires EntriesOf(props, SECRETS).Some?
    ensures EntriesOf(AfterPromote(host, props, existing, updates, keys), SECRETS)
         == Some(if props[SECRETS].shared
                 then ApplyProps(props[SECRETS].entries, NestedPlan(host, props, existing, updates, keys))
                 else props[SECRETS].entries)
  {
    NestedKept(host, props, existing, updates);
    hide ApplyProps, TopPlan, Plan, ApplyEnv, NestedPlan;
  }

  lemma NothingVaries()
    ensures NoVariables([])
  {
  }

  lemma NestedFields(host: Host, keys: seq<string>, entries: Props, existing: Props, updates: Env)
    requires NoRepeats(keys) && SetOf(keys) == entries.Keys
    ensures var plan := Plan(host, true, keys, entries, existing, updates);
            var after := ApplyProps(entries, plan);
            && ((forall k | k in after :: !IsLiteral(after[k])) <==> NameOk(host.upper, host.conn) || NoVariables(plan))
            && ((forall k | k in entries :: !IsLiteral(entries[k])) ==> NoVariables(plan))
  {
    var plan := Plan(host, true, keys, entries, existing, updates);
    var after := ApplyProps(entries, plan);
    PlanFields(host, true, keys, entries, existing, updates, entries, map[]);
    hide IsLiteral, NameOk, Plan, ApplyProps;
    forall c | c in plan ensures c.key in entries && IsLiteral(entries[c.key]) {
      PlanKeys(host, true, keys, entries, existing, updates, c);
    }
    forall k | k in after ensures k in keys {
      OthersKept(plan, entries, k);
      assert k in entries;
      assert k in SetOf(keys);
    }
  }

  /** Normalized properties are read as they are, and what is read is
      normalized. */
  lemma ReadNormalized(props: Props, parse: string -> Option<Props>)
    ensures Normalized(props) ==> ReadProps(props, parse) == Some(props)
    ensures ReadProps(props, parse).Some? ==> Normalized(ReadProps(props, parse).value)
  {
    assert SECRETS[0] != INPUTS[0];
    hide TrimSpace;
  }

  /** Promotion leaves normalized properties normalized, so that the check
      looks at them as they are. */
  lemma NormalizedStays(host: Host, props: Props, existing: Props, updates: Env, keys: seq<string>)
    requires Normalized(props)
    ensures Normalized(AfterPromote(host, props, existing, updates, keys))
  {
    NotSecretKeys();
    TopKeeps(host, props, existing, updates, SECRETS);
    TopKeeps(host, props, existing, updates, INPUTS);
    FieldsDiffer();
    hide SECRET_KEYS, ApplyProps, NestedPlan, TopPlan, TrimSpace;
  }

  lemma FieldsDiffer()
    ensures SECRETS != INPUTS
  {
    assert SECRETS[0] != INPUTS[0];
  }

  /** A field that is no secret stays as it is. */
  lemma TopKeeps(host: Host, props: Props, existing: Props, updates: Env, field: string)
    requires field !in SECRET_KEYS
    ensures var after := ApplyProps(props, TopPlan(host, props, existing, updates));
            (field in after <==> field in props) && (field in props ==> after[field] == props[field])
  {
    var plan := TopPlan(host, props, existing, updates);
    OthersKept(plan, props, field);
    hide SECRET_KEYS, ApplyProps;
    forall c | c in plan ensures c.key in SECRET_KEYS {
      PlanKeys(host, false, SECRET_KEYS, props, existing, updates, c);
    }
  }

  lemma NotSecretKeys()
    ensures SECRETS !in SECRET_KEYS && INPUTS !in SECRET_KEYS
  {
    NotInputs();
    NotSecrets();
  }

  lemma NotInputs()
    ensures INPUTS !in SECRET_KEYS
  {
    hide Less, Ascending;
    SecretKeysOrdered();
    LessAt(SECRET_KEYS[9], INPUTS, 0);
    LessAt(INPUTS, SECRET_KEYS[10], 0);
    Between(SECRET_KEYS, INPUTS, 9);
  }

  lemma NotSecrets()
    ensures SECRETS !in SECRET_KEYS
  {
    hide Less, Ascending;
    SecretKeysOrdered();
    LessAt(SECRET_KEYS[17], SECRETS, 6);
    LessAt(SECRETS, SECRET_KEYS[18], 2);
    Between(SECRET_KEYS, SECRETS, 17);
  }

  lemma Between(s: seq<string>, x: string, i: nat)
    requires Ascending(s) && i + 1 < |s| && Less(s[i], x) && Less(x, s[i + 1])
    ensures x !in s
  {
    hide Less;
    forall j | 0 <= j < |s| ensures s[j] != x {
      LessTrichotomy(s[i], x);
      LessTrichotomy(x, s[i + 1]);
      if j < i { LessTransitive(s[j], s[i], x); LessTrichotomy(s[j], x); }
      if j > i + 1 { LessTransitive(x, s[i + 1], s[j]); LessTrichotomy(x, s[j]); }
    }
  }
}
