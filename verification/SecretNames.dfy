/** When promotion recovers every secret, told from the secrets themselves: which
    nested ones fall back to their path, and which share a variable. */
module SecretNames {
  import opened Text
  import opened Sequences
  import opened Names
  import opened Secrets
  import opened SecretRecovery

  /** What promotion starts from, with the nested keys in the order visited. */
  datatype Given = Given(host: Host, props: Props, existing: Props, updates: Env, keys: seq<string>)

  /** Where a secret stands: a field at the top, or the nested one with the
      key visited at this turn. */
  datatype Place = AtTop(key: string) | Inside(turn: nat)

  predicate Stands(g: Given, p: Place) {
    match p
    case AtTop(key) => key in SECRET_KEYS
    case Inside(turn) => EntriesOf(g.props, SECRETS).Some? && turn < |g.keys|
  }

  function KeyAt(g: Given, p: Place): string
    requires Stands(g, p)
  {
    if p.AtTop? then p.key else g.keys[p.turn]
  }

  function ValuesAt(g: Given, p: Place): Props
    requires Stands(g, p)
  {
    if p.AtTop? then g.props else EntriesOf(g.props, SECRETS).value
  }

  function RefsAt(g: Given, p: Place): Props {
    if p.AtTop? then g.existing else NestedExisting(g.existing)
  }

  predicate Literal(g: Given, p: Place) {
    Stands(g, p) && KeyAt(g, p) in ValuesAt(g, p) && IsLiteral(ValuesAt(g, p)[KeyAt(g, p)])
  }

  function TextAt(g: Given, p: Place): string
    requires Literal(g, p)
  {
    ToText(ValuesAt(g, p)[KeyAt(g, p)])
  }

  /** The reference on disk that stands for a literal, if there is one. */
  function KeptRef(g: Given, p: Place): Option<string>
    requires Literal(g, p)
  {
    ExistingRefFor(RefsAt(g, p), KeyAt(g, p), TextAt(g, p), g.host.env)
  }

  predicate Needs(g: Given, p: Place) {
    Literal(g, p) && KeptRef(g, p).None?
  }

  predicate Kept(g: Given, p: Place) {
    Literal(g, p) && KeptRef(g, p).Some?
  }

  /** A name is taken when it is among the updates, a field at the top needs
      it, or a nested secret visited earlier got it. */
  ghost predicate Taken(g: Given, turn: nat, name: string)
    requires turn <= |g.keys|
    decreases turn, 0
  {
    || name in g.updates
    || (exists t :: Needs(g, AtTop(t)) && VarOf(g.host, t) == name)
    || exists j: nat :: j < turn && Needs(g, Inside(j)) && NestedName(g, j) == name
  }

  /** A nested secret falls back to its path when its own name is taken. */
  ghost predicate FallsBack(g: Given, turn: nat)
    requires turn < |g.keys|
    decreases turn, 1
  {
    Taken(g, turn, VarOf(g.host, g.keys[turn]))
  }

  ghost function NestedName(g: Given, turn: nat): string
    requires turn < |g.keys|
    decreases turn, 2
  {
    VarOf(g.host, if FallsBack(g, turn) then SECRETS + "." + g.keys[turn] else g.keys[turn])
  }

  ghost function NameAt(g: Given, p: Place): string
    requires Stands(g, p)
  {
    if p.AtTop? then VarOf(g.host, p.key) else NestedName(g, p.turn)
  }

  /** Secrets that get the same variable have the same text. */
  ghost predicate NoClash(g: Given) {
    forall p, q | Needs(g, p) && Needs(g, q) && NameAt(g, p) == NameAt(g, q) :: TextAt(g, p) == TextAt(g, q)
  }

  /** The variable of a kept reference is set to the secret's own text only: by
      the secrets that get it or, if there is none, by the updates. */
  ghost predicate KeptRight(g: Given) {
    forall p | Kept(g, p) && RefName(KeptRef(g, p).value).Some? ::
      var name := RefName(KeptRef(g, p).value).value;
      && (forall q | Needs(g, q) && NameAt(g, q) == name :: TextAt(g, q) == TextAt(g, p))
      && (name in g.updates && (forall q | Needs(g, q) :: NameAt(g, q) != name) ==> g.updates[name] == TextAt(g, p))
  }

  // ----- the plan, place by place

  ghost function ChangeAt(g: Given, p: Place): Change
    requires Literal(g, p)
  {
    if Kept(g, p) then Change(KeyAt(g, p), KeptRef(g, p).value, None, TextAt(g, p))
    else Change(KeyAt(g, p), RefTo(NameAt(g, p)), Some(NameAt(g, p)), TextAt(g, p))
  }

  function WholePlan(g: Given): seq<Change> {
    TopPlan(g.host, g.props, g.existing, g.updates) + NestedPlan(g.host, g.props, g.existing, g.updates, g.keys)
  }

  lemma {:induction false} TopMembers(g: Given, keys: seq<string>, updates: Env, c: Change)
    requires forall k | k in keys :: k in SECRET_KEYS
    ensures c in Plan(g.host, false, keys, g.props, g.existing, updates)
       <==> exists k :: k in keys && Literal(g, AtTop(k)) && c == ChangeAt(g, AtTop(k))
  {
    hide SECRET_KEYS, IsLiteral, ExistingRefFor, RefTo, EnvVarNameOf;
    if keys != [] {
      var k, rest := keys[0], keys[1..];
      assert keys == [k] + rest;
      assert forall x :: x in keys <==> x == k || x in rest;
      if !Literal(g, AtTop(k)) {
        TopMembers(g, rest, updates, c);
      } else {
        var head := ChangeFor(g.host, false, k, g.props[k], g.existing, updates);
        assert head == ChangeAt(g, AtTop(k));
        TopMembers(g, rest, Updated(updates, head), c);
      }
    }
  }

  lemma TopPlanIs(g: Given, c: Change)
    ensures c in TopPlan(g.host, g.props, g.existing, g.updates)
       <==> exists k :: Literal(g, AtTop(k)) && c == ChangeAt(g, AtTop(k))
  {
    TopMembers(g, SECRET_KEYS, g.updates, c);
    hide SECRET_KEYS, IsLiteral, Plan, ChangeAt;
  }

  lemma TakenAtFirst(g: Given, name: string)
    ensures name in ApplyEnv(g.updates, TopPlan(g.host, g.props, g.existing, g.updates)) <==> Taken(g, 0, name)
  {
    var plan := TopPlan(g.host, g.props, g.existing, g.updates);
    ApplyEnvKeys(g.updates, plan, name);
    hide TopPlan, ApplyEnv, Literal;
    forall c ensures c in plan <==> exists k :: Literal(g, AtTop(k)) && c == ChangeAt(g, AtTop(k)) { TopPlanIs(g, c); }
    if t :| Needs(g, AtTop(t)) && VarOf(g.host, t) == name { assert ChangeAt(g, AtTop(t)) in plan; }
  }

  lemma TakenNext(g: Given, i: nat, name: string)
    requires i < |g.keys|
    ensures Taken(g, i + 1, name) <==> Taken(g, i, name) || (Needs(g, Inside(i)) && NestedName(g, i) == name)
  {
    hide Needs, VarOf;
  }

  lemma {:induction false} NestedMembers(g: Given, i: nat, taken: Env, c: Change)
    requires i <= |g.keys| && EntriesOf(g.props, SECRETS).Some?
    requires forall name :: name in taken <==> Taken(g, i, name)
    ensures c in Plan(g.host, true, g.keys[i..], EntriesOf(g.props, SECRETS).value, NestedExisting(g.existing), taken)
       <==> exists j: nat :: i <= j < |g.keys| && Literal(g, Inside(j)) && c == ChangeAt(g, Inside(j))
    decreases |g.keys| - i
  {
    hide IsLiteral, ExistingRefFor, RefTo, EnvVarNameOf, NestedExisting, Taken, EntriesOf;
    if i < |g.keys| {
      var entries, refs := EntriesOf(g.props, SECRETS).value, NestedExisting(g.existing);
      assert g.keys[i..] == [g.keys[i]] + g.keys[i + 1..];
      if !Literal(g, Inside(i)) {
        forall name ensures name in taken <==> Taken(g, i + 1, name) { TakenNext(g, i, name); }
        NestedMembers(g, i + 1, taken, c);
      } else {
        var head := ChangeFor(g.host, true, g.keys[i], entries[g.keys[i]], refs, taken);
        assert FallsBack(g, i) <==> VarOf(g.host, g.keys[i]) in taken;
        assert head == ChangeAt(g, Inside(i));
        forall name ensures name in Updated(taken, head) <==> Taken(g, i + 1, name) { TakenNext(g, i, name); }
        NestedMembers(g, i + 1, Updated(taken, head), c);
      }
    }
  }

  /** The plan has exactly one kind of change for each literal. */
  lemma PlanIs(g: Given, c: Change)
    ensures c in WholePlan(g) <==> exists p :: Literal(g, p) && c == ChangeAt(g, p)
  {
    TopPlanIs(g, c);
    if EntriesOf(g.props, SECRETS).Some? {
      var taken := ApplyEnv(g.updates, TopPlan(g.host, g.props, g.existing, g.updates));
      forall name ensures name in taken <==> Taken(g, 0, name) { TakenAtFirst(g, name); }
      NestedMembers(g, 0, taken, c);
      assert g.keys[0..] == g.keys;
    }
    hide SECRET_KEYS, TopPlan, ApplyEnv, Plan, ChangeAt, IsLiteral, EntriesOf;
    if p :| Literal(g, p) && c == ChangeAt(g, p) {
      if p.Inside? { assert Literal(g, Inside(p.turn)); } else { assert Literal(g, AtTop(p.key)); }
    }
  }

  // ----- consistency does not depend on the order of the plan

  /** The changes that write one variable agree, and with what is kept. */
  ghost predicate Agreeing(updates: Env, plan: seq<Change>) {
    && (forall c, d | c in plan && d in plan && c.variable.Some? && c.variable == d.variable :: c.value == d.value)
    && (forall c | c in plan && c.variable.None? && RefName(c.ref).Some? ::
          var name := RefName(c.ref).value;
          && (forall d | d in plan && d.variable == Some(name) :: d.value == c.value)
          && (name in updates && (forall d | d in plan :: d.variable != Some(name)) ==> updates[name] == c.value))
  }

  lemma ConsistentIs(updates: Env, plan: seq<Change>)
    ensures Consistent(updates, plan) <==> Agreeing(updates, plan)
  {
    hide RefName, ApplyEnv;
    if Agreeing(updates, plan) {
      forall i | 0 <= i < |plan| && plan[i].variable.None? && RefName(plan[i].ref).Some?
             && RefName(plan[i].ref).value in ApplyEnv(updates, plan)
        ensures ApplyEnv(updates, plan)[RefName(plan[i].ref).value] == plan[i].value
      {
        assert plan[i] in plan;
        WrittenIs(updates, plan, RefName(plan[i].ref).value);
      }
    }
    if Consistent(updates, plan) {
      WritersAgree(updates, plan);
      forall c | c in plan && c.variable.None? && RefName(c.ref).Some?
        ensures var name := RefName(c.ref).value;
                && (forall d | d in plan && d.variable == Some(name) :: d.value == c.value)
                && (name in updates && (forall d | d in plan :: d.variable != Some(name)) ==> updates[name] == c.value)
      {
        var i :| 0 <= i < |plan| && plan[i] == c;
        WrittenIs(updates, plan, RefName(c.ref).value);
      }
    }
  }

  lemma WritersAgree(updates: Env, plan: seq<Change>)
    requires Consistent(updates, plan)
    ensures forall c, d | c in plan && d in plan && c.variable.Some? && c.variable == d.variable :: c.value == d.value
  {
    hide RefName, ApplyEnv;
    forall c, d | c in plan && d in plan && c.variable.Some? && c.variable == d.variable ensures c.value == d.value {
      var i :| 0 <= i < |plan| && plan[i] == c;
      var j :| 0 <= j < |plan| && plan[j] == d;
      if i < j { assert plan[i].value == plan[j].value; } else if j < i { assert plan[j].value == plan[i].value; }
    }
  }

  /** Where the writers of a variable agree, it ends with their value. */
  lemma WrittenIs(updates: Env, plan: seq<Change>, name: string)
    requires forall c, d | c in plan && d in plan && c.variable.Some? && c.variable == d.variable :: c.value == d.value
    ensures forall d | d in plan && d.variable == Some(name) ::
              name in ApplyEnv(updates, plan) && ApplyEnv(updates, plan)[name] == d.value
    ensures (forall d | d in plan :: d.variable != Some(name)) ==>
              (name in ApplyEnv(updates, plan) <==> name in updates)
              && (name in updates ==> ApplyEnv(updates, plan)[name] == updates[name])
  {
    hide ApplyEnv;
    forall d | d in plan && d.variable == Some(name)
      ensures name in ApplyEnv(updates, plan) && ApplyEnv(updates, plan)[name] == d.value
    {
      var i :| 0 <= i < |plan| && plan[i] == d;
      var j := LastWrite(updates, plan, i);
      assert plan[j] in plan;
    }
    if forall d | d in plan :: d.variable != Some(name) { NotWritten(updates, plan, name); }
  }

  // ----- the theorem

  lemma AgreeingIs(g: Given)
    ensures Agreeing(g.updates, WholePlan(g)) <==> NoClash(g) && KeptRight(g)
  {
    var plan := WholePlan(g);
    forall c: Change ensures c in plan <==> exists p :: Literal(g, p) && c == ChangeAt(g, p) { PlanIs(g, c); }
    hide WholePlan, Literal, TextAt, KeptRef, RefName, KeyAt, NameAt, RefTo;
    forall p | Literal(g, p) ensures ChangeAt(g, p) in plan {
    }
    if NoClash(g) && KeptRight(g) { KeysAgree(g, plan); }
    if Agreeing(g.updates, plan) { AgreeKeys(g, plan); }
  }

  lemma KeysAgree(g: Given, plan: seq<Change>)
    requires forall c :: c in plan <==> exists p :: Literal(g, p) && c == ChangeAt(g, p)
    requires NoClash(g) && KeptRight(g)
    ensures Agreeing(g.updates, plan)
  {
    hide TextAt, KeptRef, RefName, KeyAt, NameAt, RefTo, IsLiteral, SECRET_KEYS, EntriesOf;
    forall c, d | c in plan && d in plan && c.variable.Some? && c.variable == d.variable ensures c.value == d.value {
      var p :| Literal(g, p) && c == ChangeAt(g, p);
      var q :| Literal(g, q) && d == ChangeAt(g, q);
      assert Needs(g, p) && Needs(g, q);
    }
    forall c | c in plan && c.variable.None? && RefName(c.ref).Some?
      ensures var name := RefName(c.ref).value;
              && (forall d | d in plan && d.variable == Some(name) :: d.value == c.value)
              && (name in g.updates && (forall d | d in plan :: d.variable != Some(name)) ==>
                    g.updates[name] == c.value)
    {
      var name := RefName(c.ref).value;
      var p :| Literal(g, p) && c == ChangeAt(g, p);
      assert Kept(g, p);
      forall d | d in plan && d.variable == Some(name) ensures d.value == c.value {
        var q :| Literal(g, q) && d == ChangeAt(g, q);
        assert Needs(g, q);
      }
      forall q | Needs(g, q) ensures ChangeAt(g, q) in plan && ChangeAt(g, q).variable == Some(NameAt(g, q)) {
      }
    }
  }

  lemma AgreeKeys(g: Given, plan: seq<Change>)
    requires forall p | Literal(g, p) :: ChangeAt(g, p) in plan
    requires forall c :: c in plan <==> exists p :: Literal(g, p) && c == ChangeAt(g, p)
    requires Agreeing(g.updates, plan)
    ensures NoClash(g) && KeptRight(g)
  {
    hide TextAt, KeptRef, RefName, KeyAt, NameAt, RefTo, IsLiteral, SECRET_KEYS, EntriesOf;
    forall p, q | Needs(g, p) && Needs(g, q) && NameAt(g, p) == NameAt(g, q)
      ensures TextAt(g, p) == TextAt(g, q)
    {
      var c, d := ChangeAt(g, p), ChangeAt(g, q);
      assert c in plan && d in plan && c.variable == d.variable;
    }
    forall p | Kept(g, p) && RefName(KeptRef(g, p).value).Some?
      ensures var name := RefName(KeptRef(g, p).value).value;
              && (forall q | Needs(g, q) && NameAt(g, q) == name :: TextAt(g, q) == TextAt(g, p))
              && (name in g.updates && (forall q | Needs(g, q) :: NameAt(g, q) != name) ==>
                    g.updates[name] == TextAt(g, p))
    {
      var c, name := ChangeAt(g, p), RefName(KeptRef(g, p).value).value;
      assert c in plan && c.variable.None?;
      forall q | Needs(g, q) && NameAt(g, q) == name ensures TextAt(g, q) == TextAt(g, p) {
        var d := ChangeAt(g, q);
        assert d in plan && d.variable == Some(name);
      }
      if forall q | Needs(g, q) :: NameAt(g, q) != name {
        forall d | d in plan ensures d.variable != Some(name) {
          var q :| Literal(g, q) && d == ChangeAt(g, q);
        }
      }
    }
  }

  /** Every secret expands to what it was if and only if secrets that get one
      variable have one text, and the variables of kept references are set to
      nothing else. */
  lemma RecoveredExactly(g: Given)
    requires NameOk(g.host.upper, g.host.conn) && Ascending(g.keys)
    requires EntriesOf(g.props, SECRETS).Some? ==>
               g.props[SECRETS].shared && SetOf(g.keys) == g.props[SECRETS].entries.Keys
    ensures AllRecovered(g.host.env + ApplyEnv(g.updates, WholePlan(g)), g.props,
                         AfterPromote(g.host, g.props, g.existing, g.updates, g.keys), g.keys)
       <==> NoClash(g) && KeptRight(g)
  {
    AscendingNoRepeats(g.keys);
    SecretsRecovered(g.host, g.props, g.existing, g.updates, g.keys);
    ConsistentIs(g.updates, WholePlan(g));
    AgreeingIs(g);
    hide *;
  }

  // ----- when the keys alone tell that all are recovered

  /** The nested secrets that need a variable have sanitized names of their own,
      and no such name is taken by the updates. */
  ghost predicate NestedNamesFree(g: Given) {
    forall i: nat | Needs(g, Inside(i)) ::
      && VarOf(g.host, g.keys[i]) !in g.updates
      && forall p | Needs(g, p) && p != Inside(i) ::
           Sanitize(g.host.upper, KeyAt(g, p)) != Sanitize(g.host.upper, g.keys[i])
  }

  /** No reference that is kept is to a variable that is set. */
  ghost predicate KeptUntouched(g: Given) {
    forall p | Kept(g, p) && RefName(KeptRef(g, p).value).Some? ::
      var name := RefName(KeptRef(g, p).value).value;
      name !in g.updates && forall q | Needs(g, q) :: VarOf(g.host, KeyAt(g, q)) != name
  }

  lemma {:induction false} NoneFallsBack(g: Given, i: nat)
    requires NestedNamesFree(g) && Needs(g, Inside(i))
    ensures NestedName(g, i) == VarOf(g.host, g.keys[i])
    decreases i
  {
    hide SECRET_KEYS, IsLiteral, EntriesOf, ExistingRefFor, VarOf, Sanitize;
    var k := g.keys[i];
    forall t | Needs(g, AtTop(t)) ensures VarOf(g.host, t) != VarOf(g.host, k) {
      assert KeyAt(g, AtTop(t)) == t;
      VarsDiffer(g.host, t, k);
    }
    forall j: nat | j < i && Needs(g, Inside(j)) ensures NestedName(g, j) != VarOf(g.host, k) {
      NoneFallsBack(g, j);
      assert KeyAt(g, Inside(j)) == g.keys[j];
      VarsDiffer(g.host, g.keys[j], k);
    }
    assert k == KeyAt(g, Inside(i));
    assert VarOf(g.host, k) !in g.updates;
    assert !(exists t :: Needs(g, AtTop(t)) && VarOf(g.host, t) == VarOf(g.host, k));
    assert !Taken(g, i, VarOf(g.host, k));
  }

  /** Then each gets the variable named after its key, and shares it with no
      other. */
  lemma OwnName(g: Given, p: Place, q: Place)
    requires NestedNamesFree(g) && Needs(g, p) && Needs(g, q)
    ensures NameAt(g, p) == VarOf(g.host, KeyAt(g, p))
    ensures NameAt(g, p) == VarOf(g.host, KeyAt(g, q)) ==> p == q
  {
    if p.Inside? { NoneFallsBack(g, p.turn); }
    VarsDiffer(g.host, KeyAt(g, p), KeyAt(g, q));
    hide SECRET_KEYS, IsLiteral, EntriesOf, ExistingRefFor, VarOf, Sanitize, NestedName;
    if p.AtTop? && q.AtTop? && Sanitize(g.host.upper, p.key) == Sanitize(g.host.upper, q.key) {
      SecretKeysSanitized(g.host.upper, p.key, q.key);
    }
  }

  /** All secrets are recovered when the nested ones that need a variable have
      names of their own once sanitized, no such name is taken, and no kept
      reference is to a variable to be written. */
  lemma RecoveredByKeys(g: Given)
    requires NameOk(g.host.upper, g.host.conn) && Ascending(g.keys)
    requires EntriesOf(g.props, SECRETS).Some? ==>
               g.props[SECRETS].shared && SetOf(g.keys) == g.props[SECRETS].entries.Keys
    requires NestedNamesFree(g) && KeptUntouched(g)
    ensures AllRecovered(g.host.env + ApplyEnv(g.updates, WholePlan(g)), g.props,
                         AfterPromote(g.host, g.props, g.existing, g.updates, g.keys), g.keys)
  {
    RecoveredExactly(g);
    FreeIsRight(g);
    hide *;
  }

  lemma FreeIsRight(g: Given)
    requires NestedNamesFree(g) && KeptUntouched(g)
    ensures NoClash(g) && KeptRight(g)
  {
    hide VarOf, RefName, SECRET_KEYS, IsLiteral, EntriesOf, NestedNamesFree, ExistingRefFor, NestedName, KeyAt, TextAt;
    forall p, q | Needs(g, p) && Needs(g, q)
      ensures NameAt(g, p) == VarOf(g.host, KeyAt(g, p)) && (NameAt(g, p) == NameAt(g, q) ==> p == q)
    {
      OwnName(g, p, q);
      OwnName(g, q, p);
    }
    forall p, q | Kept(g, p) && RefName(KeptRef(g, p).value).Some? && Needs(g, q)
      ensures NameAt(g, q) != RefName(KeptRef(g, p).value).value
    {
      OwnName(g, q, q);
    }
  }
}
