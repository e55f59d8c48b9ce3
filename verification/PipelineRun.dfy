/** A pipeline run: steps in order, with retries, breaks, gotos and
    cancellation, and the skipping of whatever follows a failure. */
module PipelineRun {
  import opened Text

  /** context stands for the context object of the step's hook. */
  datatype Step = Step(id: string, context: nat)

  /** How one execution of a step turns out: the error that is left when its
      on-failure rule has been applied, that rule, and what it leaves in its
      context and payload. */
  datatype Attempt = Attempt(err: Option<string>, onFail: string, warned: bool, timedOut: bool, breaks: bool,
                             jump: Option<string>)

  datatype Status = Skipped | Failed | TimedOut | Warned | Succeeded

  /** One turn of the step loop; last is the attempt that counted. */
  datatype Visit = Visit(index: nat, status: Status, attempts: nat, last: Option<Attempt>)

  const CANCELLED := "pipeline cancelled"

  predicate Bad(v: Visit) {
    v.status == Skipped || v.status == Failed || v.status == TimedOut
  }

  /** The step that has this id; of several the last. */
  function StepIndex(steps: seq<Step>, id: string): (i: nat)
    ensures i <= |steps| && (i < |steps| ==> steps[i].id == id)
    ensures forall j | i < j < |steps| :: steps[j].id != id
    ensures i == |steps| ==> forall j | 0 <= j < |steps| :: steps[j].id != id
  {
    if steps == [] then 0 else
      var n := |steps| - 1;
      if steps[n].id == id then n
      else
        var i := StepIndex(steps[..n], id);
        assert forall j | 0 <= j < n :: steps[..n][j] == steps[j];
        if i < n then i else |steps|
  }

  predicate Jumps(steps: seq<Step>, v: Visit) {
    !Bad(v) && v.last.Some? && v.last.value.jump.Some? && StepIndex(steps, v.last.value.jump.value) < |steps|
  }

  predicate Breaks(v: Visit) {
    !Bad(v) && v.last.Some? && v.last.value.breaks
  }

  /** Where the loop goes after a visit that does not end it. */
  function Next(steps: seq<Step>, v: Visit): nat {
    if Jumps(steps, v) then StepIndex(steps, v.last.value.jump.value) else v.index + 1
  }

  /** What went wrong first. */
  function FirstError(trace: seq<Visit>): Option<string> {
    if trace == [] then None
    else if !Bad(trace[0]) then FirstError(trace[1..])
    else if trace[0].last.None? then Some(CANCELLED)
    else trace[0].last.value.err
  }

  // ----- what every run looks like

  ghost predicate VisitOk(steps: seq<Step>, v: Visit) {
    && v.index < |steps|
    && v.attempts <= 2
    && (v.status == Skipped <==> v.attempts == 0)
    && (v.status == Skipped <==> v.last.None?)
    && (v.status == Failed || v.status == TimedOut <==> v.last.Some? && v.last.value.err.Some?)
  }

  /** From the first step on, each visit leads to the next. */
  ghost predicate Chained(steps: seq<Step>, trace: seq<Visit>) {
    && (trace != [] ==> trace[0].index == 0)
    && forall v | 0 <= v < |trace| - 1 :: !Breaks(trace[v]) && trace[v + 1].index == Next(steps, trace[v])
  }

  /** After a failure, a cancellation or a skip nothing is executed. */
  ghost predicate SkipsAfterBad(trace: seq<Visit>) {
    forall v, w | 0 <= v < w < |trace| && Bad(trace[v]) :: trace[w].status == Skipped
  }

  /** No context is retried twice. */
  ghost predicate RetriedOnce(steps: seq<Step>, trace: seq<Visit>) {
    && (forall v | 0 <= v < |trace| :: VisitOk(steps, trace[v]))
    && forall v, w | 0 <= v < w < |trace| && trace[v].attempts == 2 && trace[w].attempts == 2 ::
         steps[trace[v].index].context != steps[trace[w].index].context
  }

  ghost predicate RunShape(steps: seq<Step>, trace: seq<Visit>) {
    RetriedOnce(steps, trace) && Chained(steps, trace) && SkipsAfterBad(trace)
  }

  // ----- what every turn does

  /** A pipeline to run: its steps, how each execution, by its number, turns
      out, and whether the context is found cancelled before a turn. */
  datatype Plan = Plan(steps: seq<Step>, outcomes: nat -> Attempt, cancelled: nat -> bool)

  /** The executions made so far. */
  function Executed(trace: seq<Visit>): nat {
    if trace == [] then 0 else Executed(trace[..|trace| - 1]) + trace[|trace| - 1].attempts
  }

  /** Whether the context of a step has been retried. */
  predicate Retried(steps: seq<Step>, trace: seq<Visit>, context: nat) {
    exists w | 0 <= w < |trace| ::
      trace[w].attempts == 2 && trace[w].index < |steps| && steps[trace[w].index].context == context
  }

  /** The visit that executes a step, when `first` is the number of its first
      execution: once more if that ends in an error whose rule is to retry and
      its context may be retried; the last attempt tells the status. */
  ghost predicate Executes(outcomes: nat -> Attempt, v: Visit, first: nat, mayRetry: bool) {
    && v.attempts == (if outcomes(first).err.Some? && outcomes(first).onFail == "retry" && mayRetry then 2 else 1)
    && v.last == Some(outcomes(first + v.attempts - 1))
    && var a := v.last.value;
       && (v.status == TimedOut <==> a.err.Some? && a.timedOut)
       && (v.status == Failed <==> a.err.Some? && !a.timedOut)
       && (v.status == Warned <==> a.err.None? && (a.onFail == "warn" || a.warned))
       && (v.status == Succeeded <==> a.err.None? && a.onFail != "warn" && !a.warned)
  }

  ghost predicate InTrouble(trace: seq<Visit>) {
    exists w | 0 <= w < |trace| :: Bad(trace[w])
  }

  /** Turn t skips its step exactly after trouble or when the context is found
      cancelled, and else executes it. */
  ghost predicate Turned(p: Plan, trace: seq<Visit>, t: nat)
    requires t < |trace|
  {
    var v := trace[t];
    && v.index < |p.steps|
    && if p.cancelled(t) || InTrouble(trace[..t])
       then v == Visit(v.index, Skipped, 0, None)
       else Executes(p.outcomes, v, Executed(trace[..t]), !Retried(p.steps, trace[..t], p.steps[v.index].context))
  }

  class Pipeline {
    const steps: seq<Step>
    /** How each execution, by its number, turns out. */
    const outcomes: nat -> Attempt
    /** Whether the context is found cancelled before a turn, by its number. */
    const cancelled: nat -> bool
    var executed: nat
    var retried: set<nat>
    var trace: seq<Visit>

    constructor (steps: seq<Step>, outcomes: nat -> Attempt, cancelled: nat -> bool)
      ensures this.steps == steps && this.outcomes == outcomes && this.cancelled == cancelled
      ensures trace == [] && retried == {} && executed == 0
    {
      this.steps, this.outcomes, this.cancelled := steps, outcomes, cancelled;
      executed, retried, trace := 0, {}, [];
    }

    /** Executes a step once, and again if its rule is to retry and its context
        has not been retried yet. */
    method ExecuteStep(i: nat, skip: bool) returns (v: Visit)
      requires i < |steps|
      modifies this`executed, this`retried
      ensures v.index == i && VisitOk(steps, v) && (v.status == Skipped <==> skip)
      ensures retried == old(retried) + if v.attempts == 2 then {steps[i].context} else {}
      ensures v.attempts == 2 ==> steps[i].context !in old(retried)
      ensures executed == old(executed) + v.attempts
      ensures if skip then v == Visit(i, Skipped, 0, None)
              else Executes(outcomes, v, old(executed), steps[i].context !in old(retried))
    {
      if skip {
        return Visit(i, Skipped, 0, None);
      }
      var attempt := outcomes(executed);
      executed := executed + 1;
      var attempts := 1;
      if attempt.err.Some? && attempt.onFail == "retry" && steps[i].context !in retried {
        retried := retried + {steps[i].context};
        attempt := outcomes(executed);
        executed := executed + 1;
        attempts := 2;
      }
      var status :=
        if attempt.err.Some? then (if attempt.timedOut then TimedOut else Failed)
        else if attempt.onFail == "warn" || attempt.warned then Warned
        else Succeeded;
      v := Visit(i, status, attempts, Some(attempt));
    }

    /** Runs the pipeline until it ends or would follow one goto more than
        jumps; finished tells which. */
    method Execute(jumps: nat) returns (err: Option<string>, finished: bool)
      requires trace == [] && retried == {} && executed == 0
      modifies this
      ensures RunShape(steps, trace)
      ensures forall t | 0 <= t < |trace| :: Turned(Plan(steps, outcomes, cancelled), trace, t)
      ensures err == FirstError(trace)
      ensures !finished ==> trace != [] && Jumps(steps, trace[|trace| - 1]) && err.None?
      ensures finished && trace != [] ==> Breaks(trace[|trace| - 1]) || Next(steps, trace[|trace| - 1]) == |steps|
      ensures finished && trace == [] ==> steps == []
    {
      hide RunShape, FirstError, VisitOk, Executes, Executed, Retried, Turned, StepIndex, InTrouble;
      NoVisits(Plan(steps, outcomes, cancelled));
      var i, left, turn := 0, jumps, 0;
      err := None;
      ghost var plan := Plan(steps, outcomes, cancelled);
      while i < |steps|
        invariant i <= |steps|
        invariant i == if trace == [] then 0 else Next(steps, trace[|trace| - 1])
        invariant trace != [] ==> !Breaks(trace[|trace| - 1])
        invariant RunShape(steps, trace) && err == FirstError(trace)
        invariant err.Some? <==> InTrouble(trace)
        invariant turn == |trace| && executed == Executed(trace)
        invariant forall t | 0 <= t < |trace| :: Turned(plan, trace, t)
        invariant forall context :: context in retried <==> Retried(steps, trace, context)
        decreases left, |steps| - i
      {
        if cancelled(turn) && err.None? {
          err := Some(CANCELLED);
        }
        turn := turn + 1;
        ghost var before := trace;
        var v := ExecuteStep(i, err.Some?);
        trace := trace + [v];
        if v.last.Some? && v.last.value.err.Some? {
          err := v.last.value.err;
        }
        NextVisit(steps, before, v);
        NextTurn(plan, before, v);
        VisitIs(steps, v);
        if err.Some? {
          i := i + 1;
          continue;
        }
        if v.last.value.breaks {
          return err, true;
        }
        i := i + 1;
        if v.last.value.jump.Some? {
          var target := StepIndex(steps, v.last.value.jump.value);
          if target < |steps| {
            if left == 0 {
              return err, false;
            }
            left := left - 1;
            i := target;
          }
        }
      }
      finished := true;
    }
  }

  lemma NextVisit(steps: seq<Step>, trace: seq<Visit>, v: Visit)
    requires RunShape(steps, trace) && VisitOk(steps, v)
    requires v.index == if trace == [] then 0 else Next(steps, trace[|trace| - 1])
    requires trace != [] ==> !Breaks(trace[|trace| - 1])
    requires InTrouble(trace) ==> v.status == Skipped
    requires v.attempts == 2 ==> !Retried(steps, trace, steps[v.index].context)
    ensures RunShape(steps, trace + [v])
    ensures FirstError(trace + [v]) == if FirstError(trace).Some? then FirstError(trace)
                                       else if !Bad(v) then None
                                       else if v.last.None? then Some(CANCELLED) else v.last.value.err
    ensures InTrouble(trace + [v]) <==> InTrouble(trace) || Bad(v)
  {
    hide Next, Breaks, StepIndex, FirstError, VisitOk;
    TroubleNext(trace, v);
    FirstErrorSnoc(steps, trace, v);
    SkipsNext(trace, v);
    ChainedNext(steps, trace, v);
    RetriedNext(steps, trace, v);
  }

  lemma TroubleNext(trace: seq<Visit>, v: Visit)
    ensures InTrouble(trace + [v]) <==> InTrouble(trace) || Bad(v)
    ensures trace != [] && Bad(trace[|trace| - 1]) ==> InTrouble(trace)
  {
    hide Bad;
    var all := trace + [v];
    assert forall w | 0 <= w < |trace| :: all[w] == trace[w];
    assert all[|trace|] == v;
  }

  lemma NoVisits(p: Plan)
    ensures RunShape(p.steps, []) && FirstError([]) == None && !InTrouble([]) && Executed([]) == 0
    ensures forall context :: !Retried(p.steps, [], context)
  {
  }

  lemma VisitIs(steps: seq<Step>, v: Visit)
    requires VisitOk(steps, v)
    ensures v.index < |steps| && (!Bad(v) ==> v.last.Some? && v.last.value.err.None?)
    ensures v.last.Some? && v.last.value.err.Some? ==> Bad(v)
    ensures v.last.None? <==> v.status == Skipped
    ensures Bad(v) && v.last.Some? ==> v.last.value.err.Some?
  {
  }

  lemma NextTurn(p: Plan, trace: seq<Visit>, v: Visit)
    requires (forall t | 0 <= t < |trace| :: Turned(p, trace, t)) && v.index < |p.steps|
    requires if p.cancelled(|trace|) || InTrouble(trace)
             then v == Visit(v.index, Skipped, 0, None)
             else Executes(p.outcomes, v, Executed(trace), !Retried(p.steps, trace, p.steps[v.index].context))
    ensures forall t | 0 <= t < |trace + [v]| :: Turned(p, trace + [v], t)
    ensures Executed(trace + [v]) == Executed(trace) + v.attempts
    ensures forall context :: Retried(p.steps, trace + [v], context) <==>
              Retried(p.steps, trace, context) || (v.attempts == 2 && p.steps[v.index].context == context)
  {
    hide Executes;
    var all := trace + [v];
    assert all[..|trace|] == trace;
    forall t | 0 <= t < |all| ensures Turned(p, all, t) {
      assert t < |trace| ==> all[..t] == trace[..t] && Turned(p, trace, t);
    }
  }

  lemma RetriedNext(steps: seq<Step>, trace: seq<Visit>, v: Visit)
    requires RetriedOnce(steps, trace) && VisitOk(steps, v)
    requires v.attempts == 2 ==> !Retried(steps, trace, steps[v.index].context)
    ensures RetriedOnce(steps, trace + [v])
  {
  }

  lemma ChainedNext(steps: seq<Step>, trace: seq<Visit>, v: Visit)
    requires Chained(steps, trace) && v.index == if trace == [] then 0 else Next(steps, trace[|trace| - 1])
    requires trace != [] ==> !Breaks(trace[|trace| - 1])
    ensures Chained(steps, trace + [v])
  {
    hide Next, Breaks;
  }

  lemma SkipsNext(trace: seq<Visit>, v: Visit)
    requires SkipsAfterBad(trace) && (trace != [] && Bad(trace[|trace| - 1]) ==> v.status == Skipped)
    ensures SkipsAfterBad(trace + [v])
  {
    var all := trace + [v];
    forall x, y | 0 <= x < y < |all| && Bad(all[x]) ensures all[y].status == Skipped {
      if y == |trace| && x < |trace| - 1 { assert Bad(trace[|trace| - 1]); }
    }
  }

  lemma {:induction false} FirstErrorSnoc(steps: seq<Step>, trace: seq<Visit>, v: Visit)
    requires forall w | 0 <= w < |trace| :: VisitOk(steps, trace[w])
    ensures FirstError(trace + [v]) == if FirstError(trace).Some? then FirstError(trace)
                                       else if !Bad(v) then None
                                       else if v.last.None? then Some(CANCELLED) else v.last.value.err
  {
    var all := trace + [v];
    if trace == [] {
      assert all[1..] == [];
    } else {
      assert all[0] == trace[0] && VisitOk(steps, trace[0]);
      assert all[1..] == trace[1..] + [v];
      FirstErrorSnoc(steps, trace[1..], v);
    }
  }

  /** Nothing that follows the first trouble is executed: its visits are the
      later steps, one each, in order and skipped. */
  lemma {:induction false} AfterTrouble(steps: seq<Step>, trace: seq<Visit>, v: nat, w: nat)
    requires RunShape(steps, trace) && v < |trace| && Bad(trace[v]) && v <= w < |trace|
    ensures trace[w].index == trace[v].index + (w - v)
    ensures w > v ==> trace[w].status == Skipped && trace[w].attempts == 0
  {
    if w > v {
      AfterTrouble(steps, trace, v, w - 1);
      assert trace[w].status == Skipped;
      assert Bad(trace[w - 1]) && trace[w - 1 + 1].index == Next(steps, trace[w - 1]);
      assert VisitOk(steps, trace[w]);
    }
  }

  /** A run in trouble ends after visiting the steps that are left. */
  lemma TroubleEnds(steps: seq<Step>, trace: seq<Visit>, v: nat)
    requires RunShape(steps, trace) && v < |trace| && Bad(trace[v])
    requires Breaks(trace[|trace| - 1]) || Next(steps, trace[|trace| - 1]) == |steps|
    ensures |trace| - v == |steps| - trace[v].index
  {
    var last := |trace| - 1;
    AfterTrouble(steps, trace, v, last);
    assert Bad(trace[last]);
  }

  /** The error returned is that of the first visit in trouble. */
  lemma {:induction false} FirstErrorIs(trace: seq<Visit>, v: nat)
    requires v < |trace| && Bad(trace[v]) && forall w | 0 <= w < v :: !Bad(trace[w])
    ensures FirstError(trace) == if trace[v].last.None? then Some(CANCELLED) else trace[v].last.value.err
  {
    if v > 0 { FirstErrorIs(trace[1..], v - 1); }
  }

  // ----- the steps, their outcomes and the cancellation determine the run

  ghost predicate IsRun(p: Plan, trace: seq<Visit>) {
    Chained(p.steps, trace) && forall t | 0 <= t < |trace| :: Turned(p, trace, t)
  }

  /** Of two runs of one pipeline the shorter is how the longer began. */
  lemma {:induction false} OneRun(p: Plan, x: seq<Visit>, y: seq<Visit>)
    requires IsRun(p, x) && IsRun(p, y) && |x| <= |y|
    ensures x == y[..|x|]
    decreases |x|
  {
    if x != [] {
      var t := |x| - 1;
      RunBefore(p, x, t);
      OneRun(p, x[..t], y);
      assert x[..t] == y[..t];
      assert Turned(p, x, t) && Turned(p, y, t);
      SameIndex(p, x, y, t);
      assert x == x[..t] + [x[t]] && y[..|x|] == y[..t] + [y[t]];
      VisitsAgree(p.outcomes, x[t], y[t]);
    }
  }

  lemma RunBefore(p: Plan, trace: seq<Visit>, t: nat)
    requires IsRun(p, trace) && t <= |trace|
    ensures IsRun(p, trace[..t])
  {
    hide InTrouble, Executes, Executed, Retried, Breaks, Next;
    var part := trace[..t];
    forall u | 0 <= u < |part| ensures Turned(p, part, u) {
      assert part[..u] == trace[..u] && Turned(p, trace, u);
    }
  }

  lemma SameIndex(p: Plan, x: seq<Visit>, y: seq<Visit>, t: nat)
    requires IsRun(p, x) && IsRun(p, y) && t < |x| && t < |y| && x[..t] == y[..t]
    ensures x[t].index == y[t].index
  {
    hide Turned, Breaks, Next;
    if t > 0 {
      assert x[t - 1] == x[..t][t - 1] == y[..t][t - 1] == y[t - 1];
      assert x[t - 1 + 1].index == Next(p.steps, x[t - 1]) && y[t - 1 + 1].index == Next(p.steps, y[t - 1]);
    }
  }

  /** What a visit is follows from its index and what its turn starts from. */
  lemma VisitsAgree(outcomes: nat -> Attempt, v: Visit, w: Visit)
    ensures forall first, mayRetry | v.index == w.index && Executes(outcomes, v, first, mayRetry)
            && Executes(outcomes, w, first, mayRetry) :: v == w
  {
  }
}
