// SagaBuilder.Build and the records Engine.Submit makes of its result
// (saga/definition.go:192-284, saga/engine.go:286-341).
module Builder {
  import opened Wrappers
  import opened SagaTypes
  import opened Protocol

  // A step as the user describes it. typ, pollMethod: the empty string means default.
  datatype StepDef = StepDef(
    typ: string, hasAction: bool, hasCompensate: bool, hasPollConfig: bool,
    pollMethod: string, pollIntervalSec: int, pollMaxTimes: int, maxRetry: int,
    index: int, status: StepStatus)

  datatype BuildError = NoSteps | MissingAction | MissingCompensate | MissingPollConfig

  function Invalid(d: StepDef): Option<BuildError> {
    if !d.hasAction then Some(MissingAction)
    else if !d.hasCompensate then Some(MissingCompensate)
    else if d.typ == "async" && !d.hasPollConfig then Some(MissingPollConfig)
    else None
  }

  function WithDefaults(d: StepDef, i: nat): StepDef {
    d.(typ := if d.typ == "" then "sync" else d.typ,
       pollMethod := if d.pollMethod == "" then "GET" else d.pollMethod,
       pollIntervalSec := if d.pollIntervalSec == 0 then 5 else d.pollIntervalSec,
       pollMaxTimes := if d.pollMaxTimes == 0 then 60 else d.pollMaxTimes,
       maxRetry := if d.maxRetry == 0 then 3 else d.maxRetry,
       index := i,
       status := Pending)
  }

  // Ready for Submit: numbered in order, pending, complete, all defaults set.
  predicate Ready(d: StepDef, i: nat) {
    && Invalid(d).None? && d.index == i && d.status == Pending
    && d.typ != "" && d.pollMethod != "" && d.pollIntervalSec != 0 && d.pollMaxTimes != 0 && d.maxRetry != 0
  }

  // Step k is the first invalid one; only the steps before it were rewritten.
  predicate FailsAt(before: seq<StepDef>, after: seq<StepDef>, k: int, error: BuildError) {
    && 0 <= k < |before| == |after| && Invalid(before[k]) == Some(error)
    && (forall i :: 0 <= i < k ==> Invalid(before[i]).None? && after[i] == WithDefaults(before[i], i))
    && (forall i :: k <= i < |after| ==> after[i] == before[i])
  }

  class SagaBuilder {
    var steps: seq<StepDef>

    constructor ()
      ensures steps == []
    {
      steps := [];
    }

    method AddStep(d: StepDef)
      modifies this
      ensures steps == old(steps) + [d]
    {
      steps := steps + [d];
    }

    // Writes the defaults into the builder's own steps; on an error the steps before
    // the offending one have already been rewritten.
    method Build() returns (res: Result<seq<StepDef>, BuildError>)
      modifies this
      ensures |steps| == |old(steps)|
      ensures old(steps) == [] ==> res == Err(NoSteps)
      ensures res.Ok? <==> old(steps) != [] && forall i :: 0 <= i < |old(steps)| ==> Invalid(old(steps)[i]).None?
      ensures res.Ok? ==> res.value == steps && (forall i :: 0 <= i < |steps| ==>
                steps[i] == WithDefaults(old(steps)[i], i) && Ready(steps[i], i))
      ensures res.Err? && old(steps) != [] ==> exists k :: FailsAt(old(steps), steps, k, res.error)
    {
      if |steps| == 0 {
        return Err(NoSteps);
      }
      for i := 0 to |steps|
        invariant |steps| == |old(steps)|
        invariant forall j :: 0 <= j < i ==> Invalid(old(steps)[j]).None? && steps[j] == WithDefaults(old(steps)[j], j)
        invariant forall j :: i <= j < |steps| ==> steps[j] == old(steps)[j]
      {
        var step := steps[i];
        if !step.hasAction {
          assert FailsAt(old(steps), steps, i, MissingAction);
          return Err(MissingAction);
        }
        if !step.hasCompensate {
          assert FailsAt(old(steps), steps, i, MissingCompensate);
          return Err(MissingCompensate);
        }
        if step.typ == "async" && !step.hasPollConfig {
          assert FailsAt(old(steps), steps, i, MissingPollConfig);
          return Err(MissingPollConfig);
        }
        var d := step;
        if step.typ == "" { d := d.(typ := "sync"); }
        if step.pollMethod == "" { d := d.(pollMethod := "GET"); }
        if step.pollIntervalSec == 0 { d := d.(pollIntervalSec := 5); }
        if step.pollMaxTimes == 0 { d := d.(pollMaxTimes := 60); }
        if step.maxRetry == 0 { d := d.(maxRetry := 3); }
        steps := steps[i := d.(index := i, status := Pending)];
      }
      return Ok(steps);
    }
  }

  function Kind(typ: string): StepKind {
    if typ == "sync" then Sync else if typ == "async" then Async else OtherKind
  }

  // Submit numbers the steps afresh and starts all counters at zero.
  function StepRows(defs: seq<StepDef>): seq<StepRow> {
    seq(|defs|, i requires 0 <= i < |defs| =>
      StepRow(Kind(defs[i].typ), Pending, 0, defs[i].maxRetry, 0, defs[i].pollMaxTimes))
  }

  function Submitted(defs: seq<StepDef>, now: int, timeoutSec: int): Row {
    Row(TxPending, NoError, None, if timeoutSec > 0 then Some(now + timeoutSec) else None, 0, StepRows(defs), map[])
  }

  // The world right after Submit: a starting point of the protocol.
  function Launched(defs: seq<StepDef>, now: int, timeoutSec: int, leases: map<string, nat>): (w: World)
    ensures Init(w) && |w.sh.row.steps| == |defs|
  {
    World(now, Shared(Submitted(defs, now, timeoutSec), [], map[]), map[], leases)
  }

  // ---------- from the user's steps to the stored rows ----------

  // Which of several gaps is reported: action before compensation before polling.
  lemma InvalidMeans(d: StepDef)
    ensures Invalid(d) == Some(MissingAction) <==> !d.hasAction
    ensures Invalid(d) == Some(MissingCompensate) <==> d.hasAction && !d.hasCompensate
    ensures Invalid(d) == Some(MissingPollConfig) <==>
      d.hasAction && d.hasCompensate && d.typ == "async" && !d.hasPollConfig
    ensures Invalid(d) == None <==> d.hasAction && d.hasCompensate && (d.typ == "async" ==> d.hasPollConfig)
  {
  }

  function Completed(defs: seq<StepDef>): seq<StepDef> {
    seq(|defs|, i requires 0 <= i < |defs| => WithDefaults(defs[i], i))
  }

  // Building what was built already changes nothing.
  lemma CompletedTwice(defs: seq<StepDef>)
    ensures Completed(Completed(defs)) == Completed(defs)
  {
  }

  // A choice of the user is kept; GET every five seconds stands in for a missing one.
  lemma ChoicesKept(d: StepDef, i: nat)
    ensures var c := WithDefaults(d, i);
      && (d.pollMethod != "" ==> c.pollMethod == d.pollMethod) && (d.pollMethod == "" ==> c.pollMethod == "GET")
      && (d.pollIntervalSec != 0 ==> c.pollIntervalSec == d.pollIntervalSec)
      && (d.pollIntervalSec == 0 ==> c.pollIntervalSec == 5)
      && c.hasAction == d.hasAction && c.hasCompensate == d.hasCompensate && c.hasPollConfig == d.hasPollConfig
  {
  }

  // What the store holds after Build and Submit, from the steps as the user gave them:
  // zero stands for three attempts and sixty polls, the empty type for sync.
  lemma LaunchedMeans(defs: seq<StepDef>, now: int, timeoutSec: int, leases: map<string, nat>, i: nat)
    requires i < |defs|
    ensures var row := Launched(Completed(defs), now, timeoutSec, leases).sh.row;
      && |row.steps| == |defs|
      && var (d, step) := (defs[i], row.steps[i]);
      && step.maxRetry == (if d.maxRetry == 0 then 3 else d.maxRetry)
      && step.pollMaxTimes == (if d.pollMaxTimes == 0 then 60 else d.pollMaxTimes)
      && (step.kind == Sync <==> d.typ in {"", "sync"}) && (step.kind == Async <==> d.typ == "async")
      && step.status == Pending && step.retryCount == 0 && step.pollCount == 0
  {
  }

  // The transaction itself: not begun, not locked, nothing polled; the deadline lies
  // timeoutSec after now, and there is none unless timeoutSec is positive.
  lemma LaunchedRow(defs: seq<StepDef>, now: int, timeoutSec: int, leases: map<string, nat>)
    ensures var w := Launched(defs, now, timeoutSec, leases);
      var row := w.sh.row;
      && w.now == now && w.sh.log == [] && w.sh.claims == map[] && w.procs == map[]
      && row.status == TxPending && row.lock == None && row.currentStep == 0 && row.pollTasks == map[]
      && (row.timeoutAt.Some? <==> timeoutSec > 0)
      && (timeoutSec > 0 ==> row.timeoutAt == Some(now + timeoutSec))
  {
  }
}
