// When does "compensation completed" mean that every accepted action was undone? Over a
// class of disturbances it does if and only if the class is empty: Ledger has the one
// half, a run for each disturbance the other. And if polls may fail, it does for a given
// saga if and only if the saga has no async step.
module Guarantee {
  import opened Wrappers
  import opened SagaTypes
  import opened SagaStore
  import opened Selection
  import opened Protocol
  import opened SingleDriver
  import opened Settlement
  import opened Ledger
  import opened Playing
  import B = PollBudget
  import S = SagaSpec
  import F = Refinement
  import L = LoopInProtocol

  // One driver at a time, unless takeovers are in ds; of the rest whatever ds has.
  ghost predicate Disturbed(w: World, acts: seq<Action>, ds: set<Disturbance>) {
    Init(w) && Within(w, acts, ds) && (Takeover in ds || OneDriverRun(w, acts))
  }

  ghost predicate Guaranteed(ds: set<Disturbance>) {
    forall w, acts ::
      Disturbed(w, acts, ds) && Completed(RunFrom(w, acts).sh) ==> AllUndone(RunFrom(w, acts).sh.log)
  }

  // ---------- a small saga ----------

  // Answers under which every request is accepted, or refused.
  function Willing(now: int): S.World {
    S.World(_ => true, _ => S.Accept, _ => [], _ => now)
  }

  function Unwilling(now: int): S.World {
    S.World(_ => true, _ => S.HttpError, _ => [], _ => now)
  }

  function Submitted(steps: seq<StepRow>): World {
    World(0, Shared(Row(TxPending, NoError, None, None, 0, steps, map[]), [], map[]), map[], map[])
  }

  // n sync steps with one attempt each.
  function Fresh(n: nat): World {
    Submitted(seq(n, _ => StepRow(Sync, Pending, 0, 1, 0, 0)))
  }

  function Player(pid: nat, inst: string, now: int, ds: set<Disturbance>): Me {
    Me(pid, inst, DEFAULT_LEASE, now, ds, false)
  }

  predicate Plain(step: StepRow, st: StepStatus) {
    step.kind == Sync && step.status == st && step.maxRetry == 1 && step.retryCount >= 0
  }

  // Where such a saga has got to.
  predicate Stage(sh: Shared, tx: TxStatus, sts: seq<StepStatus>, log: seq<Event>) {
    && sh.row.status == tx && sh.row.timeoutAt.None? && sh.row.pollTasks == map[]
    && |sh.row.steps| == |sts| && (forall j :: 0 <= j < |sts| ==> Plain(sh.row.steps[j], sts[j]))
    && L.Unpolled(sh.log) == log
  }

  // ---------- undisturbed stretches ----------

  lemma ClaimPlays(me: Me, sh: Shared, tx: TxStatus, sts: seq<StepStatus>, log: seq<Event>) returns (u: Spot)
    requires Stage(sh, tx, sts, log) && Live(tx) && (sh.row.lock.None? || Held(sh.row, me))
    ensures Leads(me, Entered(sh), u) && u.pc == Drive(LoadTx) && Stage(u.sh, tx, sts, log) && Held(u.sh.row, me)
  {
    u := Move(me, Entered(sh), Entered(sh), Calm);
  }

  lemma BeginPlays(me: Me, s: Spot, t: Spot, sts: seq<StepStatus>, log: seq<Event>) returns (u: Spot)
    requires Leads(me, s, t) && t.pc == Drive(LoadTx) && Stage(t.sh, TxPending, sts, log) && Held(t.sh.row, me)
    ensures Leads(me, s, u) && u.pc == Drive(LoadTx) && Stage(u.sh, TxRunning, sts, log) && Held(u.sh.row, me)
  {
    u := L.LoadPlays(me, s, t);
    u := Move(me, s, u, Calm);
  }

  // The saga is running, in the process's hands, and step k is next.
  predicate Next(me: Me, t: Spot, sts: seq<StepStatus>, k: nat, log: seq<Event>) {
    && t.pc == Drive(LoadTx) && Stage(t.sh, TxRunning, sts, log) && Held(t.sh.row, me)
    && k < |sts| && (sts[k] == Pending || sts[k] == Running)
    && (forall j :: 0 <= j < k ==> sts[j] == Succeeded)
    && (forall j :: k < j < |sts| ==> sts[j] == Pending)
  }

  // Up to the point where step k is taken up.
  lemma TakePlays(me: Me, s: Spot, t: Spot, sts: seq<StepStatus>, k: nat, log: seq<Event>) returns (u: Spot)
    requires Leads(me, s, t) && Next(me, t, sts, k, log)
    ensures Leads(me, s, u) && Stage(u.sh, TxRunning, sts, log) && Held(u.sh.row, me)
    ensures u.pc == Exec(MarkRunning, k, u.sh.row.steps[k])
  {
    u := L.LoadPlays(me, s, t);
    var steps := u.sh.row.steps;
    assert steps == t.sh.row.steps && Front(steps, k) && !AnyFailed(steps);
    assert !AllSucceeded(steps) by { assert steps[k].status != Succeeded; }
    PickAtFront(steps, k, |steps|);
    u := Move(me, s, u, Calm);
  }

  lemma AcceptPlays(me: Me, s: Spot, t: Spot, sts: seq<StepStatus>, k: nat, log: seq<Event>) returns (u: Spot)
    requires Leads(me, s, t) && Next(me, t, sts, k, log)
    ensures Leads(me, s, u) && u.pc == Drive(LoadTx) && Held(u.sh.row, me)
    ensures Stage(u.sh, TxRunning, sts[k := Succeeded], log + [ForwardAccepted(k)])
  {
    u := TakePlays(me, s, t, sts, k, log);
    u := L.AttemptPlays(me, s, u, k, Willing(me.now), 0);
    L.LogOfOne(S.Exchange(S.ForwardRequest(k), true));
  }

  lemma RefusePlays(me: Me, s: Spot, t: Spot, sts: seq<StepStatus>, k: nat, log: seq<Event>) returns (u: Spot)
    requires Leads(me, s, t) && Next(me, t, sts, k, log)
    ensures Leads(me, s, u) && u.pc == Drive(LoadTx) && Held(u.sh.row, me)
    ensures Stage(u.sh, TxCompensating, sts[k := Failed], log)
  {
    u := TakePlays(me, s, t, sts, k, log);
    u := L.AttemptPlays(me, s, u, k, Unwilling(me.now), 0);
    L.LogOfOne(S.Exchange(S.ForwardRequest(k), false));
  }

  // Sent and accepted, but the answer is not stored yet.
  lemma SendPlays(me: Me, s: Spot, t: Spot, sts: seq<StepStatus>, k: nat, log: seq<Event>) returns (u: Spot)
    requires Leads(me, s, t) && Next(me, t, sts, k, log)
    ensures Leads(me, s, u) && u.pc.Exec? && u.pc.e == SaveResponse && Held(u.sh.row, me)
    ensures Stage(u.sh, TxRunning, sts[k := Running], log + [ForwardAccepted(k)])
  {
    u := TakePlays(me, s, t, sts, k, log);
    u := L.SentPlays(me, s, u, k, Willing(me.now), 0);
    L.LogOfOne(S.Exchange(S.ForwardRequest(k), true));
  }

  // A pass that finds nothing to undo.
  lemma IdlePassPlays(me: Me, s: Spot, t: Spot, sts: seq<StepStatus>, log: seq<Event>) returns (u: Spot)
    requires Leads(me, s, t) && t.pc == Drive(LoadTx) && Stage(t.sh, TxCompensating, sts, log) && Held(t.sh.row, me)
    requires |sts| == 1 && !Undoable(sts[0])
    ensures Leads(me, s, u) && u.pc == Drive(Releasing) && Completed(u.sh) && L.Unpolled(u.sh.log) == log
  {
    u := L.LoadPlays(me, s, t);
    assert ToCompensate(t.sh.row.steps, 1) == [];
    u := L.FinishPlays(me, s, u, u.pc.job);
  }

  // ---------- one run for each disturbance ----------

  ghost predicate Breaks(w: World, r: World, ds: set<Disturbance>, i: nat) {
    && Init(w) && Runs(w, r, ds) && Completed(r.sh)
    && ForwardAccepted(i) in r.sh.log && CompensateAccepted(i) !in r.sh.log
  }

  lemma FreshStage(n: nat)
    ensures Init(Fresh(n)) && Stage(Fresh(n).sh, TxPending, seq(n, _ => Pending), [])
  {
  }

  lemma NotUndone(log: seq<Event>, i: nat)
    requires ForwardAccepted(i) in L.Unpolled(log) && CompensateAccepted(i) !in L.Unpolled(log)
    ensures ForwardAccepted(i) in log && CompensateAccepted(i) !in log
  {
    L.InUnpolled(log, ForwardAccepted(i));
    L.InUnpolled(log, CompensateAccepted(i));
  }

  // The first driver, up to an accepted answer that is not stored yet.
  lemma FirstAttempt(me: Me) returns (u: Spot)
    requires me.now == 0
    ensures Leads(me, Entered(Fresh(1).sh), u) && u.pc.Exec? && u.pc.e == SaveResponse && Held(u.sh.row, me)
    ensures Stage(u.sh, TxRunning, [Running], [ForwardAccepted(0)])
  {
    var w := Fresh(1);
    FreshStage(1);
    u := ClaimPlays(me, w.sh, TxPending, [Pending], []);
    u := BeginPlays(me, Entered(w.sh), u, [Pending], []);
    u := SendPlays(me, Entered(w.sh), u, [Pending], 0, []);
  }

  lemma LoseAnswer(me: Me, s: Spot, t: Spot, sts: seq<StepStatus>, log: seq<Event>) returns (u: Spot)
    requires StoreFailure in me.ds && Leads(me, s, t) && t.pc.Exec? && t.pc.e == SaveResponse
    requires Stage(t.sh, TxRunning, sts, log) && Held(t.sh.row, me)
    ensures Leads(me, s, u) && u.pc == Drive(LoadTx) && Stage(u.sh, TxCompensating, sts, log) && Held(u.sh.row, me)
  {
    u := Move(me, s, t, Calm.(fault := Lost));
    u := L.TriggerPlays(me, s, u);
  }

  // The answer cannot be stored: the step stays running and is passed over.
  lemma StoreFailureBreaks() returns (w: World, r: World)
    ensures Breaks(w, r, {StoreFailure}, 0)
  {
    var me := Player(0, "a", 0, {StoreFailure});
    w := Fresh(1);
    FreshStage(1);
    var s := Entered(w.sh);
    var u := FirstAttempt(me);
    u := LoseAnswer(me, s, u, [Running], [ForwardAccepted(0)]);
    u := IdlePassPlays(me, s, u, [Running], [ForwardAccepted(0)]);
    DriveRuns(w, me, u);
    NotUndone(u.sh.log, 0);
    r := w.(sh := DoRelease(u.sh, Fine, me.inst));
  }

  // When the first lease has run out, a recovery scan hands the transaction to another
  // driver: the running step is sent again, refused, and failed.
  lemma SecondAttempt(w: World, me: Me) returns (v: Spot)
    requires Stage(w.sh, TxRunning, [Running], [ForwardAccepted(0)])
    requires Recoverable(w.sh.row, w.now) && me.now == w.now && me.lease == LeaseOf(w, me.inst)
    requires me.pid !in w.procs && me.pid != 1 && 1 !in w.procs && (Takeover in me.ds || me.pid == 0)
    ensures Completed(v.sh) && L.Unpolled(v.sh.log) == [ForwardAccepted(0)]
    ensures Runs(w, w.(sh := DoRelease(v.sh, Fine, me.inst)), me.ds)
  {
    var found := w.(sh := Recovered(w, me.inst));
    RecoveryRuns(w, me);
    var s := Entered(found.sh);
    v := ClaimPlays(me, found.sh, TxRunning, [Running], [ForwardAccepted(0)]);
    v := RefusePlays(me, s, v, [Running], 0, [ForwardAccepted(0)]);
    v := IdlePassPlays(me, s, v, [Failed], [ForwardAccepted(0)]);
    DriveRuns(found, me, v);
    RunsOn(w, found, found.(sh := DoRelease(v.sh, Fine, me.inst)), me.ds);
  }

  const Later: nat := DEFAULT_LEASE + 1

  // A crash before the answer is stored.
  lemma CrashBreaks() returns (w: World, r: World)
    ensures Breaks(w, r, {CrashStop}, 0)
  {
    var ds := {CrashStop};
    var me := Player(0, "a", 0, ds);
    w := Fresh(1);
    FreshStage(1);
    var u := FirstAttempt(me);
    CrashRuns(w, me, u);
    var crashed := w.(sh := u.sh);
    var later := crashed.(now := Later);
    RunsByOne(crashed, Tick(Later), ds);
    RunsOn(w, crashed, later, ds);
    var v := SecondAttempt(later, Player(0, "a", Later, ds));
    r := later.(sh := DoRelease(v.sh, Fine, "a"));
    RunsOn(w, later, r, ds);
    NotUndone(v.sh.log, 0);
  }

  // The first driver does not crash but outlives its lease: another instance takes over.
  lemma TakeoverBreaks() returns (w: World, r: World)
    ensures Breaks(w, r, {Takeover}, 0)
  {
    var ds := {Takeover};
    var me := Player(0, "a", 0, ds);
    w := Fresh(1);
    FreshStage(1);
    var u := FirstAttempt(me);
    DriverRuns(w, me, u);
    var slow := Placed(w, me, u);
    var later := slow.(now := Later);
    RunsByOne(slow, Tick(Later), ds);
    RunsOn(w, slow, later, ds);
    var v := SecondAttempt(later, Player(2, "b", Later, ds));
    r := later.(sh := DoRelease(v.sh, Fine, "b"));
    RunsOn(w, later, r, ds);
    NotUndone(v.sh.log, 0);
  }

  // An interrupted pass forgets that an undo has failed: the next one skips that step.
  lemma InterruptionBreaks() returns (w: World, r: World)
    ensures Breaks(w, r, {Interruption}, 1)
  {
    var me := Player(0, "a", 0, {Interruption});
    w := Fresh(3);
    FreshStage(3);
    var u, log := InterruptedPass(me, w.sh);
    DriveRuns(w, me, u);
    var stopped := w.(sh := DoRelease(u.sh, Fine, me.inst));
    var v := SecondPass(stopped, me, log);
    r := stopped.(sh := DoRelease(v.sh, Fine, me.inst));
    RunsOn(w, stopped, r, me.ds);
    NotUndone(v.sh.log, 1);
  }

  // Two steps are done, the third is refused.
  lemma ThirdRefused(me: Me, sh: Shared) returns (u: Spot)
    requires Stage(sh, TxPending, [Pending, Pending, Pending], []) && sh.row.lock.None?
    ensures Leads(me, Entered(sh), u) && u.pc == Drive(LoadTx) && Held(u.sh.row, me)
    ensures Stage(u.sh, TxCompensating, [Succeeded, Succeeded, Failed], [ForwardAccepted(0), ForwardAccepted(1)])
  {
    var s := Entered(sh);
    var sts := [Pending, Pending, Pending];
    u := ClaimPlays(me, sh, TxPending, sts, []);
    u := BeginPlays(me, s, u, sts, []);
    u := AcceptPlays(me, s, u, sts, 0, []);
    u := AcceptPlays(me, s, u, sts[0 := Succeeded], 1, [ForwardAccepted(0)]);
    u := RefusePlays(me, s, u, sts[0 := Succeeded][1 := Succeeded], 2, [ForwardAccepted(0), ForwardAccepted(1)]);
    assert sts[0 := Succeeded][1 := Succeeded][2 := Failed] == [Succeeded, Succeeded, Failed];
  }

  // Undoing the second step fails, then the pass is interrupted.
  lemma InterruptedPass(me: Me, sh: Shared) returns (u: Spot, log: seq<Event>)
    requires Interruption in me.ds && Stage(sh, TxPending, [Pending, Pending, Pending], []) && sh.row.lock.None?
    ensures Leads(me, Entered(sh), u) && u.pc == Drive(Releasing) && Held(u.sh.row, me)
    ensures Stage(u.sh, TxCompensating, [Succeeded, Failed, Failed], log)
    ensures ForwardAccepted(1) in log && CompensateAccepted(1) !in log
  {
    u := ThirdRefused(me, sh);
    u, log := FailedUndo(me, Entered(sh), u);
    u := Move(me, Entered(sh), u, Calm.(stop := true));
  }

  lemma FailedUndo(me: Me, s: Spot, t: Spot) returns (u: Spot, log: seq<Event>)
    requires Leads(me, s, t) && t.pc == Drive(LoadTx) && Held(t.sh.row, me)
    requires Stage(t.sh, TxCompensating, [Succeeded, Succeeded, Failed], [ForwardAccepted(0), ForwardAccepted(1)])
    ensures Leads(me, s, u) && Held(u.sh.row, me) && u.pc.Comp? && u.pc.c == NextStep && u.pc.job.todo == [0]
    ensures Stage(u.sh, TxCompensating, [Succeeded, Failed, Failed], log)
    ensures ForwardAccepted(1) in log && CompensateAccepted(1) !in log
  {
    u := L.LoadPlays(me, s, t);
    var steps := u.sh.row.steps;
    ListOf(steps);
    RefusedUndo(Unwilling(0), 0, steps[1], 1);
    u := L.UndoPlays(me, s, u, u.pc.job, Unwilling(0), 0);
    log := L.Unpolled(u.sh.log);
    assert L.Unpolled(t.sh.log)[1] == ForwardAccepted(1) && log[1] == ForwardAccepted(1);
  }

  lemma ListOf(steps: seq<StepRow>)
    requires |steps| == 3 && Undoable(steps[0].status) && !Undoable(steps[2].status)
    ensures ToCompensate(steps, 3) == if Undoable(steps[1].status) then [1, 0] else [0]
  {
    assert ToCompensate(steps, 1) == [0];
  }

  // Where everything is refused, nothing is undone.
  lemma {:induction false} RefusedRun(w: S.World, n: nat, left: nat)
    requires forall k :: w.reply(k).HttpError?
    ensures !S.UndoRun(w, n, left).0
    decreases left
  {
    if left > 0 {
      RefusedRun(w, n + 1, left - 1);
    }
  }

  lemma RefusedUndo(w: S.World, n: nat, step: StepRow, i: nat)
    requires forall k :: w.reply(k).HttpError?
    ensures !S.UndoStep(w, n, step).0
    ensures CompensateAccepted(i) !in L.LogOf(S.UndoTrail(w, n, step, i).wire)
  {
    var wire := S.UndoTrail(w, n, step, i).wire;
    RefusedRun(w, n + 1, S.UndoAttempts(step));
    S.UndoRequestsBound(w, n, step, i);
    S.AcceptedOnWire(wire, S.UndoRequest(i), false, S.UndoRequest(i));
    L.InLog(wire, i);
  }

  // A scan finds the released transaction; its driver finds only the first step to undo.
  lemma SecondPass(w: World, me: Me, log: seq<Event>) returns (v: Spot)
    requires Stage(w.sh, TxCompensating, [Succeeded, Failed, Failed], log)
    requires ForwardAccepted(1) in log && CompensateAccepted(1) !in log
    requires w.sh.row.lock.None? && w.procs == map[] && me.pid == 0
    requires me.now == w.now && me.lease == LeaseOf(w, me.inst)
    ensures Completed(v.sh)
    ensures ForwardAccepted(1) in L.Unpolled(v.sh.log) && CompensateAccepted(1) !in L.Unpolled(v.sh.log)
    ensures Runs(w, w.(sh := DoRelease(v.sh, Fine, me.inst)), me.ds)
  {
    var found := w.(sh := Recovered(w, me.inst));
    RecoveryRuns(w, me);
    var s := Entered(found.sh);
    v := ClaimPlays(me, found.sh, TxCompensating, [Succeeded, Failed, Failed], log);
    v := L.LoadPlays(me, s, v);
    var steps := v.sh.row.steps;
    ListOf(steps);
    AcceptedUndo(steps[0]);
    v := L.UndoPlays(me, s, v, v.pc.job, Willing(0), 0);
    v := L.FinishPlays(me, s, v, v.pc.job);
    DriveRuns(found, me, v);
    RunsOn(w, found, found.(sh := DoRelease(v.sh, Fine, me.inst)), me.ds);
    assert L.Unpolled(v.sh.log) == log + [CompensateSent(0), CompensateAccepted(0)];
  }

  lemma AcceptedUndo(step: StepRow)
    requires Plain(step, Succeeded)
    ensures S.UndoStep(Willing(0), 0, step).0
    ensures L.LogOf(S.UndoTrail(Willing(0), 0, step, 0).wire) == [CompensateSent(0), CompensateAccepted(0)]
  {
    assert S.UndoAttempts(step) == 2;
    L.LogOfOne(S.Exchange(S.UndoRequest(0), true));
  }

  // ---------- polls that fail ----------

  // Every request is accepted, every poll reports a failure.
  ghost predicate Denying(o: S.World) {
    && (forall n :: o.canRender(n)) && (forall n :: o.reply(n).Accept?)
    && (forall n :: o.polls(n) == [B.FailureValue])
  }

  // Step k is the first async one.
  predicate FirstAsync(steps: seq<StepRow>, k: nat) {
    k < |steps| && steps[k].kind == Async && NoAsync(steps[..k])
  }

  lemma DeniedStep(o: S.World, n: nat, step: StepRow)
    requires Denying(o) && step.status == Pending
    ensures S.Attempts(o, n, S.AttemptsLeft(step)).0
    ensures S.StepRun(o, n, step).0 == if step.kind == Async then S.Broken else S.Done
  {
    var left := S.AttemptsLeft(step);
    assert S.Try(o, n) == (S.Good, n + 2);
    assert S.Attempts(o, n, left) == (true, n + 2);
    assert S.Polls(o, n + 2)[0] == B.FailureValue;
  }

  // Then the forward run gets to the first async step, which is accepted and broken.
  lemma {:induction false} DeniedRun(o: S.World, n: nat, steps: seq<StepRow>, j: nat, k: nat)
    requires Denying(o) && FirstAsync(steps, k) && j <= k
    requires forall i :: 0 <= i < |steps| ==> steps[i].status == Pending
    ensures S.ForwardRun(o, n, steps, j).0 == S.StopsAt(k, S.Broken)
    decreases k - j
  {
    DeniedStep(o, n, steps[j]);
    if j < k {
      assert steps[..k][j] == steps[j];
      DeniedRun(o, S.StepRun(o, n, steps[j]).1, steps, j + 1, k);
    }
  }

  // Everything below is undone.
  lemma {:induction false} DeniedUndo(o: S.World, n: nat, steps: seq<StepRow>, todo: seq<nat>)
    requires Denying(o) && forall i :: 0 <= i < |todo| ==> todo[i] < |steps| && UndoRetries(steps[todo[i]]) >= 0
    ensures S.AllTrue(S.UndoAll(o, n, steps, todo).0)
    decreases |todo|
  {
    if todo != [] {
      var left := S.UndoAttempts(steps[todo[0]]);
      assert S.UndoRun(o, n + 1, left) == (true, n + 2);
      DeniedUndo(o, n + 2, steps, todo[1..]);
    }
  }

  lemma MeantFails(w: S.World, n: nat, steps: seq<StepRow>, r: Row, trail: S.Trail)
    requires F.Meant(w, n, steps, 0, r, trail) && S.ForwardRun(w, n, steps, 0).0.StopsAt?
    ensures var (f, n') := S.ForwardRun(w, n, steps, 0);
      r.status.TxFailed? && (S.AllTrue(F.Undone(w, n', steps, f)) ==> r.lastError == CompensationCompleted)
  {
    assert S.SagaVerdicts(w, n, steps, 0).tx == TxFailed;
  }

  // A step that is accepted and broken later is found accepted and never undone.
  lemma BrokenLater(steps: seq<StepRow>, o: S.World, n: nat, k: nat, log: seq<Event>)
    requires k < |steps| && forall j :: 0 <= j < |steps| ==> steps[j].status == Pending
    requires S.ForwardRun(o, n, steps, 0).0 == S.StopsAt(k, S.Broken)
    requires S.Attempts(o, S.Reach(o, n, steps, 0, k), S.AttemptsLeft(steps[k])).0
    requires L.Unpolled(log) == L.LogOf(S.SagaTrail(o, n, steps, 0).wire)
    ensures ForwardAccepted(k) in log && CompensateAccepted(k) !in log
  {
    L.AcceptedInHistory(o, n, steps, log, k);
  }

  // A saga with an async step, below which every step may be undone at least once, has a
  // run in which that step is accepted, failed by its poll, and never undone.
  lemma PollFailureBreaks(w: World, o: S.World, n: nat, k: nat) returns (r: World)
    requires Init(w) && w.sh.row.timeoutAt.None? && L.DueAtOnce(o, w.now) && Denying(o)
    requires FirstAsync(w.sh.row.steps, k) && forall j :: 0 <= j < k ==> UndoRetries(w.sh.row.steps[j]) >= 0
    ensures Breaks(w, r, {PollFailure}, k)
  {
    var steps := w.sh.row.steps;
    var trail := S.SagaTrail(o, n, steps, 0);
    L.SagaHasARun(w, "a", o, n);
    assert L.PollTroubles(w.sh.row) == {PollFailure};
    r :| Runs(w, r, {PollFailure}) && F.Meant(o, n, steps, 0, r.sh.row, trail)
         && L.Unpolled(r.sh.log) == L.LogOf(trail.wire);
    DeniedRun(o, n, steps, 0, k);
    MeantFails(o, n, steps, r.sh.row, trail);
    DeniedUndo(o, S.ForwardRun(o, n, steps, 0).1, steps, S.Downwards(k));
    DeniedStep(o, S.Reach(o, n, steps, 0, k), steps[k]);
    BrokenLater(steps, o, n, k, r.sh.log);
  }

  // ---------- theorems ----------

  lemma {:induction false} WithinMore(w: World, acts: seq<Action>, ds: set<Disturbance>, more: set<Disturbance>)
    requires Within(w, acts, ds) && ds <= more
    ensures Within(w, acts, more)
  {
    if acts != [] {
      WithinMore(w, acts[..|acts| - 1], ds, more);
    }
  }

  lemma SoloIsOneDriver(w: World, acts: seq<Action>)
    requires SoloRun(w, acts)
    ensures OneDriverRun(w, acts)
  {
    forall k | 0 <= k <= |acts| ensures OneDriver(RunFrom(w, acts[..k])) {
      assert Solo(RunFrom(w, acts[..k]));
    }
  }

  lemma BreaksDisturbed(w: World, r: World, ds: set<Disturbance>, i: nat, more: set<Disturbance>)
    returns (acts: seq<Action>)
    requires Breaks(w, r, ds, i) && ds <= more
    ensures Disturbed(w, acts, more) && RunFrom(w, acts) == r && !AllUndone(r.sh.log)
  {
    acts :| RunsBy(w, acts, r, ds);
    WithinMore(w, acts, ds, more);
    if Takeover !in ds {
      TidyIsSolo(w, acts);
      SoloIsOneDriver(w, acts);
    }
  }

  lemma DisturbanceBreaks(d: Disturbance) returns (w: World, r: World, i: nat)
    ensures Breaks(w, r, {d}, i)
  {
    match d
    case StoreFailure => w, r := StoreFailureBreaks(); i := 0;
    case CrashStop => w, r := CrashBreaks(); i := 0;
    case Interruption => w, r := InterruptionBreaks(); i := 1;
    case Takeover => w, r := TakeoverBreaks(); i := 0;
    case PollFailure =>
      w := Submitted([StepRow(Async, Pending, 0, 1, 0, 0)]);
      r := PollFailureBreaks(w, S.World(_ => true, _ => S.Accept, _ => [B.FailureValue], _ => 0), 0, 0);
      i := 0;
  }

  // "Compensation completed" means that every accepted action was undone, over a class
  // of disturbances, if and only if there are none.
  lemma GuaranteedIffUndisturbed(ds: set<Disturbance>)
    ensures Guaranteed(ds) <==> ds == {}
  {
    if ds == {} {
      forall w, acts | Disturbed(w, acts, ds) && Completed(RunFrom(w, acts).sh)
        ensures AllUndone(RunFrom(w, acts).sh.log)
      {
        CompletedMeansUndone(w, acts);
      }
    } else {
      var d :| d in ds;
      var w, r, i := DisturbanceBreaks(d);
      var acts := BreaksDisturbed(w, r, {d}, i, ds);
    }
  }

  // For the saga with these steps, whatever its polls report.
  ghost predicate HarmlessPolls(steps: seq<StepRow>) {
    forall w: World, acts ::
      w.sh.row.steps == steps && Disturbed(w, acts, {PollFailure}) && Completed(RunFrom(w, acts).sh) ==>
        AllUndone(RunFrom(w, acts).sh.log)
  }

  lemma {:induction false} NoAsyncNoFailure(w: World, acts: seq<Action>)
    requires Init(w) && NoAsync(w.sh.row.steps) && Within(w, acts, {PollFailure})
    ensures Within(w, acts, {})
  {
    if acts != [] {
      var before, a := acts[..|acts| - 1], acts[|acts| - 1];
      NoAsyncNoFailure(w, before);
      RunNoPolls(w, before);
    }
  }

  lemma {:induction false} HasFirstAsync(steps: seq<StepRow>, n: nat) returns (k: nat)
    requires n < |steps| && steps[n].kind == Async
    ensures FirstAsync(steps, k)
  {
    if NoAsync(steps[..n]) {
      k := n;
    } else {
      var i :| 0 <= i < n && steps[..n][i].kind == Async;
      k := HasFirstAsync(steps, i);
    }
  }

  // Failing polls cannot make the verdict wrong if and only if the saga has no async
  // step. (Build leaves a negative retry limit alone; such a step is never undone.)
  lemma HarmlessPollsIffNoAsync(steps: seq<StepRow>)
    requires forall i :: 0 <= i < |steps| ==> steps[i].status == Pending && steps[i].maxRetry >= 0
    ensures HarmlessPolls(steps) <==> NoAsync(steps)
  {
    if NoAsync(steps) {
      forall w: World, acts |
        w.sh.row.steps == steps && Disturbed(w, acts, {PollFailure}) && Completed(RunFrom(w, acts).sh)
        ensures AllUndone(RunFrom(w, acts).sh.log)
      {
        NoAsyncNoFailure(w, acts);
        CompletedMeansUndone(w, acts);
      }
    } else {
      var n :| 0 <= n < |steps| && steps[n].kind == Async;
      var k := HasFirstAsync(steps, n);
      var w := Submitted(steps);
      var o := S.World(_ => true, _ => S.Accept, _ => [B.FailureValue], _ => 0);
      var r := PollFailureBreaks(w, o, 0, k);
      var acts := BreaksDisturbed(w, r, {PollFailure}, k, {PollFailure});
    }
  }
}
