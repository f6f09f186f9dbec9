// The drive loop of DriveLoop and the interleaving model of Protocol describe the same
// code at two grains. Here every execution of the loop, with the poll workers it waits
// for, is found again, store call by store call, as a run of the interleaving model with
// the same rows and the same exchanges on the wire: what is proved of all runs holds for
// the loop, and the runs are rich enough to complete or to undo every saga.
module LoopInProtocol {
  import opened SagaTypes
  import opened SagaStore
  import opened Selection
  import opened Protocol
  import opened Playing
  import B = PollBudget
  import S = SagaSpec
  import D = DriveLoop
  import F = Refinement
  import C = CoordinatorClasses

  // ---------- histories ----------

  // What an exchange leaves in the history.
  function EventsOf(x: S.Exchange): seq<Event> {
    match x.request
    case ForwardRequest(i) => if x.accepted then [ForwardAccepted(i)] else []
    case UndoRequest(i) => [CompensateSent(i)] + if x.accepted then [CompensateAccepted(i)] else []
  }

  function LogOf(wire: seq<S.Exchange>): seq<Event> {
    if wire == [] then [] else EventsOf(wire[0]) + LogOf(wire[1..])
  }

  // A history without polls.
  function Unpolled(log: seq<Event>): seq<Event> {
    if log == [] then []
    else Unpolled(log[..|log| - 1]) + (if log[|log| - 1].PollMatched? then [] else [log[|log| - 1]])
  }

  lemma {:induction false} LogOfConcat(a: seq<S.Exchange>, b: seq<S.Exchange>)
    ensures LogOf(a + b) == LogOf(a) + LogOf(b)
  {
    if a == [] {
      assert a + b == b;
    } else {
      assert (a + b)[1..] == a[1..] + b;
      LogOfConcat(a[1..], b);
    }
  }

  lemma {:induction false} UnpolledConcat(a: seq<Event>, b: seq<Event>)
    ensures Unpolled(a + b) == Unpolled(a) + Unpolled(b)
  {
    if b == [] {
      assert a + b == a;
    } else {
      assert (a + b)[..|a + b| - 1] == a + b[..|b| - 1];
      UnpolledConcat(a, b[..|b| - 1]);
    }
  }

  // From t to u exactly these exchanges took place.
  ghost predicate Logged(t: Spot, u: Spot, wire: seq<S.Exchange>) {
    Unpolled(u.sh.log) == Unpolled(t.sh.log) + LogOf(wire)
  }

  lemma LoggedNothing(t: Spot, u: Spot)
    requires u.sh.log == t.sh.log
    ensures Logged(t, u, [])
  {
  }

  lemma {:induction false} UnpolledSame(log: seq<Event>)
    requires forall e :: e in log ==> !e.PollMatched?
    ensures Unpolled(log) == log
  {
    if log != [] {
      UnpolledSame(log[..|log| - 1]);
      assert log == log[..|log| - 1] + [log[|log| - 1]];
    }
  }

  lemma LogOfOne(x: S.Exchange)
    ensures LogOf([x]) == EventsOf(x)
  {
    assert LogOf([]) == [];
  }

  lemma EventsUnpolled(log: seq<Event>, x: S.Exchange)
    ensures Unpolled(log + EventsOf(x)) == Unpolled(log) + EventsOf(x)
  {
    UnpolledSame(EventsOf(x));
    UnpolledConcat(log, EventsOf(x));
  }

  lemma LoggedOne(t: Spot, u: Spot, x: S.Exchange)
    requires u.sh.log == t.sh.log + EventsOf(x)
    ensures Logged(t, u, [x])
  {
    LogOfOne(x);
    EventsUnpolled(t.sh.log, x);
  }

  lemma Chain(p: seq<Event>, x: seq<Event>, q: seq<Event>, y: seq<Event>, r: seq<Event>)
    requires q == p + x && r == q + y
    ensures r == p + (x + y)
  {
  }

  lemma LoggedThen(t: Spot, u: Spot, v: Spot, a: seq<S.Exchange>, b: seq<S.Exchange>)
    requires Logged(t, u, a) && Logged(u, v, b)
    ensures Logged(t, v, a + b)
  {
    LogOfConcat(a, b);
    Chain(Unpolled(t.sh.log), LogOf(a), Unpolled(u.sh.log), LogOf(b), Unpolled(v.sh.log));
  }

  // ---------- poll workers ----------

  // Every poll task is due and free, as when polls follow each other at once.
  predicate TasksReady(row: Row, now: int) {
    forall i :: i in row.pollTasks ==> row.pollTasks[i].nextPollAt <= now && row.pollTasks[i].lockedUntil.None?
  }

  // No step is ever polled.
  predicate NeverPolled(row: Row) {
    row.pollTasks == map[] && forall i :: 0 <= i < |row.steps| ==> row.steps[i].kind != Async
  }

  // The process has poll workers beside it, which may also fail a step.
  predicate Helpful(me: Me) {
    me.helped && PollFailure in me.ds
  }

  // What the loop needs at every turn.
  predicate Playable(row: Row, me: Me) {
    && row.timeoutAt.None? && row.lock.Some? && row.lock.value.holder == me.inst
    && (NeverPolled(row) || (Helpful(me) && TasksReady(row, me.now)))
  }

  lemma {:induction false} PollsPlay(me: Me, s: Spot, t: Spot, i: nat, replies: seq<B.Reply>) returns (u: Spot)
    requires Leads(me, s, t) && Helpful(me) && i < |t.sh.row.steps| && TasksReady(t.sh.row, me.now)
    requires i in t.sh.row.pollTasks && Open(t.sh.row.steps[i].status)
    ensures Leads(me, s, u) && u.pc == t.pc && u.sh.row == B.AfterPolls(t.sh.row, i, replies, me.now)
    ensures TasksReady(u.sh.row, me.now) && Logged(t, u, [])
  {
    if replies == [] {
      u := t;
    } else {
      var init, last := replies[..|replies| - 1], replies[|replies| - 1];
      u := PollsPlay(me, s, t, i, init);
      C.PollsLeave(t.sh.row, i, init, me.now);
      var before := u;
      if i in u.sh.row.pollTasks {
        u := TurnMoves(me, s, u, i, last);
        var matched := before.sh.row.steps[i].status == Polling && last.SuccessValue?;
        UnpolledConcat(before.sh.log, if matched then [PollMatched(i)] else []);
      } else {
        assert before.sh.row.pollTasks - {i} == before.sh.row.pollTasks;
      }
    }
  }

  lemma PolledPlays(me: Me, s: Spot, t: Spot, i: nat, replies: seq<B.Reply>) returns (u: Spot)
    requires Leads(me, s, t) && Playable(t.sh.row, me) && i < |t.sh.row.steps| && Open(t.sh.row.steps[i].status)
    ensures Leads(me, s, u) && u.pc == t.pc && u.sh.row == D.Polled(t.sh.row, i, replies, me.now)
    ensures Playable(u.sh.row, me) && Logged(t, u, [])
  {
    if i in t.sh.row.pollTasks {
      D.PolledFrame(t.sh.row, i, replies, me.now);
      u := PollsPlay(me, s, t, i, replies);
    } else {
      u := t;
    }
  }

  // ---------- waiting ----------

  lemma TriggerPlays(me: Me, s: Spot, t: Spot) returns (u: Spot)
    requires Leads(me, s, t) && t.pc == Drive(Trigger)
    ensures Leads(me, s, u) && u.pc == Drive(LoadTx) && u.sh == t.sh.(row := D.Triggered(t.sh.row))
  {
    u := Move(me, s, t, Calm);
  }

  lemma AdvancePlays(me: Me, s: Spot, t: Spot) returns (u: Spot)
    requires Leads(me, s, t) && t.pc.Exec? && t.pc.e == Advance && t.sh.row.timeoutAt.None?
    ensures Leads(me, s, u) && u.pc == Drive(LoadTx) && u.sh == t.sh.(row := t.sh.row.(currentStep := t.pc.i + 1))
  {
    u := Move(me, s, t, Calm);
  }

  predicate Forwardly(st: StepStatus) {
    Open(st) || st == Succeeded || st == Failed
  }

  // The first look at the step: it may be settled already.
  lemma LookPlays(me: Me, s: Spot, t: Spot, i: nat, step: StepRow) returns (u: Spot)
    requires Leads(me, s, t) && t.pc == Exec(Reload, i, step) && i < |t.sh.row.steps| && t.sh.row.timeoutAt.None?
    requires Forwardly(t.sh.row.steps[i].status)
    ensures Leads(me, s, u) && u.sh.log == t.sh.log
    ensures if Open(t.sh.row.steps[i].status) then u == Spot(t.sh, Exec(Wait, i, step))
            else u.pc == Drive(LoadTx) && u.sh.row == D.Resolved(t.sh.row, i)
  {
    u := Move(me, s, t, Calm);
    if t.sh.row.steps[i].status == Succeeded {
      u := AdvancePlays(me, s, u);
    } else if t.sh.row.steps[i].status == Failed {
      u := TriggerPlays(me, s, u);
    }
  }

  // The end of the wait.
  lemma WakePlays(me: Me, s: Spot, t: Spot, i: nat, step: StepRow) returns (u: Spot)
    requires Leads(me, s, t) && t.pc == Exec(Wait, i, step) && i < |t.sh.row.steps|
    requires Forwardly(t.sh.row.steps[i].status)
    ensures Leads(me, s, u) && u.sh.log == t.sh.log && u.pc == Drive(LoadTx) && u.sh.row == D.Resolved(t.sh.row, i)
  {
    if t.sh.row.steps[i].status == Succeeded {
      u := Move(me, s, t, Calm.(wake := GotSuccess));
    } else {
      u := Move(me, s, t, Calm.(wake := if t.sh.row.steps[i].status == Failed then GotFailure else WaitExpired));
      u := TriggerPlays(me, s, u);
    }
  }

  ghost predicate DueAtOnce(w: S.World, now: int) {
    forall n :: w.pollAt(n) == now
  }

  lemma WaitPlays(me: Me, s: Spot, t: Spot, i: nat, step: StepRow, w: S.World, n: nat) returns (u: Spot)
    requires Leads(me, s, t) && t.pc == Exec(Reload, i, step) && Playable(t.sh.row, me) && DueAtOnce(w, me.now)
    requires i < |t.sh.row.steps| && Open(t.sh.row.steps[i].status)
    ensures Leads(me, s, u) && u.pc == Drive(LoadTx) && Playable(u.sh.row, me) && Logged(t, u, [])
    ensures u.sh.row == D.AfterWait(t.sh.row, i, S.Polls(w, n), w.pollAt(n))
  {
    var early, late := w.polls(n), w.polls(n + 1);
    C.PollsInTwo(t.sh.row, i, early, late, me.now);
    D.PolledFrame(t.sh.row, i, early, me.now);
    u := PolledPlays(me, s, t, i, early);
    var looked := u;
    u := LookPlays(me, s, u, i, step);
    if Open(looked.sh.row.steps[i].status) {
      D.PolledFrame(looked.sh.row, i, late, me.now);
      u := PolledPlays(me, s, u, i, late);
      u := WakePlays(me, s, u, i, step);
    }
  }

  // ---------- one attempt at a step ----------

  // The step cannot be sent, or has failed for the last time.
  lemma FailingPlays(me: Me, s: Spot, t: Spot, i: nat, step: StepRow) returns (u: Spot)
    requires Leads(me, s, t) && t.pc == Exec(FailWrite, i, step)
    requires i < |t.sh.row.steps|
    ensures Leads(me, s, u) && u.pc == Drive(LoadTx)
    ensures u.sh == t.sh.(row := D.Triggered(SetStepStatus(t.sh.row, i, Failed)))
  {
    u := Move(me, s, t, Calm);
    u := TriggerPlays(me, s, u);
  }

  lemma AcceptedPlays(me: Me, s: Spot, t: Spot, i: nat, step: StepRow) returns (u: Spot)
    requires Leads(me, s, t) && t.pc == Exec(SaveResponse, i, step)
    requires i < |t.sh.row.steps| && step.kind != Async && t.sh.row.timeoutAt.None?
    ensures Leads(me, s, u) && u.pc == Drive(LoadTx)
    ensures u.sh == t.sh.(row := SetStepStatus(t.sh.row, i, Succeeded).(currentStep := i + 1))
  {
    u := Move(me, s, t, Calm);
    u := Move(me, s, u, Calm);
    u := AdvancePlays(me, s, u);
  }

  lemma SubmittedPlays(me: Me, s: Spot, t: Spot, i: nat, step: StepRow) returns (u: Spot)
    requires Leads(me, s, t) && t.pc == Exec(SaveResponse, i, step)
    requires i < |t.sh.row.steps| && step.kind == Async
    ensures Leads(me, s, u) && u.pc == Exec(Reload, i, step)
    ensures u.sh == t.sh.(row := SetStepStatus(PutPollTask(t.sh.row, i, me.now), i, Polling))
  {
    u := Move(me, s, t, Calm);
    u := Move(me, s, u, Calm);
    u := Move(me, s, u, Calm);
  }

  lemma RefusedPlays(me: Me, s: Spot, t: Spot, i: nat, step: StepRow) returns (u: Spot)
    requires Leads(me, s, t) && t.pc == Exec(Send, i, step)
    requires i < |t.sh.row.steps| && t.sh.row.timeoutAt.None?
    ensures Leads(me, s, u) && u.pc == Drive(LoadTx) && u.sh.log == t.sh.log
    ensures u.sh.row == if step.retryCount + 1 < step.maxRetry then SetStepStatus(IncRetry(t.sh.row, i), i, Pending)
                        else D.Triggered(SetStepStatus(IncRetry(t.sh.row, i), i, Failed))
  {
    u := Move(me, s, t, Calm.(accepted := false));
    u := Move(me, s, u, Calm);
    if step.retryCount + 1 < step.maxRetry {
      u := Move(me, s, u, Calm);
    } else {
      u := FailingPlays(me, s, u, i, u.pc.step);
    }
  }

  // Up to the request, or to the failed preparation.
  lemma PreparePlays(me: Me, s: Spot, t: Spot, i: nat, w: S.World, n: nat) returns (u: Spot)
    requires i < |t.sh.row.steps| && t.sh.row.timeoutAt.None?
    requires Leads(me, s, t) && t.pc == Exec(MarkRunning, i, t.sh.row.steps[i])
    ensures Leads(me, s, u) && u.sh == t.sh.(row := SetStepStatus(t.sh.row, i, Running))
    ensures u.pc == Exec(if S.Try(w, n).0.Fatal? then FailWrite else Send, i, t.sh.row.steps[i])
  {
    u := Move(me, s, t, Calm);
    var prep := if !S.Try(w, n).0.Fatal? then Prepared
                else if w.canRender(n) && w.reply(n + 1).SigningError? then SigningFailed else RenderFailed;
    u := Move(me, s, u, Calm.(prep := prep));
  }

  lemma RefusedAttemptPlays(me: Me, s: Spot, t: Spot, i: nat, w: S.World, n: nat) returns (u: Spot)
    requires i < |t.sh.row.steps| && Playable(t.sh.row, me) && !S.Try(w, n).0.Good?
    requires Leads(me, s, t) && t.pc == Exec(MarkRunning, i, t.sh.row.steps[i])
    ensures Leads(me, s, u) && u.pc == Drive(LoadTx) && Playable(u.sh.row, me)
    ensures u.sh.row == D.Executed(w, n, t.sh.row, i).0 && Logged(t, u, S.TryTrail(w, n, i).wire)
  {
    C.OverwriteRunning(t.sh.row, i);
    u := PreparePlays(me, s, t, i, w, n);
    if S.Try(w, n).0.Fatal? {
      u := FailingPlays(me, s, u, i, t.sh.row.steps[i]);
      LoggedNothing(t, u);
    } else {
      u := RefusedPlays(me, s, u, i, t.sh.row.steps[i]);
      LoggedOne(t, u, S.Exchange(S.ForwardRequest(i), false));
    }
  }

  lemma SentPlays(me: Me, s: Spot, t: Spot, i: nat, w: S.World, n: nat) returns (u: Spot)
    requires i < |t.sh.row.steps| && Playable(t.sh.row, me) && S.Try(w, n).0.Good?
    requires Leads(me, s, t) && t.pc == Exec(MarkRunning, i, t.sh.row.steps[i])
    ensures Leads(me, s, u) && u.pc == Exec(SaveResponse, i, t.sh.row.steps[i])
    ensures u.sh.row == SetStepStatus(t.sh.row, i, Running) && Logged(t, u, S.TryTrail(w, n, i).wire)
  {
    u := PreparePlays(me, s, t, i, w, n);
    u := Move(me, s, u, Calm);
    LoggedOne(t, u, S.Exchange(S.ForwardRequest(i), true));
  }

  lemma AttemptPlays(me: Me, s: Spot, t: Spot, i: nat, w: S.World, n: nat) returns (u: Spot)
    requires i < |t.sh.row.steps| && Playable(t.sh.row, me) && DueAtOnce(w, me.now)
    requires Leads(me, s, t) && t.pc == Exec(MarkRunning, i, t.sh.row.steps[i])
    ensures Leads(me, s, u) && u.pc == Drive(LoadTx) && Playable(u.sh.row, me)
    ensures u.sh.row == D.Executed(w, n, t.sh.row, i).0 && Logged(t, u, S.TryTrail(w, n, i).wire)
  {
    var step := t.sh.row.steps[i];
    if !S.Try(w, n).0.Good? {
      u := RefusedAttemptPlays(me, s, t, i, w, n);
    } else {
      C.OverwriteRunning(t.sh.row, i);
      u := SentPlays(me, s, t, i, w, n);
      if step.kind == Async {
        var sent := u;
        u := SubmittedPlays(me, s, u, i, step);
        u := WaitPlays(me, s, u, i, step, w, n + 2);
        LoggedThen(t, sent, u, S.TryTrail(w, n, i).wire, []);
      } else {
        u := AcceptedPlays(me, s, u, i, step);
      }
    }
  }

  // ---------- undoing one step ----------

  lemma RequestPlays(me: Me, s: Spot, t: Spot, i: nat, a: nat, job: CompJob, reply: S.Answer) returns (u: Spot)
    requires Leads(me, s, t) && t.pc == Comp(Undo(Attempt(a), i), job)
    requires i < |job.snap| && a < S.UndoAttempts(job.snap[i])
    ensures Leads(me, s, u) && u.sh.row == t.sh.row && Logged(t, u, S.Asked(S.UndoRequest(i), reply).wire)
    ensures u.pc == Comp(Undo(match reply
                              case Accept => WriteUndone
                              case SigningError => WriteUndoFailed
                              case _ => Attempt(a + 1), i), job)
  {
    var prep := match reply case SigningError => SigningFailed case NoRequest => RenderFailed case _ => Prepared;
    u := Move(me, s, t, Calm.(prep := prep, accepted := reply.Accept?));
    if S.OnTheWire(reply) {
      assert u.sh.log == t.sh.log + EventsOf(S.Exchange(S.UndoRequest(i), reply.Accept?));
      LoggedOne(t, u, S.Exchange(S.UndoRequest(i), reply.Accept?));
    } else {
      LoggedNothing(t, u);
    }
  }

  lemma ExhaustedPlays(me: Me, s: Spot, t: Spot, i: nat, a: nat, job: CompJob) returns (u: Spot)
    requires Leads(me, s, t) && t.pc == Comp(Undo(Attempt(a), i), job)
    requires i < |job.snap| && a == S.UndoAttempts(job.snap[i])
    ensures Leads(me, s, u) && u.sh == t.sh && u.pc == Comp(Undo(WriteUndoFailed, i), job)
  {
    u := Move(me, s, t, Calm);
  }

  function Settled(job: CompJob, i: nat, ok: bool): Pc {
    Comp(Undo(if ok then WriteUndone else WriteUndoFailed, i), job)
  }

  lemma RetryWire(w: S.World, n: nat, left: nat, made: nat, i: nat)
    requires left > 0
    ensures var wire := S.UndoRunTrail(w, n, left, made, i).wire;
      var first := S.Asked(S.UndoRequest(i), w.reply(n)).wire;
      if w.reply(n).Accept? || w.reply(n).SigningError?
      then wire == first && S.UndoRun(w, n, left).0 == w.reply(n).Accept?
      else wire == first + S.UndoRunTrail(w, n + 1, left - 1, made + 1, i).wire
           && S.UndoRun(w, n, left).0 == S.UndoRun(w, n + 1, left - 1).0
  {
  }

  // ok and wire name what the attempts come to.
  lemma {:induction false} RetriesPlay(
    me: Me, s: Spot, t: Spot, i: nat, a: nat, left: nat, job: CompJob,
    w: S.World, n: nat, ok: bool, wire: seq<S.Exchange>) returns (u: Spot)
    requires i < |job.snap| && a + left == S.UndoAttempts(job.snap[i])
    requires Leads(me, s, t) && t.pc == Comp(Undo(Attempt(a), i), job)
    requires ok == S.UndoRun(w, n, left).0 && wire == S.UndoRunTrail(w, n, left, a, i).wire
    ensures Leads(me, s, u) && u.sh.row == t.sh.row && u.pc == Settled(job, i, ok) && Logged(t, u, wire)
    decreases left
  {
    if left == 0 {
      u := ExhaustedPlays(me, s, t, i, a, job);
      LoggedNothing(t, u);
    } else {
      RetryWire(w, n, left, a, i);
      var first := S.Asked(S.UndoRequest(i), w.reply(n)).wire;
      var asked := RequestPlays(me, s, t, i, a, job, w.reply(n));
      u := asked;
      if !w.reply(n).Accept? && !w.reply(n).SigningError? {
        var rest := S.UndoRunTrail(w, n + 1, left - 1, a + 1, i).wire;
        u := RetriesPlay(me, s, asked, i, a + 1, left - 1, job, w, n + 1, ok, rest);
        LoggedThen(t, asked, u, first, rest);
      }
    }
  }

  lemma MarkPlays(me: Me, s: Spot, t: Spot, job: CompJob) returns (u: Spot)
    requires Leads(me, s, t) && t.pc == Comp(NextStep, job)
    requires job.todo != [] && job.todo[0] < |t.sh.row.steps|
    ensures Leads(me, s, u) && u.sh == t.sh.(row := SetStepStatus(t.sh.row, job.todo[0], Compensating))
    ensures u.pc == Comp(Undo(PrepareUndo, job.todo[0]), job.(todo := job.todo[1..]))
  {
    u := Move(me, s, t, Calm);
    u := Move(me, s, u, Calm);
  }

  lemma WritePlays(me: Me, s: Spot, t: Spot, i: nat, ok: bool, job: CompJob) returns (u: Spot)
    requires Leads(me, s, t) && t.pc == Settled(job, i, ok) && i < |t.sh.row.steps|
    ensures Leads(me, s, u) && u.sh == t.sh.(row := SetStepStatus(t.sh.row, i, if ok then Compensated else Failed))
    ensures u.pc == Comp(NextStep, job.(ok := job.ok && ok))
  {
    u := Move(me, s, t, Calm);
  }

  lemma UndoPlays(me: Me, s: Spot, t: Spot, job: CompJob, w: S.World, n: nat) returns (u: Spot)
    requires Leads(me, s, t) && t.pc == Comp(NextStep, job)
    requires job.todo != [] && job.todo[0] < |job.snap| == |t.sh.row.steps|
    ensures var ok := S.UndoStep(w, n, job.snap[job.todo[0]]).0;
      && Leads(me, s, u)
      && u.pc == Comp(NextStep, CompJob(job.snap, job.todo[1..], job.ok && ok))
      && u.sh.row == SetStepStatus(t.sh.row, job.todo[0], if ok then Compensated else Failed)
      && Logged(t, u, S.UndoTrail(w, n, job.snap[job.todo[0]], job.todo[0]).wire)
  {
    var i := job.todo[0];
    C.Overwrite(t.sh.row, i, Compensating, Compensated);
    C.Overwrite(t.sh.row, i, Compensating, Failed);
    u := MarkPlays(me, s, t, job);
    var job' := u.pc.job;
    if w.canRender(n) {
      u := Move(me, s, u, Calm);
      u := RetriesPlay(me, s, u, i, 0, S.UndoAttempts(job.snap[i]), job', w, n + 1,
                       S.UndoStep(w, n, job.snap[i]).0, S.UndoTrail(w, n, job.snap[i], i).wire);
      u := WritePlays(me, s, u, i, S.UndoStep(w, n, job.snap[i]).0, job');
    } else {
      u := Move(me, s, u, Calm.(prep := RenderFailed));
      LoggedNothing(t, u);
    }
  }

  // ---------- the whole pass ----------

  lemma {:induction false} UndoAllPlays(me: Me, s: Spot, t: Spot, job: CompJob, w: S.World, n: nat) returns (u: Spot)
    requires Leads(me, s, t) && t.pc == Comp(NextStep, job) && |job.snap| == |t.sh.row.steps|
    requires forall k :: 0 <= k < |job.todo| ==> job.todo[k] < |job.snap|
    ensures var oks := S.UndoAll(w, n, job.snap, job.todo).0;
      && Leads(me, s, u)
      && u.pc == Comp(NextStep, CompJob(job.snap, [], job.ok && S.AllTrue(oks)))
      && u.sh.row == D.ApplyUndo(t.sh.row, job.todo, oks)
      && Logged(t, u, S.UndoAllTrail(w, n, job.snap, job.todo).wire)
    decreases |job.todo|
  {
    if job.todo == [] {
      u := t;
      LoggedNothing(t, u);
    } else {
      var (ok, n') := S.UndoStep(w, n, job.snap[job.todo[0]]);
      var undone := UndoPlays(me, s, t, job, w, n);
      u := UndoAllPlays(me, s, undone, undone.pc.job, w, n');
      LoggedThen(t, undone, u, S.UndoTrail(w, n, job.snap[job.todo[0]], job.todo[0]).wire,
                 S.UndoAllTrail(w, n', job.snap, job.todo[1..]).wire);
      var oks := S.UndoAll(w, n', job.snap, job.todo[1..]).0;
      C.AllTrueCons(ok, oks);
      assert ([ok] + oks)[1..] == oks;
    }
  }

  lemma SkipPlays(me: Me, s: Spot, t: Spot, job: CompJob, row: Row, k: nat) returns (u: Spot)
    requires k < |job.snap| == |row.steps|
    requires Leads(me, s, t) && t.pc == Comp(SkipFrom(k), job) && t.sh.row == D.SkipPending(row, job.snap, k)
    ensures Leads(me, s, u) && u.pc == Comp(SkipFrom(k + 1), job) && u.sh.row == D.SkipPending(row, job.snap, k + 1)
    ensures u.sh.log == t.sh.log
  {
    u := Move(me, s, t, Calm);
  }

  lemma {:induction false} SkipsPlay(me: Me, s: Spot, t: Spot, job: CompJob, row: Row, k: nat) returns (u: Spot)
    requires k <= |job.snap| == |row.steps|
    requires Leads(me, s, t) && t.pc == Comp(SkipFrom(k), job) && t.sh.row == D.SkipPending(row, job.snap, k)
    ensures Leads(me, s, u) && u.pc == Comp(Finish, job) && u.sh.row == D.SkipPending(row, job.snap, |job.snap|)
    ensures u.sh.log == t.sh.log
    decreases |job.snap| - k
  {
    if k == |job.snap| {
      u := Move(me, s, t, Calm);
    } else {
      u := SkipPlays(me, s, t, job, row, k);
      u := SkipsPlay(me, s, u, job, row, k + 1);
    }
  }

  // Nothing left to undo: skip what is pending and record the verdict.
  lemma FinishPlays(me: Me, s: Spot, t: Spot, job: CompJob) returns (u: Spot)
    requires Leads(me, s, t) && t.pc == Comp(NextStep, job) && job.todo == [] && |job.snap| == |t.sh.row.steps|
    ensures Leads(me, s, u) && u.pc == Drive(Releasing) && u.sh.log == t.sh.log
    ensures u.sh.row ==
      SetTxStatus(D.SkipPending(t.sh.row, job.snap, |job.snap|), TxFailed, CompensationVerdict(job.ok))
  {
    u := Move(me, s, t, Calm);
    u := SkipsPlay(me, s, u, job, t.sh.row, 0);
    u := Move(me, s, u, Calm);
  }

  lemma CompensationPlays(me: Me, s: Spot, t: Spot, w: S.World, n: nat) returns (u: Spot)
    requires Leads(me, s, t)
    requires var steps := t.sh.row.steps; t.pc == Comp(NextStep, CompJob(steps, ToCompensate(steps, |steps|), true))
    ensures Leads(me, s, u) && u.pc == Drive(Releasing) && u.sh.row == D.CompensatedRow(w, n, t.sh.row).0
    ensures Logged(t, u, S.UndoAllTrail(w, n, t.sh.row.steps, ToCompensate(t.sh.row.steps, |t.sh.row.steps|)).wire)
  {
    u := UndoAllPlays(me, s, t, t.pc.job, w, n);
    u := FinishPlays(me, s, u, u.pc.job);
  }

  // ---------- one iteration ----------

  lemma RenewPlays(me: Me, s: Spot, t: Spot, steps: seq<StepRow>) returns (u: Spot)
    requires Leads(me, s, t) && t.pc == Drive(Renew(t.sh.row.status, steps))
    requires Live(t.sh.row.status) && t.sh.row.lock.Some? && t.sh.row.lock.value.holder == me.inst
    ensures Leads(me, s, u) && u.sh.row == Locked(t.sh.row, me.inst, me.now + me.lease) && u.sh.log == t.sh.log
    ensures u.pc == match t.sh.row.status
                    case TxPending => Drive(Begin)
                    case TxRunning => Drive(Select(steps))
                    case _ => Comp(NextStep, CompJob(steps, ToCompensate(steps, |steps|), true))
  {
    u := Move(me, s, t, Calm);
  }

  lemma ReadPlays(me: Me, s: Spot, t: Spot) returns (u: Spot)
    requires Leads(me, s, t) && t.pc == Drive(LoadTx)
    ensures Leads(me, s, u) && u.sh == t.sh && u.pc == Drive(Renew(t.sh.row.status, t.sh.row.steps))
  {
    u := Move(me, s, t, Calm);
    u := Move(me, s, u, Calm);
  }

  // Load the transaction and its steps, renew the lease.
  lemma LoadPlays(me: Me, s: Spot, t: Spot) returns (u: Spot)
    requires Leads(me, s, t) && t.pc == Drive(LoadTx)
    requires Live(t.sh.row.status) && t.sh.row.lock.Some? && t.sh.row.lock.value.holder == me.inst
    ensures Leads(me, s, u) && u.sh.row == Locked(t.sh.row, me.inst, me.now + me.lease) && u.sh.log == t.sh.log
    ensures var steps := t.sh.row.steps;
      u.pc == match t.sh.row.status
              case TxPending => Drive(Begin)
              case TxRunning => Drive(Select(steps))
              case _ => Comp(NextStep, CompJob(steps, ToCompensate(steps, |steps|), true))
  {
    u := ReadPlays(me, s, t);
    u := RenewPlays(me, s, u, t.sh.row.steps);
  }

  lemma RunningPlays(me: Me, s: Spot, t: Spot, w: S.World, n: nat) returns (u: Spot)
    requires Leads(me, s, t) && t.pc == Drive(Select(t.sh.row.steps)) && DueAtOnce(w, me.now)
    requires t.sh.row.status.TxRunning? && Playable(t.sh.row, me)
    ensures var (row', _, more) := D.NextStep(w, n, t.sh.row);
      Leads(me, s, u) && u.sh.row == row' && u.pc == Drive(if more then LoadTx else Releasing)
    ensures Playable(u.sh.row, me) && Logged(t, u, D.NextTrail(w, n, t.sh.row).wire)
  {
    var row := t.sh.row;
    u := Move(me, s, t, Calm);
    if AnyFailed(row.steps) || AllSucceeded(row.steps) {
      u := Move(me, s, u, Calm);
      LoggedNothing(t, u);
    } else if Pick(row.steps, |row.steps|).None? {
      LoggedNothing(t, u);
    } else {
      var i := Pick(row.steps, |row.steps|).value;
      if S.Sends(row.steps[i]) {
        u := AttemptPlays(me, s, u, i, w, n);
        assert D.ExecutedTrail(w, n, row, i).wire == S.TryTrail(w, n, i).wire;
      } else {
        u := WaitPlays(me, s, u, i, row.steps[i], w, n);
      }
    }
  }

  lemma RoundPlays(me: Me, s: Spot, t: Spot, w: S.World, n: nat) returns (u: Spot)
    requires Leads(me, s, t) && t.pc == Drive(LoadTx) && DueAtOnce(w, me.now)
    requires Live(t.sh.row.status) && Playable(t.sh.row, me)
    ensures var (row', _, more) := D.Round(w, n, C.Free(t.sh.row));
      && Leads(me, s, u) && C.Free(u.sh.row) == row' && (more ==> Playable(u.sh.row, me))
      && u.sh.row.lock.Some? && u.sh.row.lock.value.holder == me.inst
      && u.pc == Drive(if more then LoadTx else Releasing)
      && Logged(t, u, D.RoundTrail(w, n, C.Free(t.sh.row)).wire)
  {
    u := LoadPlays(me, s, t);
    var loaded := u;
    C.FreeRound(w, n, u.sh.row);
    assert C.Free(u.sh.row) == C.Free(t.sh.row);
    match t.sh.row.status
    case TxPending =>
      u := Move(me, s, u, Calm);
      LoggedNothing(loaded, u);
    case TxRunning => u := RunningPlays(me, s, u, w, n);
    case TxCompensating => u := CompensationPlays(me, s, u, w, n);
  }

  // ---------- the loop ----------

  lemma {:induction false} LoopPlays(me: Me, s: Spot, t: Spot, w: S.World, n: nat) returns (u: Spot)
    requires Leads(me, s, t) && t.pc == Drive(LoadTx) && DueAtOnce(w, me.now)
    requires Live(t.sh.row.status) && Playable(t.sh.row, me)
    ensures Leads(me, s, u) && u.pc == Drive(Releasing)
    ensures u.sh.row.lock.Some? && u.sh.row.lock.value.holder == me.inst
    ensures C.Free(u.sh.row) == D.DriveFrom(w, n, C.Free(t.sh.row)).0
    ensures Logged(t, u, D.DriveTrail(w, n, C.Free(t.sh.row)).wire)
    decreases D.Fuel(C.Free(t.sh.row))
  {
    var row := C.Free(t.sh.row);
    D.DriveRound(w, n, row);
    u := RoundPlays(me, s, t, w, n);
    var (row', n', more) := D.Round(w, n, row);
    if more {
      var next := u;
      u := LoopPlays(me, s, u, w, n');
      LoggedThen(t, next, u, D.RoundTrail(w, n, row).wire, D.DriveTrail(w, n', row').wire);
    }
  }

  // ---------- a whole saga ----------

  // The claim and the loop, from submission to the release.
  lemma SagaPlays(me: Me, sh: Shared, o: S.World, n: nat) returns (u: Spot)
    requires sh.row.status.TxPending? && sh.row.lock.None? && sh.row.timeoutAt.None? && sh.row.pollTasks == map[]
    requires forall i :: 0 <= i < |sh.row.steps| ==> sh.row.steps[i].status == Pending
    requires (NeverPolled(sh.row) || Helpful(me)) && DueAtOnce(o, me.now)
    ensures Leads(me, Entered(sh), u) && u.pc == Drive(Releasing)
    ensures u.sh.row.lock.Some? && u.sh.row.lock.value.holder == me.inst
    ensures F.Meant(o, n, sh.row.steps, 0, C.Free(u.sh.row), S.SagaTrail(o, n, sh.row.steps, 0))
    ensures Logged(Entered(sh), u, S.SagaTrail(o, n, sh.row.steps, 0).wire)
  {
    var s := Entered(sh);
    u := Move(me, s, s, Calm);
    assert C.Free(u.sh.row) == sh.row;
    u := LoopPlays(me, s, u, o, n);
    F.DriveRefinesSaga(o, n, sh.row);
  }

  // Polls may fail the steps of a saga that has async ones.
  function PollTroubles(row: Row): set<Disturbance> {
    if NeverPolled(row) then {} else {PollFailure}
  }

  // Started on a submitted saga without a deadline, one driver and its poll workers have,
  // for any answers from outside from the n-th on, a run that nothing but failing polls
  // disturbs. It ends with the lease given back, no process left, exactly the verdicts of
  // the all-or-nothing meaning, and exactly its exchanges in the history.
  lemma SagaHasARun(w: World, inst: string, o: S.World, n: nat)
    requires Init(w) && w.sh.row.timeoutAt.None? && DueAtOnce(o, w.now)
    ensures exists r: World ::
      && Runs(w, r, PollTroubles(w.sh.row)) && r.procs == map[] && r.sh.row.lock.None?
      && F.Meant(o, n, w.sh.row.steps, 0, r.sh.row, S.SagaTrail(o, n, w.sh.row.steps, 0))
      && Unpolled(r.sh.log) == LogOf(S.SagaTrail(o, n, w.sh.row.steps, 0).wire)
  {
    var me := Me(0, inst, LeaseOf(w, inst), w.now, PollTroubles(w.sh.row), true);
    var u := SagaPlays(me, w.sh, o, n);
    DriveRuns(w, me, u);
    var r := w.(sh := DoRelease(u.sh, Fine, inst));
    assert Runs(w, r, PollTroubles(w.sh.row));
  }

  lemma {:induction false} InLog(wire: seq<S.Exchange>, i: nat)
    ensures ForwardAccepted(i) in LogOf(wire) <==> S.Exchange(S.ForwardRequest(i), true) in wire
    ensures CompensateAccepted(i) in LogOf(wire) <==> S.Exchange(S.UndoRequest(i), true) in wire
  {
    if wire != [] {
      InLog(wire[1..], i);
      assert wire == [wire[0]] + wire[1..];
    }
  }

  lemma {:induction false} InUnpolled(log: seq<Event>, e: Event)
    requires !e.PollMatched?
    ensures e in Unpolled(log) <==> e in log
  {
    if log != [] {
      InUnpolled(log[..|log| - 1], e);
      assert log == log[..|log| - 1] + [log[|log| - 1]];
    }
  }

  // Which acceptances such a history holds: a forward action exactly of the steps that
  // are reached and accepted, a compensation exactly of the steps whose undo is accepted.
  lemma AcceptedInHistory(o: S.World, n: nat, steps: seq<StepRow>, log: seq<Event>, i: nat)
    requires i < |steps| && forall j :: 0 <= j < |steps| ==> steps[j].status == Pending
    requires Unpolled(log) == LogOf(S.SagaTrail(o, n, steps, 0).wire)
    ensures var (f, n') := S.ForwardRun(o, n, steps, 0);
      && (ForwardAccepted(i) in log <==>
            (f.StopsAt? ==> i <= f.k) && S.Attempts(o, S.Reach(o, n, steps, 0, i), S.AttemptsLeft(steps[i])).0)
      && (CompensateAccepted(i) in log <==>
            f.StopsAt? && i < S.UndoCount(f) && F.Undone(o, n', steps, f)[S.UndoCount(f) - 1 - i])
  {
    InLog(S.SagaTrail(o, n, steps, 0).wire, i);
    InUnpolled(log, ForwardAccepted(i));
    InUnpolled(log, CompensateAccepted(i));
    S.SagaAccepts(o, n, steps, 0, i);
  }
}
