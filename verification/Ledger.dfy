// Where every accepted forward action is to be found again, in runs with one driver at a
// time and without the disturbances of Protocol: its step is stored as to be undone or as
// undone, or the driver that sent it is about to store it, or the compensation already
// knows of a failure. Deadlines, scans, expired leases, poll workers at any time, and all
// other crashes, stops and failing store calls are allowed.
module Ledger {
  import opened SagaTypes
  import opened Selection
  import opened Protocol
  import opened ProtocolSafety
  import opened SingleDriver
  import opened Settlement

  ghost predicate OneDriver(w: World) {
    forall p, q :: p in w.procs && q in w.procs && p != q ==>
      !(Driving(w.procs[p].pc) && Driving(w.procs[q].pc))
  }

  ghost predicate OneDriverRun(w: World, acts: seq<Action>) {
    forall k :: 0 <= k <= |acts| ==> OneDriver(RunFrom(w, acts[..k]))
  }

  // ---------- the books ----------

  // Compensation will come to this step, or has been there.
  predicate Booked(st: StepStatus) {
    Undoable(st) || st == Compensated
  }

  predicate AllBooked(sh: Shared, steps: seq<StepRow>) {
    forall i :: 0 <= i < |steps| && Accepted(sh, i) ==> Booked(steps[i].status)
  }

  // The verdict already says that something was not undone.
  predicate Admitted(sh: Shared) {
    sh.row.status.TxFailed? && sh.row.lastError != CompensationCompleted
  }

  predicate Balanced(sh: Shared) {
    AllBooked(sh, sh.row.steps) || Admitted(sh)
  }

  // Before the request of this attempt is answered.
  predicate Unsent(e: ExecPc) {
    e == MarkRunning || e == Prepare || e == Send || e == CountRetry || e == RetryWrite || e == FailWrite
  }

  predicate ExecOwes(sh: Shared, e: ExecPc, i: nat) {
    && Live(sh.row.status)
    && (forall j :: 0 <= j < |sh.row.steps| && Accepted(sh, j) ==>
          Booked(sh.row.steps[j].status) || (j == i && InFlight(e)))
    && (Unsent(e) ==> !Accepted(sh, i))
  }

  predicate SnapOwes(sh: Shared, snap: seq<StepRow>) {
    && Balanced(sh) && (AllBooked(sh, snap) || Admitted(sh))
    && forall i :: 0 <= i < |snap| && snap[i].status == Compensated ==> CompensateAccepted(i) in sh.log
  }

  // Every accepted step that is not undone is still to be visited.
  predicate Listed(sh: Shared, c: CompPc, job: CompJob) {
    forall i :: 0 <= i < |sh.row.steps| && Accepted(sh, i) ==>
      CompensateAccepted(i) in sh.log || i in job.todo || (c.Undo? && c.i == i)
  }

  predicate CompOwes(sh: Shared, c: CompPc, job: CompJob) {
    && sh.row.status.TxCompensating?
    && (c.SkipFrom? || c.Finish? ==> job.todo == [])
    && (job.ok ==> AllBooked(sh, sh.row.steps) && AllBooked(sh, job.snap) && Listed(sh, c, job))
  }

  // What a driver leaves open at this point.
  predicate Owes(sh: Shared, pc: Pc) {
    match pc
    case Drive(Renew(_, snap)) => SnapOwes(sh, snap)
    case Drive(Select(snap)) => SnapOwes(sh, snap) && Live(sh.row.status)
    case Drive(_) => Balanced(sh)
    case Exec(e, i, _) => ExecOwes(sh, e, i)
    case Comp(c, job) => CompOwes(sh, c, job)
    case _ => true
  }

  ghost predicate AllUndone(log: seq<Event>) {
    forall i: nat :: ForwardAccepted(i) in log ==> CompensateAccepted(i) in log
  }

  // Only steps are accepted, and the verdict is right.
  ghost predicate Fair(sh: Shared) {
    && (forall i: nat :: ForwardAccepted(i) in sh.log ==> i < |sh.row.steps|)
    && (Completed(sh) ==> AllUndone(sh.log))
  }

  // If nobody is driving, the books are balanced.
  ghost predicate Books(w: World) {
    && Fair(w.sh)
    && (forall pid :: pid in w.procs && Driving(w.procs[pid].pc) ==> Owes(w.sh, w.procs[pid].pc))
    && ((forall pid :: pid in w.procs ==> !Driving(w.procs[pid].pc)) ==> Balanced(w.sh))
  }

  // ---------- the driver's own steps ----------

  ghost predicate Posts(r: After) {
    Fair(r.sh) && if r.pc.Some? && Driving(r.pc.value) then Owes(r.sh, r.pc.value) else Balanced(r.sh)
  }

  ghost predicate Calls(sh: Shared, pc: Pc) {
    Sound(sh) && Justified(sh, pc) && Fair(sh) && Driving(pc) && Owes(sh, pc)
  }

  lemma SamePosts(sh: Shared, sh': Shared, steps: seq<StepRow>)
    requires sh'.log == sh.log
    ensures AllBooked(sh', steps) == AllBooked(sh, steps)
  {
  }

  lemma RenewPosts(sh: Shared, inst: string, lease: nat, now: int, st: TxStatus, snap: seq<StepRow>, o: Oracle)
    requires Calls(sh, Drive(Renew(st, snap)))
    ensures Posts(DriveStep(sh, inst, lease, now, Renew(st, snap), o))
  {
    var r := DriveStep(sh, inst, lease, now, Renew(st, snap), o);
    SamePosts(sh, r.sh, sh.row.steps);
    SamePosts(sh, r.sh, snap);
    forall i | 0 <= i < |snap| && Undoable(snap[i].status) ensures i in ToCompensate(snap, |snap|) {
      CompensationMembers(snap, |snap|, i);
    }
  }

  // A step that is taken up has not been accepted.
  lemma SelectPosts(sh: Shared, snap: seq<StepRow>, timedOut: bool)
    requires Calls(sh, Drive(Select(snap)))
    ensures var pc := SelectNext(snap, timedOut); if Driving(pc) then Owes(sh, pc) else Balanced(sh)
  {
  }

  lemma DrivePosts(sh: Shared, inst: string, lease: nat, now: int, d: DrivePc, o: Oracle)
    requires Calls(sh, Drive(d))
    ensures Posts(DriveStep(sh, inst, lease, now, d, o))
  {
    var r := DriveStep(sh, inst, lease, now, d, o);
    SamePosts(sh, r.sh, sh.row.steps);
    match d
    case Renew(st, snap) => RenewPosts(sh, inst, lease, now, st, snap, o);
    case Select(snap) => SelectPosts(sh, snap, TimedOut(sh.row.timeoutAt, now));
    case _ =>
  }

  lemma ExecWritePosts(sh: Shared, now: int, e: ExecPc, i: nat, step: StepRow, o: Oracle)
    requires Calls(sh, Exec(e, i, step)) && Troubles(Exec(e, i, step), o) == {} && WritesStep(e)
    ensures Posts(ExecStep(sh, now, e, i, step, o))
  {
    SamePosts(sh, ExecStep(sh, now, e, i, step, o).sh, sh.row.steps);
  }

  lemma SendPosts(sh: Shared, now: int, i: nat, step: StepRow, o: Oracle)
    requires Calls(sh, Exec(Send, i, step))
    ensures Posts(ExecStep(sh, now, Send, i, step, o))
  {
  }

  lemma ExecPassPosts(sh: Shared, now: int, e: ExecPc, i: nat, step: StepRow, o: Oracle)
    requires Calls(sh, Exec(e, i, step)) && Troubles(Exec(e, i, step), o) == {}
    requires e == Prepare || e == CountRetry || e == SaveResponse || e == CreateTask
    ensures Posts(ExecStep(sh, now, e, i, step, o))
  {
    SamePosts(sh, ExecStep(sh, now, e, i, step, o).sh, sh.row.steps);
  }

  lemma EndFrame(sh: Shared, now: int, e: ExecPc, i: nat, step: StepRow, o: Oracle)
    requires e == Advance || e == Reload || e == Wait
    ensures var r := ExecStep(sh, now, e, i, step, o);
      && r.sh.log == sh.log && r.sh.row.steps == sh.row.steps
      && r.sh.row.status == sh.row.status && r.sh.row.lastError == sh.row.lastError
      && (r.pc.Some? ==> r.pc.value.Drive? || r.pc.value == Exec(Advance, i, step) || r.pc.value == Exec(Wait, i, step))
      && (r.pc.Some? && r.pc.value.Drive? ==> !r.pc.value.d.Renew? && !r.pc.value.d.Select?)
  {
    match e
    case Advance =>
    case Reload =>
    case Wait =>
  }

  // The step is settled, or being waited for: nothing is owed for it.
  lemma ExecEndPosts(sh: Shared, now: int, e: ExecPc, i: nat, step: StepRow, o: Oracle)
    requires Fair(sh) && ExecOwes(sh, e, i) && (e == Advance || e == Reload || e == Wait)
    ensures Posts(ExecStep(sh, now, e, i, step, o))
  {
    EndFrame(sh, now, e, i, step, o);
    SamePosts(sh, ExecStep(sh, now, e, i, step, o).sh, sh.row.steps);
  }

  lemma ExecPosts(sh: Shared, now: int, e: ExecPc, i: nat, step: StepRow, o: Oracle)
    requires Calls(sh, Exec(e, i, step)) && Troubles(Exec(e, i, step), o) == {}
    ensures Posts(ExecStep(sh, now, e, i, step, o))
  {
    if WritesStep(e) {
      ExecWritePosts(sh, now, e, i, step, o);
    } else if e == Send {
      SendPosts(sh, now, i, step, o);
    } else if e == Advance || e == Reload || e == Wait {
      ExecEndPosts(sh, now, e, i, step, o);
    } else {
      ExecPassPosts(sh, now, e, i, step, o);
    }
  }

  lemma UndoPosts(sh: Shared, u: UndoPc, i: nat, job: CompJob, o: Oracle)
    requires Calls(sh, Comp(Undo(u, i), job))
    ensures Posts(UndoStep(sh, u, i, job, o))
  {
    var r := UndoStep(sh, u, i, job, o);
    assert forall j :: Accepted(r.sh, j) <==> Accepted(sh, j);
    assert forall j: nat :: CompensateAccepted(j) in sh.log ==> CompensateAccepted(j) in r.sh.log;
  }

  lemma SkipPosts(sh: Shared, k: nat, job: CompJob, o: Oracle)
    requires Calls(sh, Comp(SkipFrom(k), job))
    ensures Posts(CompStep(sh, SkipFrom(k), job, o))
  {
    SamePosts(sh, CompStep(sh, SkipFrom(k), job, o).sh, job.snap);
  }

  lemma FinishPosts(sh: Shared, job: CompJob, o: Oracle)
    requires Calls(sh, Comp(Finish, job)) && Troubles(Comp(Finish, job), o) == {}
    ensures Posts(CompStep(sh, Finish, job, o))
  {
    SamePosts(sh, CompStep(sh, Finish, job, o).sh, sh.row.steps);
    if job.ok {
      forall i: nat | ForwardAccepted(i) in sh.log ensures CompensateAccepted(i) in sh.log {
        assert Accepted(sh, i);
      }
    }
  }

  lemma CompPosts(sh: Shared, c: CompPc, job: CompJob, o: Oracle)
    requires Calls(sh, Comp(c, job)) && Troubles(Comp(c, job), o) == {}
    ensures Posts(CompStep(sh, c, job, o))
  {
    match c
    case Undo(u, i) => UndoPosts(sh, u, i, job, o);
    case NextStep =>
      assert job.todo != [] ==> forall i :: i in job.todo <==> i == job.todo[0] || i in job.todo[1..];
    case SkipFrom(k) => SkipPosts(sh, k, job, o);
    case Finish => FinishPosts(sh, job, o);
  }

  lemma PcPosts(sh: Shared, inst: string, lease: nat, now: int, pc: Pc, o: Oracle)
    requires Calls(sh, pc) && Troubles(pc, o) == {}
    ensures Posts(PcStep(sh, inst, lease, now, pc, o))
  {
    match pc
    case Drive(d) => DrivePosts(sh, inst, lease, now, d, o);
    case Exec(e, i, step) => ExecPosts(sh, now, e, i, step, o);
    case Comp(c, job) => CompPosts(sh, c, job, o);
  }

  // ---------- the other processes ----------

  // What a scan, a goroutine releasing the lock or a poll worker may change: at most a
  // polled step becomes succeeded.
  predicate Harmless(sh: Shared, sh': Shared) {
    && (sh'.row.status == sh.row.status || (sh.row.status.TxRunning? && sh'.row.status.TxCompensating?))
    && (sh.row.status.TxFailed? ==> sh'.row.lastError == sh.row.lastError)
    && |sh'.row.steps| == |sh.row.steps|
    && (forall i :: 0 <= i < |sh.row.steps| ==>
          sh'.row.steps[i].status == sh.row.steps[i].status || sh'.row.steps[i].status == Succeeded)
    && (sh'.log == sh.log || (|sh'.log| == |sh.log| + 1 && sh'.log == sh.log + [sh'.log[|sh.log|]]
                              && sh'.log[|sh.log|].PollMatched?))
  }

  lemma HarmlessLog(sh: Shared, sh': Shared, e: Event)
    requires Harmless(sh, sh') && !e.PollMatched?
    ensures e in sh'.log <==> e in sh.log
  {
  }

  lemma HarmlessBooks(sh: Shared, sh': Shared, pc: Pc)
    requires Harmless(sh, sh') && Fair(sh)
    ensures Fair(sh') && (Balanced(sh) ==> Balanced(sh'))
    ensures Owes(sh, pc) ==> Owes(sh', pc)
  {
    forall i: nat ensures Accepted(sh', i) <==> Accepted(sh, i) {
      HarmlessLog(sh, sh', ForwardAccepted(i));
    }
    forall i: nat ensures CompensateAccepted(i) in sh'.log <==> CompensateAccepted(i) in sh.log {
      HarmlessLog(sh, sh', CompensateAccepted(i));
    }
    forall i: nat ensures ForwardAccepted(i) in sh'.log <==> ForwardAccepted(i) in sh.log {
      HarmlessLog(sh, sh', ForwardAccepted(i));
    }
  }

  lemma PollHarmless(sh: Shared, now: int, p: PollPc, i: nat, step: StepRow, o: Oracle)
    requires p != PollFail
    ensures Harmless(sh, PollStep(sh, now, p, i, step, o).sh)
  {
  }

  lemma OthersHarmless(sh: Shared, inst: string, lease: nat, now: int, pc: Pc, o: Oracle)
    requires !Driving(pc) && Justified(sh, pc) && Troubles(pc, o) == {}
    ensures var r := PcStep(sh, inst, lease, now, pc, o);
      Harmless(sh, r.sh) && (r.pc.Some? ==> !Driving(r.pc.value))
  {
    if pc.Poll? {
      PollHarmless(sh, now, pc.p, pc.i, pc.step, o);
    } else {
      OthersStepAside(sh, inst, lease, now, pc, o);
    }
  }

  // ---------- the system ----------

  ghost predicate LedgerInv(w: World) {
    Invariant(w) && Books(w)
  }

  lemma GoBooks(w: World, pid: nat, o: Oracle)
    requires LedgerInv(w) && OneDriver(w) && pid in w.procs && Troubles(w.procs[pid].pc, o) == {}
    ensures Books(Apply(w, Go(pid, o)))
  {
    var p := w.procs[pid];
    var w' := Apply(w, Go(pid, o));
    GoStep(w, pid, o, pid);
    forall q | q in w'.procs && q != pid ensures q in w.procs && w'.procs[q] == w.procs[q] {
      GoStep(w, pid, o, q);
    }
    if Driving(p.pc) {
      PcPosts(w.sh, p.inst, LeaseOf(w, p.inst), w.now, p.pc, o);
    } else {
      OthersHarmless(w.sh, p.inst, LeaseOf(w, p.inst), w.now, p.pc, o);
      HarmlessBooks(w.sh, w'.sh, p.pc);
      forall q | q in w'.procs && Driving(w'.procs[q].pc) ensures Owes(w'.sh, w'.procs[q].pc) {
        HarmlessBooks(w.sh, w'.sh, w.procs[q].pc);
      }
    }
  }

  // A driver that owes nothing beyond the books may crash.
  lemma CrashBalances(sh: Shared, pc: Pc)
    requires Driving(pc) && !Exposed(pc) && Owes(sh, pc)
    ensures Balanced(sh)
  {
  }

  lemma CrashBooks(w: World, pids: set<nat>)
    requires LedgerInv(w) && OneDriver(w) && ActionTroubles(w, Crash(pids)) == {}
    ensures Books(Apply(w, Crash(pids)))
  {
    var w' := Apply(w, Crash(pids));
    assert w'.sh == w.sh && forall pid :: pid in w'.procs ==> pid in w.procs && w'.procs[pid] == w.procs[pid];
    if pid :| pid in w.procs && Driving(w.procs[pid].pc) {
      if !Exposed(w.procs[pid].pc) {
        CrashBalances(w.sh, w.procs[pid].pc);
      } else {
        assert pid !in pids && pid in w'.procs;
      }
    }
  }

  lemma EnvironmentHarmless(w: World, a: Action)
    requires a.Go? ==> a.pid !in w.procs
    ensures Harmless(w.sh, Apply(w, a).sh)
  {
    EnvironmentStep(w, a, 0);
    EnvironmentAside(w, a);
  }

  lemma EnvironmentBooks(w: World, a: Action)
    requires LedgerInv(w) && OneDriver(Apply(w, a)) && !a.Crash? && (a.Go? ==> a.pid !in w.procs)
    ensures Books(Apply(w, a))
  {
    var w' := Apply(w, a);
    EnvironmentHarmless(w, a);
    HarmlessBooks(w.sh, w'.sh, Drive(Claiming));
    forall pid | pid in w.procs ensures pid in w'.procs && w'.procs[pid] == w.procs[pid] {
    }
    forall pid | pid in w'.procs && Driving(w'.procs[pid].pc) ensures Owes(w'.sh, w'.procs[pid].pc) {
      EnvironmentStep(w, a, pid);
      if pid in w.procs && w'.procs[pid] == w.procs[pid] {
        HarmlessBooks(w.sh, w'.sh, w.procs[pid].pc);
      } else {
        assert forall q :: q in w.procs ==> !Driving(w.procs[q].pc);
      }
    }
  }

  lemma {:induction false} RunLedger(w: World, acts: seq<Action>)
    requires Init(w) && OneDriverRun(w, acts) && Within(w, acts, {})
    ensures LedgerInv(RunFrom(w, acts))
  {
    RunKeeps(w, acts);
    if acts != [] {
      var before := acts[..|acts| - 1];
      assert forall k :: 0 <= k <= |before| ==> before[..k] == acts[..k];
      RunLedger(w, before);
      assert acts[..|before|] == before && acts[..|acts|] == acts;
      assert OneDriver(RunFrom(w, before)) && OneDriver(RunFrom(w, acts));
      var a := acts[|acts| - 1];
      if a.Go? && a.pid in RunFrom(w, before).procs {
        GoBooks(RunFrom(w, before), a.pid, a.o);
      } else if a.Crash? {
        CrashBooks(RunFrom(w, before), a.pids);
      } else {
        EnvironmentBooks(RunFrom(w, before), a);
      }
    }
  }

  // Without disturbances "compensation completed" means that every accepted action was
  // undone.
  lemma CompletedMeansUndone(w: World, acts: seq<Action>)
    requires Init(w) && OneDriverRun(w, acts) && Within(w, acts, {})
    requires Completed(RunFrom(w, acts).sh)
    ensures AllUndone(RunFrom(w, acts).sh.log)
  {
    RunLedger(w, acts);
  }
}
