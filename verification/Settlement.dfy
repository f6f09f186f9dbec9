// What "compensation completed" is worth, with one driver at a time
// (saga/coordinator.go:682-749). Over crashes, recovery, deadline scans and failing store
// calls at any point, the verdict is never recorded while a step is still stored as
// succeeded or half undone, provided no poll worker is in flight once compensation has
// begun. In runs that only deadlines, scans and refusals disturb, it means that every
// accepted action was undone.
module Settlement {
  import opened SagaTypes
  import opened Selection
  import opened Protocol
  import opened ProtocolSafety
  import opened SingleDriver

  // ---------- poll workers and compensation ----------

  // Poll workers are done when compensation begins.
  ghost predicate PollsOver(w: World) {
    Early(w.sh) || forall pid :: pid in w.procs ==> !w.procs[pid].pc.Poll?
  }

  ghost predicate PollsOverRun(w: World, acts: seq<Action>) {
    forall k :: 0 <= k <= |acts| ==> PollsOver(RunFrom(w, acts[..k]))
  }

  // ---------- the stored statuses ----------

  // Every step that still needs undoing is among the given ones.
  predicate Covered(steps: seq<StepRow>, todo: iset<nat>) {
    forall i :: 0 <= i < |steps| && Undoable(steps[i].status) ==> i in todo
  }

  ghost predicate CompCovers(sh: Shared, c: CompPc, job: CompJob) {
    && sh.row.status.TxCompensating?
    && (c.SkipFrom? || c.Finish? ==> job.todo == [])
    && (job.ok ==> Covered(sh.row.steps, iset i | i in job.todo || (c.Undo? && i == c.i)))
  }

  ghost predicate Covers(sh: Shared, pc: Pc) {
    match pc
    case Drive(Renew(_, snap)) =>
      |snap| == |sh.row.steps| && Covered(sh.row.steps, iset i | 0 <= i < |snap| && Undoable(snap[i].status))
    case Drive(Select(_)) => Live(sh.row.status)
    case Exec(_, _, _) => Live(sh.row.status)
    case Comp(c, job) => CompCovers(sh, c, job)
    case _ => true
  }

  predicate Completed(sh: Shared) {
    sh.row.status.TxFailed? && sh.row.lastError == CompensationCompleted
  }

  ghost predicate Settled(sh: Shared) {
    Completed(sh) ==> Covered(sh.row.steps, iset{})
  }

  ghost predicate Inv(w: World) {
    SoloInv(w) && Settled(w.sh) && forall pid :: pid in w.procs ==> Covers(w.sh, w.procs[pid].pc)
  }

  // ---------- the process that moves ----------

  // Its own next program point, and the shared facts.
  ghost predicate Goes(r: After) {
    Settled(r.sh) && (r.pc.Some? ==> Covers(r.sh, r.pc.value))
  }

  ghost predicate Ready(sh: Shared, pc: Pc) {
    Sound(sh) && Justified(sh, pc) && Covers(sh, pc) && Settled(sh)
  }

  lemma DriveGoes(sh: Shared, inst: string, lease: nat, now: int, d: DrivePc, o: Oracle)
    requires Ready(sh, Drive(d))
    ensures Goes(DriveStep(sh, inst, lease, now, d, o))
  {
    match d
    case Renew(st, snap) =>
      forall i | 0 <= i < |snap| && Undoable(snap[i].status) ensures i in ToCompensate(snap, |snap|) {
        CompensationMembers(snap, |snap|, i);
      }
    case _ =>
  }

  lemma ExecGoes(sh: Shared, now: int, e: ExecPc, i: nat, step: StepRow, o: Oracle)
    requires Ready(sh, Exec(e, i, step))
    ensures Goes(ExecStep(sh, now, e, i, step, o))
  {
    match e
    case Wait =>
    case Reload =>
    case _ =>
  }

  lemma UndoGoes(sh: Shared, u: UndoPc, i: nat, job: CompJob, o: Oracle)
    requires Ready(sh, Comp(Undo(u, i), job))
    ensures Goes(UndoStep(sh, u, i, job, o))
  {
  }

  lemma CompGoes(sh: Shared, c: CompPc, job: CompJob, o: Oracle)
    requires Ready(sh, Comp(c, job))
    ensures Goes(CompStep(sh, c, job, o))
  {
    match c
    case Undo(u, i) => UndoGoes(sh, u, i, job, o);
    case NextStep =>
      assert job.todo != [] ==> forall i :: i in job.todo <==> i == job.todo[0] || i in job.todo[1..];
    case SkipFrom(k) =>
    case Finish =>
  }

  lemma PcGoes(sh: Shared, inst: string, lease: nat, now: int, pc: Pc, o: Oracle)
    requires Ready(sh, pc) && (pc.Poll? ==> Early(sh))
    ensures Goes(PcStep(sh, inst, lease, now, pc, o))
  {
    match pc
    case Drive(d) => DriveGoes(sh, inst, lease, now, d, o);
    case Exec(e, i, step) => ExecGoes(sh, now, e, i, step, o);
    case Comp(c, job) => CompGoes(sh, c, job, o);
    case Poll(p, i, step) => PollKeeps(sh, now, p, i, step, o);
    case Scan(s) =>
  }

  // ---------- the other processes ----------

  // What a scanner or a goroutine releasing the lock may change.
  ghost predicate Aside(sh: Shared, sh': Shared) {
    && sh'.row.steps == sh.row.steps && sh'.log == sh.log
    && (sh'.row.status == sh.row.status || (sh.row.status.TxRunning? && sh'.row.status.TxCompensating?))
    && (sh.row.status.TxFailed? ==> sh'.row.lastError == sh.row.lastError)
  }

  lemma AsideCovers(sh: Shared, sh': Shared, pc: Pc)
    requires Aside(sh, sh') && Covers(sh, pc)
    ensures Covers(sh', pc)
  {
  }

  lemma OthersStepAside(sh: Shared, inst: string, lease: nat, now: int, pc: Pc, o: Oracle)
    requires !Driving(pc) && !pc.Poll? && Justified(sh, pc)
    ensures var r := PcStep(sh, inst, lease, now, pc, o);
      Aside(sh, r.sh) && (r.pc.Some? ==> !Driving(r.pc.value) && !r.pc.value.Poll?)
  {
  }

  // A poll result turns a step to be undone into one that is, or is not, to be undone.
  lemma PollCovers(sh: Shared, sh': Shared, i: nat, pc: Pc)
    requires Early(sh) && OnlyResolves(sh, sh', i) && Covers(sh, pc)
    ensures Covers(sh', pc)
  {
  }

  lemma OtherCovers(w: World, pid: nat, o: Oracle, q: nat)
    requires Inv(w) && Solo(w) && PollsOver(w) && pid in w.procs && q in w.procs && q != pid
    ensures Covers(Apply(w, Go(pid, o)).sh, w.procs[q].pc)
  {
    var p := w.procs[pid];
    GoStep(w, pid, o, pid);
    if Driving(w.procs[q].pc) {
      if p.pc.Poll? {
        MoverFits(w, pid, o);
        PollCovers(w.sh, Apply(w, Go(pid, o)).sh, p.pc.i, w.procs[q].pc);
      } else {
        OthersStepAside(w.sh, p.inst, LeaseOf(w, p.inst), w.now, p.pc, o);
        AsideCovers(w.sh, Apply(w, Go(pid, o)).sh, w.procs[q].pc);
      }
    }
  }

  lemma GoCovers(w: World, pid: nat, o: Oracle)
    requires Inv(w) && Solo(w) && PollsOver(w) && pid in w.procs
    ensures Inv(Apply(w, Go(pid, o)))
  {
    var p := w.procs[pid];
    var w' := Apply(w, Go(pid, o));
    GoStep(w, pid, o, pid);
    ApplySolo(w, Go(pid, o));
    PcGoes(w.sh, p.inst, LeaseOf(w, p.inst), w.now, p.pc, o);
    forall q | q in w'.procs ensures Covers(w'.sh, w'.procs[q].pc) {
      GoStep(w, pid, o, q);
      if q != pid {
        OtherCovers(w, pid, o, q);
      }
    }
  }

  // From outside nothing but locks is written.
  lemma EnvironmentAside(w: World, a: Action)
    requires a.Go? ==> a.pid !in w.procs
    ensures Aside(w.sh, Apply(w, a).sh)
    ensures Apply(w, a).sh.row.status == w.sh.row.status && Apply(w, a).sh.row.lastError == w.sh.row.lastError
  {
    match a
    case ScanTimeouts(p, inst, f) =>
    case ScanRecoverable(p, inst, f) =>
    case AcquirePoll(p, inst, i, f) =>
    case _ =>
  }

  lemma EnvironmentCovers(w: World, a: Action)
    requires Inv(w) && Solo(w) && (a.Go? ==> a.pid !in w.procs)
    ensures Inv(Apply(w, a))
  {
    var w' := Apply(w, a);
    ApplySolo(w, a);
    EnvironmentAside(w, a);
    forall pid | pid in w'.procs ensures Covers(w'.sh, w'.procs[pid].pc) {
      EnvironmentStep(w, a, pid);
      if pid in w.procs && w'.procs[pid] == w.procs[pid] {
        AsideCovers(w.sh, w'.sh, w.procs[pid].pc);
      }
    }
  }

  lemma {:induction false} RunCovers(w: World, acts: seq<Action>)
    requires Init(w) && SoloRun(w, acts) && PollsOverRun(w, acts)
    ensures Inv(RunFrom(w, acts))
  {
    if acts == [] {
      RunSolo(w, acts);
    } else {
      var before := acts[..|acts| - 1];
      assert forall k :: 0 <= k <= |before| ==> before[..k] == acts[..k];
      RunCovers(w, before);
      assert acts[..|before|] == before;
      assert Solo(RunFrom(w, before)) && PollsOver(RunFrom(w, before));
      var a := acts[|acts| - 1];
      if a.Go? && a.pid in RunFrom(w, before).procs {
        GoCovers(RunFrom(w, before), a.pid, a.o);
      } else {
        EnvironmentCovers(RunFrom(w, before), a);
      }
    }
  }

  // Once "compensation completed" is recorded, no step is left succeeded, polling or
  // compensating, and whatever is compensated had its compensation accepted.
  lemma CompletedLeavesNothing(w: World, acts: seq<Action>, i: nat)
    requires Init(w) && SoloRun(w, acts) && PollsOverRun(w, acts)
    requires Completed(RunFrom(w, acts).sh) && i < |RunFrom(w, acts).sh.row.steps|
    ensures var sh := RunFrom(w, acts).sh;
      && !Undoable(sh.row.steps[i].status)
      && (sh.row.steps[i].status == Compensated ==> CompensateAccepted(i) in sh.log)
  {
    RunCovers(w, acts);
  }

  // ---------- sagas without async steps ----------

  predicate NoAsync(steps: seq<StepRow>) {
    forall i :: 0 <= i < |steps| ==> steps[i].kind != Async
  }

  predicate Pollless(pc: Pc) {
    && !pc.Poll?
    && (pc.Exec? ==> pc.step.kind != Async && pc.e != CreateTask && pc.e != WritePolling)
  }

  // No step is ever polled.
  ghost predicate NoPolls(w: World) {
    && NoAsync(w.sh.row.steps) && w.sh.row.pollTasks == map[]
    && forall pid :: pid in w.procs ==> Pollless(w.procs[pid].pc)
  }

  lemma ExecNoPolls(sh: Shared, now: int, e: ExecPc, i: nat, step: StepRow, o: Oracle)
    requires sh.row.pollTasks == map[] && Pollless(Exec(e, i, step))
    ensures var r := ExecStep(sh, now, e, i, step, o);
      r.sh.row.pollTasks == map[] && (r.pc.Some? ==> Pollless(r.pc.value))
  {
    match e
    case Wait =>
    case Reload =>
    case _ =>
  }

  lemma PcNoPolls(sh: Shared, inst: string, lease: nat, now: int, pc: Pc, o: Oracle)
    requires NoAsync(sh.row.steps) && sh.row.pollTasks == map[] && Pollless(pc) && Sound(sh) && Justified(sh, pc)
    ensures var r := PcStep(sh, inst, lease, now, pc, o);
      r.sh.row.pollTasks == map[] && (r.pc.Some? ==> Pollless(r.pc.value))
  {
    match pc
    case Drive(d) =>
    case Exec(e, i, step) => ExecNoPolls(sh, now, e, i, step, o);
    case Comp(c, job) =>
    case Scan(s) =>
  }

  lemma ApplyNoPolls(w: World, a: Action)
    requires NoPolls(w) && Invariant(w)
    ensures NoPolls(Apply(w, a))
  {
    var w' := Apply(w, a);
    ApplyKeeps(w, a);
    if a.Go? && a.pid in w.procs {
      var p := w.procs[a.pid];
      PcNoPolls(w.sh, p.inst, LeaseOf(w, p.inst), w.now, p.pc, a.o);
    } else {
      EnvironmentNoPolls(w, a);
    }
  }

  lemma EnvironmentNoPolls(w: World, a: Action)
    requires NoPolls(w) && (a.Go? ==> a.pid !in w.procs)
    ensures Apply(w, a).sh.row.pollTasks == map[]
    ensures forall pid :: pid in Apply(w, a).procs ==> Pollless(Apply(w, a).procs[pid].pc)
  {
  }

  lemma {:induction false} RunNoPolls(w: World, acts: seq<Action>)
    requires Init(w) && NoAsync(w.sh.row.steps)
    ensures NoPolls(RunFrom(w, acts))
  {
    if acts != [] {
      RunNoPolls(w, acts[..|acts| - 1]);
      RunKeeps(w, acts[..|acts| - 1]);
      ApplyNoPolls(RunFrom(w, acts[..|acts| - 1]), acts[|acts| - 1]);
    }
  }

  // So the condition on poll workers is met by itself.
  lemma NoAsyncPollsOver(w: World, acts: seq<Action>)
    requires Init(w) && NoAsync(w.sh.row.steps)
    ensures PollsOverRun(w, acts)
  {
    forall k | 0 <= k <= |acts| ensures PollsOver(RunFrom(w, acts[..k])) {
      RunNoPolls(w, acts[..k]);
    }
  }
}
