// What every run keeps: the status path, success without compensation, and
// compensation only of accepted steps. One inductive invariant, split into what the
// shared state satisfies (Sound), what a process at a program point may rely on
// (Justified), and what any step promises to the others (Promise).
module ProtocolSafety {
  import opened SagaTypes
  import opened Selection
  import opened Protocol

  // ---------- vocabulary ----------

  // Statuses that are only ever written after the forward action was accepted.
  predicate Evident(st: StepStatus) {
    st == Succeeded || st == Polling || st == Compensating || st == Compensated
  }

  // Statuses that the forward path writes.
  predicate Onward(st: StepStatus) {
    st != Compensating && st != Compensated && st != Skipped
  }

  predicate Accepted(sh: Shared, i: nat) {
    ForwardAccepted(i) in sh.log
  }

  // The step really completed: accepted, and for an async step also matched by a poll.
  predicate Done(sh: Shared, i: nat) {
    Accepted(sh, i) && (i < |sh.row.steps| && sh.row.steps[i].kind == Async ==> PollMatched(i) in sh.log)
  }

  predicate InCompensation(sh: Shared) {
    sh.row.status.TxCompensating? || sh.row.status.TxFailed?
  }

  predicate Moves(a: TxStatus, b: TxStatus) {
    a == b || (a.TxPending? && b.TxRunning?) || (a.TxRunning? && b.TxSucceeded?)
    || (a.TxRunning? && b.TxCompensating?) || (a.TxCompensating? && b.TxFailed?)
  }

  // Every compensation request comes after an accepted forward action of the same step.
  predicate UndoAfterForward(log: seq<Event>) {
    forall j :: 0 <= j < |log| && log[j].CompensateSent? ==>
      exists k :: 0 <= k < j && log[k] == ForwardAccepted(log[j].i)
  }

  predicate NothingUndone(log: seq<Event>) {
    forall j :: 0 <= j < |log| ==> !log[j].CompensateSent?
  }

  // ---------- the invariant ----------

  ghost predicate Sound(sh: Shared) {
    && (forall i :: 0 <= i < |sh.row.steps| && Evident(sh.row.steps[i].status) ==> Accepted(sh, i))
    && (forall i :: 0 <= i < |sh.row.steps| && sh.row.steps[i].status == Succeeded ==> Done(sh, i))
    && (forall i :: 0 <= i < |sh.row.steps| && sh.row.steps[i].status == Compensated ==>
          CompensateAccepted(i) in sh.log)
    && (InCompensation(sh) || NothingUndone(sh.log))
    && (InCompensation(sh) || forall i :: 0 <= i < |sh.row.steps| ==> Onward(sh.row.steps[i].status))
    && UndoAfterForward(sh.log)
    && (sh.row.status.TxSucceeded? ==> forall i :: 0 <= i < |sh.row.steps| ==> Done(sh, i))
  }

  // A possibly stale copy of the steps.
  ghost predicate Snapshot(sh: Shared, snap: seq<StepRow>) {
    && |snap| == |sh.row.steps|
    && (forall i :: 0 <= i < |snap| ==> snap[i].kind == sh.row.steps[i].kind)
    && (forall i :: 0 <= i < |snap| && Evident(snap[i].status) ==> Accepted(sh, i))
    && (forall i :: 0 <= i < |snap| && snap[i].status == Succeeded ==> Done(sh, i))
  }

  ghost predicate DriveJustified(sh: Shared, d: DrivePc) {
    match d
    case LoadSteps(st) => st.TxCompensating? ==> InCompensation(sh)
    case Renew(st, snap) => Snapshot(sh, snap) && (st.TxCompensating? ==> InCompensation(sh))
    case Select(snap) => Snapshot(sh, snap)
    case MarkSucceeded(snap) => Snapshot(sh, snap) && AllSucceeded(snap)
    case _ => true
  }

  ghost predicate ExecJustified(sh: Shared, e: ExecPc, i: nat, step: StepRow) {
    && i < |sh.row.steps|
    && step.kind == sh.row.steps[i].kind
    && (match e
        case SaveResponse => Accepted(sh, i)
        case WriteSucceeded => Accepted(sh, i) && step.kind != Async
        case CreateTask => Accepted(sh, i)
        case WritePolling => Accepted(sh, i)
        case _ => true)
  }

  ghost predicate CompJustified(sh: Shared, c: CompPc, job: CompJob) {
    && InCompensation(sh)
    && (forall i :: i in job.todo ==> Accepted(sh, i))
    && (c.Undo? ==> Accepted(sh, c.i))
    && (c.Undo? && c.u.WriteUndone? ==> CompensateAccepted(c.i) in sh.log)
  }

  ghost predicate PollJustified(sh: Shared, p: PollPc, i: nat) {
    match p
    case ReadStep => true
    case DeleteTask => true
    case Unlock => true
    case SaveReply => Done(sh, i)
    case PollSucceed => Done(sh, i)
    case _ => Accepted(sh, i)
  }

  predicate ScanJustified(s: ScanPc) {
    s.ScanCas? ==> s.st.TxRunning? || s.st.TxCompensating?
  }

  ghost predicate Justified(sh: Shared, pc: Pc) {
    match pc
    case Drive(d) => DriveJustified(sh, d)
    case Exec(e, i, step) => ExecJustified(sh, e, i, step)
    case Comp(c, job) => CompJustified(sh, c, job)
    case Poll(p, i, _) => PollJustified(sh, p, i)
    case Scan(s) => ScanJustified(s)
  }

  // What one step of any process promises to all others.
  ghost predicate Promise(sh: Shared, sh': Shared) {
    && sh.log <= sh'.log
    && Moves(sh.row.status, sh'.row.status)
    && |sh.row.steps| == |sh'.row.steps|
    && (forall i :: 0 <= i < |sh.row.steps| ==> sh.row.steps[i].kind == sh'.row.steps[i].kind)
  }

  ghost predicate Invariant(w: World) {
    Sound(w.sh) && forall pid :: pid in w.procs ==> Justified(w.sh, w.procs[pid].pc)
  }

  // ---------- steps ----------

  lemma Stable(sh: Shared, sh': Shared, pc: Pc)
    requires Justified(sh, pc) && Promise(sh, sh')
    ensures Justified(sh', pc)
  {
    assert forall e :: e in sh.log ==> e in sh'.log;
  }

  // A change that touches neither the log, nor a step's kind or status, nor the status.
  lemma FrameKeeps(sh: Shared, sh': Shared)
    requires Sound(sh)
    requires sh'.log == sh.log && sh'.row.status == sh.row.status && |sh'.row.steps| == |sh.row.steps|
    requires forall i :: 0 <= i < |sh.row.steps| ==>
      sh'.row.steps[i].kind == sh.row.steps[i].kind && sh'.row.steps[i].status == sh.row.steps[i].status
    ensures Sound(sh') && Promise(sh, sh')
  {
    forall j | sh'.row.status.TxSucceeded? && 0 <= j < |sh'.row.steps| ensures Done(sh', j) {
      assert Done(sh, j);
    }
  }

  // A change of the transaction status alone.
  lemma StatusKeeps(sh: Shared, sh': Shared)
    requires Sound(sh)
    requires sh'.log == sh.log && sh'.row.steps == sh.row.steps
    requires Moves(sh.row.status, sh'.row.status)
    requires sh'.row.status.TxSucceeded? ==> forall i :: 0 <= i < |sh.row.steps| ==> Done(sh, i)
    ensures Sound(sh') && Promise(sh, sh')
  {
    forall i | sh'.row.status.TxSucceeded? && 0 <= i < |sh.row.steps| ensures Done(sh', i) {
      assert Done(sh, i);
    }
  }

  lemma WriteKeeps(sh: Shared, f: Fault, i: nat, st: StepStatus)
    requires Sound(sh)
    requires Evident(st) ==> Accepted(sh, i)
    requires st == Succeeded ==> Done(sh, i)
    requires st == Compensated ==> CompensateAccepted(i) in sh.log
    requires InCompensation(sh) || Onward(st)
    ensures Sound(WriteStep(sh, f, i, st)) && Promise(sh, WriteStep(sh, f, i, st))
  {
    var sh' := WriteStep(sh, f, i, st);
    forall j | 0 <= j < |sh'.row.steps| && sh'.row.steps[j].status == Succeeded ensures Done(sh', j) {
      assert Done(sh, j);
    }
    forall j | sh'.row.status.TxSucceeded? && 0 <= j < |sh'.row.steps| ensures Done(sh', j) {
      assert Done(sh, j);
    }
  }

  lemma NoteKeeps(sh: Shared, e: Event)
    requires Sound(sh)
    requires e.CompensateSent? ==> InCompensation(sh) && Accepted(sh, e.i)
    ensures Sound(Note(sh, e)) && Promise(sh, Note(sh, e))
    ensures e in Note(sh, e).log
  {
    var sh' := Note(sh, e);
    assert sh'.log[|sh.log|] == e;
    assert forall x :: x in sh.log ==> x in sh'.log;
    forall j | sh'.row.status.TxSucceeded? && 0 <= j < |sh'.row.steps| ensures Done(sh', j) {
      assert Done(sh, j);
    }
    forall j | 0 <= j < |sh'.log| && sh'.log[j].CompensateSent?
      ensures exists k :: 0 <= k < j && sh'.log[k] == ForwardAccepted(sh'.log[j].i)
    {
      var i := sh'.log[j].i;
      if j < |sh.log| {
        assert sh.log[j] == sh'.log[j];
      }
      var k :| 0 <= k < |sh.log| && k < j && sh.log[k] == ForwardAccepted(i);
      assert sh'.log[k] == ForwardAccepted(i);
    }
  }

  ghost predicate Keeps(sh: Shared, r: After) {
    Sound(r.sh) && Promise(sh, r.sh) && (r.pc.Some? ==> Justified(r.sh, r.pc.value))
  }

  lemma SnapshotOfRow(sh: Shared)
    requires Sound(sh)
    ensures Snapshot(sh, sh.row.steps)
  {
  }

  lemma SelectKeeps(sh: Shared, snap: seq<StepRow>, timedOut: bool)
    requires Snapshot(sh, snap)
    ensures Justified(sh, SelectNext(snap, timedOut))
  {
  }

  lemma CompensationList(sh: Shared, snap: seq<StepRow>)
    requires Snapshot(sh, snap)
    ensures forall i :: i in ToCompensate(snap, |snap|) ==> Accepted(sh, i)
  {
  }

  lemma DriveKeeps(sh: Shared, inst: string, lease: nat, now: int, d: DrivePc, o: Oracle)
    requires Sound(sh) && DriveJustified(sh, d)
    ensures Keeps(sh, DriveStep(sh, inst, lease, now, d, o))
  {
    var r := DriveStep(sh, inst, lease, now, d, o);
    match d
    case Claiming => FrameKeeps(sh, r.sh);
    case LoadTx => FrameKeeps(sh, r.sh);
    case LoadSteps(st) => FrameKeeps(sh, r.sh); SnapshotOfRow(sh);
    case Renew(st, snap) =>
      FrameKeeps(sh, r.sh);
      Stable(sh, r.sh, Drive(d));
      CompensationList(r.sh, snap);
    case Begin => StatusKeeps(sh, r.sh);
    case Select(snap) => FrameKeeps(sh, r.sh); SelectKeeps(sh, snap, TimedOut(sh.row.timeoutAt, now));
    case MarkSucceeded(snap) =>
      forall i | 0 <= i < |sh.row.steps| ensures Done(sh, i) {
        assert snap[i].status == Succeeded;
      }
      StatusKeeps(sh, r.sh);
    case Trigger => StatusKeeps(sh, r.sh);
    case Releasing => FrameKeeps(sh, r.sh);
  }

  lemma ExecWriteKeeps(sh: Shared, now: int, e: ExecPc, i: nat, step: StepRow, o: Oracle)
    requires Sound(sh) && ExecJustified(sh, e, i, step)
    requires WritesStep(e)
    ensures Keeps(sh, ExecStep(sh, now, e, i, step, o))
  {
    FrameKeeps(sh, sh);
    match e
    case MarkRunning => WriteKeeps(sh, o.fault, i, Running);
    case RetryWrite => WriteKeeps(sh, o.fault, i, Pending);
    case FailWrite => WriteKeeps(sh, o.fault, i, Failed);
    case WriteSucceeded => WriteKeeps(sh, o.fault, i, Succeeded);
    case WritePolling => WriteKeeps(sh, o.fault, i, Polling);
  }

  lemma SendKeeps(sh: Shared, now: int, i: nat, step: StepRow, o: Oracle)
    requires Sound(sh) && ExecJustified(sh, Send, i, step)
    ensures Keeps(sh, ExecStep(sh, now, Send, i, step, o))
  {
    FrameKeeps(sh, sh);
    NoteKeeps(sh, ForwardAccepted(i));
  }

  predicate WritesStep(e: ExecPc) {
    e == MarkRunning || e == RetryWrite || e == FailWrite || e == WriteSucceeded || e == WritePolling
  }

  lemma ExecFrameKeeps(sh: Shared, now: int, e: ExecPc, i: nat, step: StepRow, o: Oracle)
    requires Sound(sh) && ExecJustified(sh, e, i, step) && !WritesStep(e) && e != Send
    ensures Keeps(sh, ExecStep(sh, now, e, i, step, o))
  {
    FrameKeeps(sh, ExecStep(sh, now, e, i, step, o).sh);
  }

  lemma ExecKeeps(sh: Shared, now: int, e: ExecPc, i: nat, step: StepRow, o: Oracle)
    requires Sound(sh) && ExecJustified(sh, e, i, step)
    ensures Keeps(sh, ExecStep(sh, now, e, i, step, o))
  {
    if WritesStep(e) {
      ExecWriteKeeps(sh, now, e, i, step, o);
    } else if e == Send {
      SendKeeps(sh, now, i, step, o);
    } else {
      ExecFrameKeeps(sh, now, e, i, step, o);
    }
  }

  lemma CompKeeps(sh: Shared, c: CompPc, job: CompJob, o: Oracle)
    requires Sound(sh) && CompJustified(sh, c, job)
    ensures Keeps(sh, CompStep(sh, c, job, o))
  {
    var r := CompStep(sh, c, job, o);
    match c
    case NextStep => FrameKeeps(sh, r.sh);
    case Finish => StatusKeeps(sh, r.sh);
    case SkipFrom(k) => FrameKeeps(sh, sh); WriteKeeps(sh, o.fault, k, Skipped); Stable(sh, r.sh, Comp(c, job));
    case Undo(u, i) => UndoKeeps(sh, u, i, job, o);
  }

  lemma UndoWriteKeeps(sh: Shared, u: UndoPc, i: nat, job: CompJob, o: Oracle)
    requires Sound(sh) && CompJustified(sh, Undo(u, i), job) && !u.Attempt?
    ensures Keeps(sh, UndoStep(sh, u, i, job, o))
  {
    var st := if u == MarkCompensating then Compensating else if u == WriteUndone then Compensated else Failed;
    FrameKeeps(sh, sh);
    WriteKeeps(sh, o.fault, i, st);
    Stable(sh, UndoStep(sh, u, i, job, o).sh, Comp(Undo(u, i), job));
  }

  // A request, and what its acceptance adds.
  lemma RequestKeeps(sh: Shared, i: nat, pc: Pc)
    requires Sound(sh) && InCompensation(sh) && Accepted(sh, i) && Justified(sh, pc)
    ensures var sent := Note(sh, CompensateSent(i));
      var accepted := Note(sent, CompensateAccepted(i));
      && Sound(sent) && Promise(sh, sent) && Justified(sent, pc)
      && Sound(accepted) && Promise(sh, accepted) && Justified(accepted, pc) && CompensateAccepted(i) in accepted.log
  {
    var sent := Note(sh, CompensateSent(i));
    NoteKeeps(sh, CompensateSent(i));
    NoteKeeps(sent, CompensateAccepted(i));
    Stable(sh, sent, pc);
    Stable(sent, Note(sent, CompensateAccepted(i)), pc);
  }

  lemma UndoKeeps(sh: Shared, u: UndoPc, i: nat, job: CompJob, o: Oracle)
    requires Sound(sh) && CompJustified(sh, Undo(u, i), job)
    ensures Keeps(sh, UndoStep(sh, u, i, job, o))
  {
    if u.Attempt? {
      FrameKeeps(sh, sh);
      RequestKeeps(sh, i, Comp(Undo(u, i), job));
    } else {
      UndoWriteKeeps(sh, u, i, job, o);
    }
  }

  lemma PollWriteKeeps(sh: Shared, now: int, p: PollPc, i: nat, step: StepRow, o: Oracle)
    requires Sound(sh) && PollJustified(sh, p, i) && (p == PollSucceed || p == PollFail)
    ensures Keeps(sh, PollStep(sh, now, p, i, step, o))
  {
    WriteKeeps(sh, o.fault, i, if p == PollSucceed then Succeeded else Failed);
  }

  lemma PollRequestKeeps(sh: Shared, now: int, i: nat, step: StepRow, o: Oracle)
    requires Sound(sh) && PollJustified(sh, Request, i)
    ensures Keeps(sh, PollStep(sh, now, Request, i, step, o))
  {
    FrameKeeps(sh, sh);
    NoteKeeps(sh, PollMatched(i));
    Stable(sh, Note(sh, PollMatched(i)), Poll(Request, i, step));
  }

  lemma PollKeeps(sh: Shared, now: int, p: PollPc, i: nat, step: StepRow, o: Oracle)
    requires Sound(sh) && PollJustified(sh, p, i)
    ensures Keeps(sh, PollStep(sh, now, p, i, step, o))
  {
    if p == PollSucceed || p == PollFail {
      PollWriteKeeps(sh, now, p, i, step, o);
    } else if p == Request {
      PollRequestKeeps(sh, now, i, step, o);
    } else {
      FrameKeeps(sh, PollStep(sh, now, p, i, step, o).sh);
    }
  }

  lemma ScanKeeps(sh: Shared, inst: string, s: ScanPc, o: Oracle)
    requires Sound(sh) && ScanJustified(s)
    ensures Keeps(sh, ScanStep(sh, inst, s, o))
  {
    var r := ScanStep(sh, inst, s, o);
    match s
    case ScanCas(st) => StatusKeeps(sh, r.sh);
    case ScanSubmit => FrameKeeps(sh, r.sh);
  }

  lemma PcKeeps(sh: Shared, inst: string, lease: nat, now: int, pc: Pc, o: Oracle)
    requires Sound(sh) && Justified(sh, pc)
    ensures Keeps(sh, PcStep(sh, inst, lease, now, pc, o))
  {
    match pc
    case Drive(d) => DriveKeeps(sh, inst, lease, now, d, o);
    case Exec(e, i, step) => ExecKeeps(sh, now, e, i, step, o);
    case Comp(c, job) => CompKeeps(sh, c, job, o);
    case Poll(p, i, step) => PollKeeps(sh, now, p, i, step, o);
    case Scan(s) => ScanKeeps(sh, inst, s, o);
  }

  lemma EnvironmentKeeps(w: World, a: Action)
    requires Invariant(w) && (a.Go? ==> a.pid !in w.procs)
    ensures Invariant(Apply(w, a)) && Promise(w.sh, Apply(w, a).sh)
  {
    var w' := Apply(w, a);
    EnvironmentStep(w, a, 0);
    FrameKeeps(w.sh, w'.sh);
    forall pid | pid in w'.procs ensures Justified(w'.sh, w'.procs[pid].pc) {
      EnvironmentStep(w, a, pid);
      if pid in w.procs && w'.procs[pid] == w.procs[pid] {
        Stable(w.sh, w'.sh, w.procs[pid].pc);
      }
    }
  }

  lemma GoKeeps(w: World, pid: nat, o: Oracle)
    requires Invariant(w) && pid in w.procs
    ensures Invariant(Apply(w, Go(pid, o))) && Promise(w.sh, Apply(w, Go(pid, o)).sh)
  {
    var w' := Apply(w, Go(pid, o));
    GoStep(w, pid, o, pid);
    PcKeeps(w.sh, w.procs[pid].inst, LeaseOf(w, w.procs[pid].inst), w.now, w.procs[pid].pc, o);
    forall q | q in w'.procs ensures Justified(w'.sh, w'.procs[q].pc) {
      GoStep(w, pid, o, q);
      if q != pid {
        Stable(w.sh, w'.sh, w.procs[q].pc);
      }
    }
  }

  lemma ApplyKeeps(w: World, a: Action)
    requires Invariant(w)
    ensures Invariant(Apply(w, a)) && Promise(w.sh, Apply(w, a).sh)
  {
    if a.Go? && a.pid in w.procs {
      GoKeeps(w, a.pid, a.o);
    } else {
      EnvironmentKeeps(w, a);
    }
  }

  lemma {:induction false} RunKeeps(w: World, acts: seq<Action>)
    requires Init(w)
    ensures Invariant(RunFrom(w, acts))
  {
    if acts != [] {
      RunKeeps(w, acts[..|acts| - 1]);
      ApplyKeeps(RunFrom(w, acts[..|acts| - 1]), acts[|acts| - 1]);
    }
  }

  // ---------- theorems ----------

  // Reachable along pending -> running -> (succeeded | compensating -> failed).
  predicate Follows(a: TxStatus, b: TxStatus) {
    || a == b
    || a.TxPending?
    || (a.TxRunning? && !b.TxPending?)
    || (a.TxCompensating? && b.TxFailed?)
  }

  // Between any two points of any run the status only moves forward along the
  // documented path, one documented edge per step, and both ends are absorbing.
  lemma {:induction false} StatusPath(w: World, before: seq<Action>, after: seq<Action>)
    requires Init(w)
    ensures var a := RunFrom(w, before).sh.row.status;
      var b := RunFrom(w, before + after).sh.row.status;
      Follows(a, b) && (Terminal(a) ==> b == a) && (|after| == 1 ==> Moves(a, b))
  {
    if after == [] {
      assert before + after == before;
    } else {
      var init := after[..|after| - 1];
      assert (before + after)[..|before + after| - 1] == before + init;
      StatusPath(w, before, init);
      RunKeeps(w, before + init);
      ApplyKeeps(RunFrom(w, before + init), after[|after| - 1]);
      if |after| == 1 {
        assert before + init == before;
      }
    }
  }

  // A transaction that is succeeded never had a compensation request sent, every
  // step was accepted, and every async step was matched by a poll as well.
  lemma SucceededMeansDone(w: World, acts: seq<Action>)
    requires Init(w)
    requires RunFrom(w, acts).sh.row.status == TxSucceeded
    ensures var sh := RunFrom(w, acts).sh;
      (forall i :: CompensateSent(i) !in sh.log)
      && (forall i :: 0 <= i < |sh.row.steps| ==>
            ForwardAccepted(i) in sh.log && (sh.row.steps[i].kind == Async ==> PollMatched(i) in sh.log))
  {
    RunKeeps(w, acts);
    var sh := RunFrom(w, acts).sh;
    forall i | 0 <= i < |sh.row.steps|
      ensures ForwardAccepted(i) in sh.log && (sh.row.steps[i].kind == Async ==> PollMatched(i) in sh.log)
    {
      assert Done(sh, i);
    }
  }

  // Whatever was ever sent as a compensation had been accepted forward before that,
  // also after crashes, takeovers and from stale snapshots.
  lemma CompensationFollowsAcceptance(w: World, acts: seq<Action>, j: nat)
    requires Init(w)
    requires j < |RunFrom(w, acts).sh.log| && RunFrom(w, acts).sh.log[j].CompensateSent?
    ensures var log := RunFrom(w, acts).sh.log; exists k :: 0 <= k < j && log[k] == ForwardAccepted(log[j].i)
  {
    RunKeeps(w, acts);
  }

  // A step stored as compensated was accepted forward and its compensation was accepted.
  lemma CompensatedMeansUndone(w: World, acts: seq<Action>, i: nat)
    requires Init(w)
    requires i < |RunFrom(w, acts).sh.row.steps| && RunFrom(w, acts).sh.row.steps[i].status == Compensated
    ensures ForwardAccepted(i) in RunFrom(w, acts).sh.log && CompensateAccepted(i) in RunFrom(w, acts).sh.log
  {
    RunKeeps(w, acts);
    assert Accepted(RunFrom(w, acts).sh, i);
  }

  // Whoever is inside executeCompensation sees a stored status that only the
  // compensation path can produce, which is why its last, unconditional write is safe.
  lemma CompensatorOwnsStatus(w: World, acts: seq<Action>, pid: nat)
    requires Init(w)
    requires pid in RunFrom(w, acts).procs && RunFrom(w, acts).procs[pid].pc.Comp?
    ensures RunFrom(w, acts).sh.row.status.TxCompensating? || RunFrom(w, acts).sh.row.status.TxFailed?
  {
    RunKeeps(w, acts);
  }
}
