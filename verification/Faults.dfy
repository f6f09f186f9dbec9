// Failing store calls, stop requests and unusable answers in the interleaving model: what
// they write, where each process goes on, and which program points do not care (saga/coordinator.go:295-749,
// saga/executor.go:102-391, saga/poller.go:178-394).
module Faults {
  import opened Wrappers
  import opened SagaTypes
  import opened SagaStore
  import opened Protocol

  // ---------- what a call writes ----------

  // A lost call writes nothing, whoever makes it.
  lemma LostWritesNothing(sh: Shared, inst: string, lease: nat, now: int, pc: Pc, o: Oracle)
    requires o.fault == Lost
    ensures PcStep(sh, inst, lease, now, pc, o).sh.row == sh.row
  {
  }

  // A call that takes effect but reports an error writes what a reported success writes.
  lemma LateWritesTheSame(sh: Shared, inst: string, lease: nat, now: int, pc: Pc, o: Oracle)
    ensures PcStep(sh, inst, lease, now, pc, o.(fault := Late)).sh.row ==
            PcStep(sh, inst, lease, now, pc, o.(fault := Fine)).sh.row
  {
  }

  // ---------- where the process goes on ----------

  // Calls whose errors the process looks at; everywhere else an error is logged at most.
  predicate Attends(pc: Pc) {
    match pc
    case Drive(d) => d.Claiming? || d.LoadTx? || d.LoadSteps? || d.Renew? || d.Begin?
    case Exec(e, _, _) =>
      e in {MarkRunning, SaveResponse, WriteSucceeded, CreateTask, WritePolling, Reload}
    case Comp(c, _) => c.Undo? && (c.u.MarkCompensating? || c.u.WriteUndone?)
    case Poll(p, _, _) => p in {ReadStep, ReadTx, ReadSteps}
    case Scan(s) => s.ScanCas?
  }

  lemma OthersGoOn(sh: Shared, inst: string, lease: nat, now: int, pc: Pc, o: Oracle, f: Fault)
    requires !Attends(pc)
    ensures PcStep(sh, inst, lease, now, pc, o).pc == PcStep(sh, inst, lease, now, pc, o.(fault := f)).pc
  {
  }

  // A driver that cannot claim does nothing; one that cannot load, renew or begin
  // releases its lock.
  lemma DriverGivesUp(sh: Shared, inst: string, lease: nat, now: int, d: DrivePc, o: Oracle)
    requires o.fault != Fine && Attends(Drive(d))
    ensures PcStep(sh, inst, lease, now, Drive(d), o).pc == if d.Claiming? then None else Some(Drive(Releasing))
  {
  }

  // Where the write of a forward step fails, the transaction is to be compensated; a
  // step that cannot be reread is left to the next driver.
  lemma StepWriteTriggers(sh: Shared, inst: string, lease: nat, now: int, e: ExecPc, i: nat, step: StepRow, o: Oracle)
    requires o.fault != Fine && e in {MarkRunning, SaveResponse, WriteSucceeded, CreateTask, WritePolling, Reload}
    ensures var late := (e == MarkRunning || e == Reload) && sh.row.timeoutAt.Some? && sh.row.timeoutAt.value <= now;
      PcStep(sh, inst, lease, now, Exec(e, i, step), o).pc ==
        Some(Drive(if e == Reload && !late then Releasing else Trigger))
  {
  }

  // A step whose compensation cannot be marked or recorded counts as not compensated,
  // and the pass goes on with the next one.
  lemma UndoWriteSpoils(sh: Shared, inst: string, lease: nat, now: int, u: UndoPc, i: nat, job: CompJob, o: Oracle)
    requires o.fault != Fine && (u.MarkCompensating? || u.WriteUndone?)
    ensures PcStep(sh, inst, lease, now, Comp(Undo(u, i), job), o).pc ==
            Some(Comp(NextStep, CompJob(job.snap, job.todo, false)))
  {
  }

  // A poll worker that cannot read gives its task back.
  lemma PollerGivesBack(sh: Shared, inst: string, lease: nat, now: int, p: PollPc, i: nat, step: StepRow, o: Oracle)
    requires o.fault != Fine && p in {ReadStep, ReadTx, ReadSteps}
    ensures PcStep(sh, inst, lease, now, Poll(p, i, step), o).pc == Some(Poll(Unlock, i, step))
  {
  }

  // A stop is noticed at a fresh iteration, before the next step of a pass, in the pause
  // before a further attempt, and by a submit; a stopped pass keeps what it still had to do.
  lemma StopMeans(sh: Shared, inst: string, lease: nat, now: int, pc: Pc, o: Oracle)
    requires o.stop
    ensures var next := PcStep(sh, inst, lease, now, pc, o).pc;
      && (pc == Drive(LoadTx) ==> next == Some(Drive(Releasing)))
      && (pc.Comp? && pc.c.NextStep? && pc.job.todo != [] ==> next == Some(Drive(Releasing)))
      && (pc.Comp? && pc.c.NextStep? && pc.job.todo == [] ==> next == Some(Comp(SkipFrom(0), pc.job)))
      && (pc == Scan(ScanSubmit) ==> next == Some(Drive(Releasing)))
      && (pc.Comp? && pc.c.Undo? && pc.c.u.Attempt? && pc.c.i < |pc.job.snap| && pc.c.u.n > 0 ==>
            var m := if pc.job.snap[pc.c.i].maxRetry == 0 then 3 else pc.job.snap[pc.c.i].maxRetry;
            next == Some(if pc.c.u.n <= m then Comp(NextStep, CompJob(pc.job.snap, pc.job.todo, false))
                         else Comp(Undo(WriteUndoFailed, pc.c.i), pc.job)))
  {
  }

  // ---------- what cannot be prepared, and how a wait ends ----------

  // A forward request that cannot be rendered, created or signed fails the step.
  lemma UnpreparedStepFails(sh: Shared, inst: string, lease: nat, now: int, i: nat, step: StepRow, o: Oracle)
    ensures PcStep(sh, inst, lease, now, Exec(Prepare, i, step), o) ==
            After(sh, Some(Exec(if o.prep == Prepared then Send else FailWrite, i, step)))
  {
  }

  // An undo that cannot be rendered fails without an attempt; an attempt whose request
  // cannot be created is used up, and one that cannot be signed is the last. None of
  // them reaches the wire.
  lemma UnpreparedUndo(sh: Shared, inst: string, lease: nat, now: int, i: nat, n: nat, job: CompJob, o: Oracle)
    requires i < |sh.row.steps| && i < |job.snap| && !o.stop
    requires n <= if job.snap[i].maxRetry == 0 then 3 else job.snap[i].maxRetry
    ensures var r := PcStep(sh, inst, lease, now, Comp(Undo(PrepareUndo, i), job), o);
      && r.sh.log == sh.log
      && (o.prep != RenderFailed ==> r.pc == Some(Comp(Undo(Attempt(0), i), job)) && r.sh == sh)
      && (o.prep == RenderFailed ==>
            r.pc == Some(Comp(NextStep, CompJob(job.snap, job.todo, false)))
            && (o.fault != Lost ==> r.sh.row.steps[i].status == Failed))
    ensures o.prep != Prepared ==>
      PcStep(sh, inst, lease, now, Comp(Undo(Attempt(n), i), job), o) ==
        After(sh, Some(Comp(Undo(if o.prep == SigningFailed then WriteUndoFailed else Attempt(n + 1), i), job)))
  {
  }

  // A wait that runs out and a reported failure begin compensation; a stop leaves the
  // transaction to the next driver; an error is tried again; a reported success moves on.
  lemma WaitMeans(sh: Shared, inst: string, lease: nat, now: int, i: nat, step: StepRow, o: Oracle)
    ensures var r := PcStep(sh, inst, lease, now, Exec(Wait, i, step), o);
      && r.pc == Some(Drive(match o.wake
                              case WaitExpired => Trigger
                              case GotFailure => Trigger
                              case WaitStopped => Releasing
                              case GotError => LoadTx
                              case GotSuccess => LoadTx))
      && r.sh == (if o.wake == GotSuccess && o.fault != Lost
                  then sh.(row := sh.row.(currentStep := i + 1)) else sh)
  {
  }

  // Rereading: a succeeded step is passed, a failed or missing one begins compensation,
  // and one that is already on its way back only has the transaction reloaded.
  lemma RereadMeans(sh: Shared, inst: string, lease: nat, now: int, i: nat, step: StepRow, o: Oracle)
    requires o.fault == Fine && (sh.row.timeoutAt.Some? ==> now < sh.row.timeoutAt.value)
    ensures var r := PcStep(sh, inst, lease, now, Exec(Reload, i, step), o);
      && r.sh == sh
      && (i >= |sh.row.steps| ==> r.pc == Some(Drive(Trigger)))
      && (i < |sh.row.steps| ==> r.pc == Some(
            match sh.row.steps[i].status
            case Succeeded => Exec(Advance, i, step)
            case Failed => Drive(Trigger)
            case Compensating => Drive(LoadTx)
            case Compensated => Drive(LoadTx)
            case Skipped => Drive(LoadTx)
            case Pending => Exec(Wait, i, step)
            case Running => Exec(Wait, i, step)
            case Polling => Exec(Wait, i, step)))
  {
  }

  // A poll request: a match is recorded, a refusal or a request that cannot be signed
  // fails the step, a lost one gives the task back, and an unclear reply is one of
  // PollMaxTimes.
  lemma PollRequestMeans(sh: Shared, inst: string, lease: nat, now: int, i: nat, step: StepRow, o: Oracle)
    ensures var r := PcStep(sh, inst, lease, now, Poll(Request, i, step), o);
      && r.sh == (if o.poll == Matched then sh.(log := sh.log + [PollMatched(i)]) else sh)
      && r.pc == Some(Poll(
            match o.poll
            case Matched => SaveReply
            case Rejected => PollFail
            case PollSigningError => PollFail
            case PollError => Unlock
            case StillPending => if step.pollCount < step.pollMaxTimes then Reschedule else PollFail, i, step))
  {
  }

  // ---------- leases ----------

  // A reported claim of a live row locks it for the lease of the instance, five minutes
  // where none is configured.
  lemma ClaimLasts(w: World, pid: nat, o: Oracle)
    requires pid in w.procs && w.procs[pid].pc == Drive(Claiming) && o.fault == Fine
    requires w.sh.row.status in {TxPending, TxRunning, TxCompensating}
    requires w.sh.row.lock == None || w.sh.row.lock.value.until < w.now
             || w.sh.row.lock.value.holder == w.procs[pid].inst
    ensures var inst := w.procs[pid].inst;
      var row := Apply(w, Go(pid, o)).sh.row;
      && (inst in w.leases ==> row.lock == Some(Lock(inst, w.now + w.leases[inst])))
      && (inst !in w.leases ==> row.lock == Some(Lock(inst, w.now + 300)))
  {
  }
}
