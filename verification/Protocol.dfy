// One transaction as seen by every goroutine of every instance: drivers, timeout
// and recovery scans, and poll workers interleave one store call or HTTP call at a
// time (saga/coordinator.go, saga/executor.go, saga/poller.go, saga/store.go).
// All nondeterminism sits in the Oracle of a step and in the choice of actions, so
// RunFrom ranges over every run when its action list ranges over every sequence.
module Protocol {
  import opened Wrappers
  import opened SagaTypes
  import opened SagaStore
  import opened Selection

  // ---------- what the environment decides ----------

  // A store call works, fails without effect, or takes effect but reports an error.
  datatype Fault = Fine | Lost | Late

  datatype Prep = Prepared | RenderFailed | SigningFailed

  datatype PollReply = Matched | Rejected | StillPending | PollError | PollSigningError

  datatype Wake = WaitExpired | WaitStopped | GotSuccess | GotFailure | GotError

  // accepted: the HTTP response parsed as a success envelope.
  // stop: the context is done or the coordinator stops, or the queue is full.
  // expired: the deadline of the execution context has fired (only after timeoutAt).
  datatype Oracle = Oracle(
    fault: Fault, prep: Prep, accepted: bool, poll: PollReply, wake: Wake, stop: bool, expired: bool)

  // ---------- shared state ----------

  // History of what happened on the wire.
  datatype Event =
    | ForwardAccepted(i: nat) | PollMatched(i: nat) | CompensateSent(i: nat) | CompensateAccepted(i: nat)

  // row: the store. log: wire history. claims: for each instance the expiry of its
  // last claim that was reported successful, unless it has released since.
  datatype Shared = Shared(row: Row, log: seq<Event>, claims: map<string, int>)

  // ---------- processes ----------

  datatype DrivePc =
    | Claiming
    | LoadTx
    | LoadSteps(st: TxStatus)
    | Renew(st: TxStatus, snap: seq<StepRow>)
    | Begin
    | Select(snap: seq<StepRow>)
    | MarkSucceeded(snap: seq<StepRow>)
    | Trigger
    | Releasing

  datatype ExecPc =
    | MarkRunning | Prepare | Send | CountRetry | RetryWrite | FailWrite
    | SaveResponse | WriteSucceeded | CreateTask | WritePolling
    | Advance | Reload | Wait

  datatype UndoPc = MarkCompensating | PrepareUndo | Attempt(n: nat) | WriteUndone | WriteUndoFailed

  datatype CompPc = NextStep | Undo(u: UndoPc, i: nat) | SkipFrom(k: nat) | Finish

  // todo: indices still to visit; ok: allCompensated.
  datatype CompJob = CompJob(snap: seq<StepRow>, todo: seq<nat>, ok: bool)

  datatype PollPc =
    | ReadStep | ReadTx | ReadSteps | Request | SaveReply | PollSucceed | PollFail
    | DeleteTask | Reschedule | Unlock

  datatype ScanPc = ScanCas(st: TxStatus) | ScanSubmit

  datatype Pc =
    | Drive(d: DrivePc)
    | Exec(e: ExecPc, i: nat, step: StepRow)
    | Comp(c: CompPc, job: CompJob)
    | Poll(p: PollPc, i: nat, step: StepRow)
    | Scan(s: ScanPc)

  datatype Proc = Proc(inst: string, pc: Pc)

  // The shared state and the process after a step; None means the goroutine is done
  // with this transaction.
  datatype After = After(sh: Shared, pc: Option<Pc>)

  // ---------- store calls ----------

  function Kept(f: Fault, before: Row, after: Row): Row {
    if f.Lost? then before else after
  }

  function Put(sh: Shared, f: Fault, after: Row): Shared {
    sh.(row := Kept(f, sh.row, after))
  }

  // UpdateStepStatus; a missing step is an error without effect.
  function WriteStep(sh: Shared, f: Fault, i: nat, st: StepStatus): Shared {
    if i < |sh.row.steps| then Put(sh, f, SetStepStatus(sh.row, i, st)) else sh
  }

  predicate Written(sh: Shared, f: Fault, i: nat) {
    f.Fine? && i < |sh.row.steps|
  }

  predicate ClaimSeen(sh: Shared, f: Fault, inst: string, now: int) {
    f.Fine? && Claimable(sh.row, inst, now)
  }

  // Claim and record it when the instance learns that it worked.
  function DoClaim(sh: Shared, f: Fault, inst: string, now: int, lease: nat): Shared {
    Put(sh, f, Claim(sh.row, inst, now, lease))
      .(claims := if ClaimSeen(sh, f, inst, now) then sh.claims[inst := now + lease] else sh.claims)
  }

  function DoRelease(sh: Shared, f: Fault, inst: string): Shared {
    Put(sh, f, Release(sh.row, inst)).(claims := sh.claims - {inst})
  }

  function Note(sh: Shared, e: Event): Shared {
    sh.(log := sh.log + [e])
  }

  // ---------- driveTransaction and executeNextStep ----------

  function DriveStep(sh: Shared, inst: string, lease: nat, now: int, d: DrivePc, o: Oracle): After {
    match d
    case Claiming =>
      After(DoClaim(sh, o.fault, inst, now, lease),
            if ClaimSeen(sh, o.fault, inst, now) then Some(Drive(LoadTx)) else None)
    case LoadTx =>
      After(sh, Some(Drive(if o.stop || !o.fault.Fine? then Releasing else LoadSteps(sh.row.status))))
    case LoadSteps(st) =>
      After(sh, Some(Drive(if o.fault.Fine? then Renew(st, sh.row.steps) else Releasing)))
    case Renew(st, snap) =>
      After(DoClaim(sh, o.fault, inst, now, lease),
            Some(if !ClaimSeen(sh, o.fault, inst, now) then Drive(Releasing)
                 else match st
                   case TxPending => Drive(Begin)
                   case TxRunning => Drive(Select(snap))
                   case TxCompensating => Comp(NextStep, CompJob(snap, ToCompensate(snap, |snap|), true))
                   case TxSucceeded => Drive(Releasing)
                   case TxFailed => Drive(Releasing)))
    case Begin =>
      After(Put(sh, o.fault, Cas(sh.row, TxPending, TxRunning, NoError)),
            Some(Drive(if o.fault.Fine? && sh.row.status == TxPending then LoadTx else Releasing)))
    case Select(snap) =>
      After(sh, Some(SelectNext(snap, TimedOut(sh.row.timeoutAt, now))))
    case MarkSucceeded(snap) =>
      After(Put(sh, o.fault, Cas(sh.row, TxRunning, TxSucceeded, NoError)), Some(Drive(Releasing)))
    case Trigger =>
      After(Put(sh, o.fault, Cas(sh.row, TxRunning, TxCompensating, StepError)), Some(Drive(LoadTx)))
    case Releasing =>
      After(DoRelease(sh, o.fault, inst), None)
  }

  function SelectNext(snap: seq<StepRow>, timedOut: bool): Pc {
    if timedOut || AnyFailed(snap) then Drive(Trigger)
    else if AllSucceeded(snap) then Drive(MarkSucceeded(snap))
    else
      var cur := Pick(snap, |snap|);
      if cur.None? then Drive(Releasing)
      else
        var step := snap[cur.value];
        if step.status == Pending || (step.status == Running && step.kind == Sync)
        then Exec(MarkRunning, cur.value, step)
        else Exec(Reload, cur.value, step)
  }

  // Compensation before success, success before another step; a running step is sent
  // again only if it is sync, and nothing is left to do when no step is open.
  lemma SelectMeans(snap: seq<StepRow>)
    ensures SelectNext(snap, true) == Drive(Trigger)
    ensures SelectNext(snap, false) == Drive(Trigger) <==> exists i :: 0 <= i < |snap| && snap[i].status == Failed
    ensures SelectNext(snap, false) == Drive(MarkSucceeded(snap)) <==>
      forall i :: 0 <= i < |snap| ==> snap[i].status == Succeeded
    ensures var next := SelectNext(snap, false);
      next.Exec? ==>
        && next.i < |snap| && next.step == snap[next.i] && Pick(snap, |snap|) == Some(next.i)
        && (next.e == MarkRunning <==>
              next.step.status == Pending || (next.step.status == Running && next.step.kind == Sync))
        && (next.e == Reload <==>
              next.step.status == Polling || (next.step.status == Running && next.step.kind != Sync))
    ensures SelectNext(snap, false) == Drive(Releasing) ==> Pick(snap, |snap|) == None
  {
  }

  // ---------- executeSyncStep, executeAsyncStep, waitForAsyncStep ----------

  function ExecStep(sh: Shared, now: int, e: ExecPc, i: nat, step: StepRow, o: Oracle): After {
    var timedOut := TimedOut(sh.row.timeoutAt, now);
    match e
    case MarkRunning =>
      if timedOut then After(sh, Some(Drive(Trigger)))
      else After(WriteStep(sh, o.fault, i, Running),
                 Some(if Written(sh, o.fault, i) then Exec(Prepare, i, step) else Drive(Trigger)))
    case Prepare =>
      After(sh, Some(Exec(if o.prep.Prepared? then Send else FailWrite, i, step)))
    case Send =>
      if o.accepted then After(Note(sh, ForwardAccepted(i)), Some(Exec(SaveResponse, i, step)))
      else After(sh, Some(Exec(if o.expired && timedOut then FailWrite else CountRetry, i, step)))
    case CountRetry =>
      After(if i < |sh.row.steps| then Put(sh, o.fault, IncRetry(sh.row, i)) else sh,
            Some(Exec(if step.retryCount + 1 < step.maxRetry then RetryWrite else FailWrite, i,
                      step.(retryCount := step.retryCount + 1))))
    case RetryWrite =>
      After(WriteStep(sh, o.fault, i, Pending), Some(Drive(LoadTx)))
    case FailWrite =>
      After(WriteStep(sh, o.fault, i, Failed), Some(Drive(Trigger)))
    case SaveResponse =>
      After(sh, Some(if !o.fault.Fine? then Drive(Trigger)
                     else Exec(if step.kind == Async then CreateTask else WriteSucceeded, i, step)))
    case WriteSucceeded =>
      After(WriteStep(sh, o.fault, i, Succeeded),
            Some(if Written(sh, o.fault, i) then Exec(Advance, i, step) else Drive(Trigger)))
    case CreateTask =>
      After(Put(sh, o.fault, PutPollTask(sh.row, i, now)),
            Some(if o.fault.Fine? then Exec(WritePolling, i, step) else Drive(Trigger)))
    case WritePolling =>
      After(WriteStep(sh, o.fault, i, Polling),
            Some(if Written(sh, o.fault, i) then Exec(Reload, i, step) else Drive(Trigger)))
    case Advance =>
      if timedOut then After(sh, Some(Drive(Trigger)))
      else After(Put(sh, o.fault, sh.row.(currentStep := i + 1)), Some(Drive(LoadTx)))
    case Reload =>
      After(sh, Some(
        if timedOut then Drive(Trigger)
        else if !o.fault.Fine? then Drive(Releasing)
        else if i >= |sh.row.steps| then Drive(Trigger)
        else match sh.row.steps[i].status
          case Succeeded => Exec(Advance, i, step)
          case Failed => Drive(Trigger)
          case Compensating => Drive(LoadTx)
          case Compensated => Drive(LoadTx)
          case Skipped => Drive(LoadTx)
          case _ => Exec(Wait, i, step)))
    case Wait =>
      match o.wake
      case WaitExpired => After(sh, Some(Drive(Trigger)))
      case WaitStopped => After(sh, Some(Drive(Releasing)))
      case GotSuccess => After(Put(sh, o.fault, sh.row.(currentStep := i + 1)), Some(Drive(LoadTx)))
      case GotFailure => After(sh, Some(Drive(Trigger)))
      case GotError => After(sh, Some(Drive(LoadTx)))
  }

  // ---------- executeCompensation and CompensateStep ----------

  function CompStep(sh: Shared, c: CompPc, job: CompJob, o: Oracle): After {
    match c
    case NextStep =>
      After(sh, Some(if job.todo == [] then Comp(SkipFrom(0), job)
                     else if o.stop then Drive(Releasing)
                     else Comp(Undo(MarkCompensating, job.todo[0]), job.(todo := job.todo[1..]))))
    case Undo(u, i) => UndoStep(sh, u, i, job, o)
    case SkipFrom(k) =>
      if k >= |job.snap| then After(sh, Some(Comp(Finish, job)))
      else After(if job.snap[k].status == Pending then WriteStep(sh, o.fault, k, Skipped) else sh,
                 Some(Comp(SkipFrom(k + 1), job)))
    case Finish =>
      After(Put(sh, o.fault, SetTxStatus(sh.row, TxFailed, CompensationVerdict(job.ok))), Some(Drive(Releasing)))
  }

  function UndoStep(sh: Shared, u: UndoPc, i: nat, job: CompJob, o: Oracle): After {
    var failed := Comp(NextStep, job.(ok := false));
    match u
    case MarkCompensating =>
      After(WriteStep(sh, o.fault, i, Compensating),
            Some(if Written(sh, o.fault, i) then Comp(Undo(PrepareUndo, i), job) else failed))
    case PrepareUndo =>
      if o.prep.RenderFailed? then After(WriteStep(sh, o.fault, i, Failed), Some(failed))
      else After(sh, Some(Comp(Undo(Attempt(0), i), job)))
    case Attempt(n) =>
      if i >= |job.snap| || n > UndoRetries(job.snap[i]) then After(sh, Some(Comp(Undo(WriteUndoFailed, i), job)))
      else if n > 0 && o.stop then After(sh, Some(failed))
      else (match o.prep
        case RenderFailed => After(sh, Some(Comp(Undo(Attempt(n + 1), i), job)))
        case SigningFailed => After(sh, Some(Comp(Undo(WriteUndoFailed, i), job)))
        case Prepared =>
          if o.accepted
          then After(Note(Note(sh, CompensateSent(i)), CompensateAccepted(i)), Some(Comp(Undo(WriteUndone, i), job)))
          else After(Note(sh, CompensateSent(i)), Some(Comp(Undo(Attempt(n + 1), i), job))))
    case WriteUndone =>
      After(WriteStep(sh, o.fault, i, Compensated),
            Some(if Written(sh, o.fault, i) then Comp(NextStep, job) else failed))
    case WriteUndoFailed =>
      After(WriteStep(sh, o.fault, i, Failed), Some(failed))
  }

  // ---------- processPollTask ----------

  function PollStep(sh: Shared, now: int, p: PollPc, i: nat, step: StepRow, o: Oracle): After {
    match p
    case ReadStep =>
      After(sh, Some(if !o.fault.Fine? then Poll(Unlock, i, step)
                     else if i < |sh.row.steps| && sh.row.steps[i].status == Polling
                     then Poll(ReadTx, i, sh.row.steps[i])
                     else Poll(DeleteTask, i, step)))
    case ReadTx =>
      After(sh, Some(Poll(if o.fault.Fine? then ReadSteps else Unlock, i, step)))
    case ReadSteps =>
      After(sh, Some(Poll(if o.fault.Fine? then Request else Unlock, i, step)))
    case Request =>
      (match o.poll
       case Matched => After(Note(sh, PollMatched(i)), Some(Poll(SaveReply, i, step)))
       case Rejected => After(sh, Some(Poll(PollFail, i, step)))
       case PollSigningError => After(sh, Some(Poll(PollFail, i, step)))
       case PollError => After(sh, Some(Poll(Unlock, i, step)))
       case StillPending =>
         After(sh, Some(Poll(if step.pollCount >= step.pollMaxTimes then PollFail else Reschedule, i, step))))
    case SaveReply =>
      After(sh, Some(Poll(PollSucceed, i, step)))
    case PollSucceed =>
      After(WriteStep(sh, o.fault, i, Succeeded), Some(Poll(DeleteTask, i, step)))
    case PollFail =>
      After(WriteStep(sh, o.fault, i, Failed), Some(Poll(DeleteTask, i, step)))
    case DeleteTask =>
      After(Put(sh, o.fault, DropPollTask(sh.row, i)), None)
    case Reschedule =>
      After(if i < |sh.row.steps| then Put(sh, o.fault, IncPollCount(sh.row, i, now)) else sh,
            Some(Poll(Unlock, i, step)))
    case Unlock =>
      After(Put(sh, o.fault, UnlockPollTask(sh.row, i)), None)
  }

  // ---------- scanTimeouts and recoveryScan, after the batch claim ----------

  function ScanStep(sh: Shared, inst: string, s: ScanPc, o: Oracle): After {
    match s
    case ScanCas(st) =>
      After(Put(sh, o.fault, Cas(sh.row, st, TxCompensating, DeadlineError)),
            Some(if o.fault.Fine? && sh.row.status == st then Scan(ScanSubmit) else Drive(Releasing)))
    case ScanSubmit =>
      After(sh, if o.stop then Some(Drive(Releasing)) else None)
  }

  function PcStep(sh: Shared, inst: string, lease: nat, now: int, pc: Pc, o: Oracle): After {
    match pc
    case Drive(d) => DriveStep(sh, inst, lease, now, d, o)
    case Exec(e, i, step) => ExecStep(sh, now, e, i, step, o)
    case Comp(c, job) => CompStep(sh, c, job, o)
    case Poll(p, i, step) => PollStep(sh, now, p, i, step, o)
    case Scan(s) => ScanStep(sh, inst, s, o)
  }

  // ---------- worlds and runs ----------

  // leases: LeaseDuration per instance (five minutes where not configured).
  datatype World = World(now: int, sh: Shared, procs: map<nat, Proc>, leases: map<string, nat>)

  const DEFAULT_LEASE: nat := 300

  function LeaseOf(w: World, inst: string): nat {
    if inst in w.leases then w.leases[inst] else DEFAULT_LEASE
  }

  datatype Action =
    | Tick(d: nat)
    | StartDriver(pid: nat, inst: string)
    | ScanTimeouts(pid: nat, inst: string, f: Fault)
    | ScanRecoverable(pid: nat, inst: string, f: Fault)
    | AcquirePoll(pid: nat, inst: string, i: nat, f: Fault)
    | Go(pid: nat, o: Oracle)
    | Crash(pids: set<nat>)

  // The batch scans claim a row under a narrower guard than ClaimTransaction: not
  // even the same instance may take a live lock.
  function BatchClaim(w: World, pid: nat, inst: string, f: Fault, pc: Pc): World {
    var until := w.now + LeaseOf(w, inst);
    var sh := Put(w.sh, f, Locked(w.sh.row, inst, until));
    if f.Fine? then
      w.(sh := sh.(claims := sh.claims[inst := until]), procs := w.procs[pid := Proc(inst, pc)])
    else w.(sh := sh)
  }

  // A disabled action leaves the world unchanged.
  function Apply(w: World, a: Action): World {
    match a
    case Tick(d) => w.(now := w.now + d)
    case StartDriver(pid, inst) =>
      if pid in w.procs then w else w.(procs := w.procs[pid := Proc(inst, Drive(Claiming))])
    case ScanTimeouts(pid, inst, f) =>
      if pid in w.procs || !TimeoutListed(w.sh.row, w.now) then w
      else BatchClaim(w, pid, inst, f, Scan(ScanCas(w.sh.row.status)))
    case ScanRecoverable(pid, inst, f) =>
      if pid in w.procs || !Recoverable(w.sh.row, w.now) then w
      else BatchClaim(w, pid, inst, f, Scan(ScanSubmit))
    case AcquirePoll(pid, inst, i, f) =>
      if pid in w.procs || i >= |w.sh.row.steps| || !Acquirable(w.sh.row, i, w.now) then w
      else
        var w' := w.(sh := Put(w.sh, f, LockPollTask(w.sh.row, i, w.now)));
        if f.Fine? then w'.(procs := w.procs[pid := Proc(inst, Poll(ReadStep, i, w.sh.row.steps[i]))]) else w'
    case Go(pid, o) =>
      if pid !in w.procs then w
      else
        var p := w.procs[pid];
        var r := PcStep(w.sh, p.inst, LeaseOf(w, p.inst), w.now, p.pc, o);
        w.(sh := r.sh,
           procs := if r.pc.Some? then w.procs[pid := Proc(p.inst, r.pc.value)] else w.procs - {pid})
    case Crash(pids) => w.(procs := w.procs - pids)
  }

  function RunFrom(w: World, acts: seq<Action>): World {
    if acts == [] then w else Apply(RunFrom(w, acts[..|acts| - 1]), acts[|acts| - 1])
  }

  // Engine.Submit stores a Pending transaction whose steps are all Pending.
  predicate Init(w: World) {
    && w.sh.row.status == TxPending
    && w.sh.row.lock == None
    && w.sh.row.pollTasks == map[]
    && (forall i :: 0 <= i < |w.sh.row.steps| ==> w.sh.row.steps[i].status == Pending)
    && w.sh.log == []
    && w.sh.claims == map[]
    && w.procs == map[]
  }

  // ---------- what the actions do to the processes ----------

  // Where a new process starts.
  predicate Entry(pc: Pc) {
    || pc == Drive(Claiming)
    || (pc.Scan? && (pc.s.ScanCas? ==> pc.s.st.TxRunning? || pc.s.st.TxCompensating?))
    || (pc.Poll? && pc.p == ReadStep)
  }

  predicate SameStatuses(sh: Shared, sh': Shared) {
    && sh'.row.status == sh.row.status
    && |sh'.row.steps| == |sh.row.steps|
    && forall j :: 0 <= j < |sh.row.steps| ==>
         sh'.row.steps[j].kind == sh.row.steps[j].kind && sh'.row.steps[j].status == sh.row.steps[j].status
  }

  predicate OldOrEntry(w: World, w': World, pid: nat) {
    pid in w'.procs ==> (pid in w.procs && w'.procs[pid] == w.procs[pid]) || Entry(w'.procs[pid].pc)
  }

  // Everything but a process step leaves log, statuses and running processes alone.
  lemma EnvironmentStep(w: World, a: Action, pid: nat)
    requires a.Go? ==> a.pid !in w.procs
    ensures Apply(w, a).sh.log == w.sh.log && SameStatuses(w.sh, Apply(w, a).sh)
    ensures OldOrEntry(w, Apply(w, a), pid)
  {
    match a
    case Tick(d) =>
    case StartDriver(p, inst) =>
    case ScanTimeouts(p, inst, f) =>
    case ScanRecoverable(p, inst, f) =>
    case AcquirePoll(p, inst, i, f) =>
    case Go(p, o) =>
    case Crash(ps) =>
  }

  lemma GoStep(w: World, pid: nat, o: Oracle, q: nat)
    requires pid in w.procs
    ensures var p := w.procs[pid];
      var r := PcStep(w.sh, p.inst, LeaseOf(w, p.inst), w.now, p.pc, o);
      var w' := Apply(w, Go(pid, o));
      && w'.sh == r.sh
      && (q in w'.procs ==> if q == pid then r.pc.Some? && w'.procs[q].pc == r.pc.value
                            else q in w.procs && w'.procs[q] == w.procs[q])
  {
  }

  // ---------- disturbances ----------

  // What can make a compensation verdict say too much: an accepted action or a failed
  // undo goes unrecorded because a store call fails, or because its process crashes; a
  // pass that knows of a failed undo is interrupted; a poll fails an accepted step; a
  // second driver takes over.
  datatype Disturbance = StoreFailure | CrashStop | Interruption | PollFailure | Takeover

  // Between the answer that accepts a step and its record.
  predicate InFlight(e: ExecPc) {
    e == SaveResponse || e == WriteSucceeded || e == CreateTask || e == WritePolling
  }

  // The process knows something that the store does not.
  predicate Exposed(pc: Pc) {
    (pc.Exec? && InFlight(pc.e)) || (pc.Comp? && !pc.job.ok)
  }

  // Every other failing call, stop and refusal is no disturbance, and neither are
  // deadlines, scans, expired leases and full queues.
  function Troubles(pc: Pc, o: Oracle): set<Disturbance> {
    match pc
    case Exec(e, _, _) =>
      if (e == SaveResponse || e == CreateTask) && !o.fault.Fine? then {StoreFailure}
      else if (e == WriteSucceeded || e == WritePolling) && o.fault.Lost? then {StoreFailure}
      else {}
    case Comp(c, job) =>
      if c.Finish? && !job.ok && o.fault.Lost? then {StoreFailure}
      else if c.NextStep? && !job.ok && job.todo != [] && o.stop then {Interruption}
      else {}
    case Poll(p, _, _) => if p == PollFail then {PollFailure} else {}
    case _ => {}
  }

  function ActionTroubles(w: World, a: Action): set<Disturbance> {
    match a
    case Go(pid, o) => if pid in w.procs then Troubles(w.procs[pid].pc, o) else {}
    case Crash(pids) =>
      if exists pid :: pid in pids && pid in w.procs && Exposed(w.procs[pid].pc) then {CrashStop} else {}
    case _ => {}
  }

  // No disturbance outside ds.
  predicate Within(w: World, acts: seq<Action>, ds: set<Disturbance>) {
    acts == []
    || (Within(w, acts[..|acts| - 1], ds) && ActionTroubles(RunFrom(w, acts[..|acts| - 1]), acts[|acts| - 1]) <= ds)
  }
}
