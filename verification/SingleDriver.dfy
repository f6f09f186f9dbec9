// With one driver at a time and exclusive poll processing, but crashes, recovery,
// scans and failing store calls at any point, a running transaction keeps its steps
// in the shape Succeeded* . (one open or failed step) . Pending*. That is what makes
// the selection loop pick the right step although it lets a later Running or Polling
// step override an earlier Pending one (saga/coordinator.go:386-456).
module SingleDriver {
  import opened SagaTypes
  import opened Selection
  import opened Protocol
  import opened ProtocolSafety

  // A process that drives the transaction; releasing the lock no longer counts.
  predicate Driving(pc: Pc) {
    (pc.Drive? && !pc.d.Releasing?) || pc.Exec? || pc.Comp?
  }

  ghost predicate Solo(w: World) {
    forall p, q :: p in w.procs && q in w.procs && p != q ==>
      && !(Driving(w.procs[p].pc) && Driving(w.procs[q].pc))
      && !(w.procs[p].pc.Poll? && w.procs[q].pc.Poll? && w.procs[p].pc.i == w.procs[q].pc.i)
  }

  ghost predicate SoloRun(w: World, acts: seq<Action>) {
    forall k :: 0 <= k <= |acts| ==> Solo(RunFrom(w, acts[..k]))
  }

  // ---------- the invariant ----------

  predicate Early(sh: Shared) {
    sh.row.status.TxPending? || sh.row.status.TxRunning?
  }

  ghost predicate ShapeOk(sh: Shared) {
    && (sh.row.status.TxPending? ==>
          Front(sh.row.steps, 0) && (|sh.row.steps| > 0 ==> sh.row.steps[0].status == Pending))
    && (sh.row.status.TxRunning? ==> exists k: nat :: Front(sh.row.steps, k))
  }

  // The store may only have moved on where the snapshot saw a step being polled.
  ghost predicate Tracks(snap: seq<StepRow>, steps: seq<StepRow>) {
    && |snap| == |steps|
    && forall j :: 0 <= j < |snap| ==>
         snap[j].status == steps[j].status
         || (snap[j].status == Polling && (steps[j].status == Succeeded || steps[j].status == Failed))
  }

  ghost predicate SnapFits(sh: Shared, snap: seq<StepRow>) {
    Early(sh) ==> Tracks(snap, sh.row.steps) && exists k: nat :: Front(snap, k)
  }

  ghost predicate DriveFits(sh: Shared, d: DrivePc) {
    match d
    case LoadSteps(st) => st.TxRunning? ==> !sh.row.status.TxPending?
    case Renew(st, snap) => SnapFits(sh, snap) && (st.TxRunning? ==> !sh.row.status.TxPending?)
    case Select(snap) => SnapFits(sh, snap) && !sh.row.status.TxPending?
    case _ => true
  }

  ghost predicate ExecFits(sh: Shared, e: ExecPc, i: nat) {
    match e
    case Advance => true
    case Reload => true
    case Wait => true
    case MarkRunning =>
      !sh.row.status.TxPending?
      && (sh.row.status.TxRunning? ==>
            Front(sh.row.steps, i) && i < |sh.row.steps|
            && (sh.row.steps[i].status == Pending || sh.row.steps[i].status == Running))
    case _ =>
      !sh.row.status.TxPending?
      && (sh.row.status.TxRunning? ==>
            Front(sh.row.steps, i) && i < |sh.row.steps| && sh.row.steps[i].status == Running)
  }

  // From reading the step until writing its result, the poll worker can rely on it.
  ghost predicate PollFits(sh: Shared, p: PollPc, i: nat) {
    p != ReadStep && p != DeleteTask && p != Unlock && Early(sh) ==>
      i < |sh.row.steps| && sh.row.steps[i].status == Polling
  }

  ghost predicate Fits(sh: Shared, pc: Pc) {
    match pc
    case Drive(d) => DriveFits(sh, d)
    case Exec(e, i, _) => ExecFits(sh, e, i)
    case Comp(_, _) => !Early(sh)
    case Poll(p, i, _) => PollFits(sh, p, i)
    case Scan(_) => true
  }

  ghost predicate SoloInv(w: World) {
    Invariant(w) && ShapeOk(w.sh) && forall pid :: pid in w.procs ==> Fits(w.sh, w.procs[pid].pc)
  }

  // ---------- single steps ----------

  lemma Unmoved(sh: Shared, sh': Shared, pc: Pc)
    requires ShapeOk(sh) && SameStatuses(sh, sh')
    ensures ShapeOk(sh')
    ensures Fits(sh, pc) ==> Fits(sh', pc)
  {
    if k: nat :| Front(sh.row.steps, k) {
      assert Front(sh'.row.steps, k);
    }
  }

  // Leaving the early statuses makes every promise void; entering Running keeps the shape.
  lemma StatusMoved(sh: Shared, sh': Shared)
    requires ShapeOk(sh) && sh'.row.steps == sh.row.steps && Moves(sh.row.status, sh'.row.status)
    ensures ShapeOk(sh')
  {
    if sh.row.status.TxPending? {
      assert Front(sh'.row.steps, 0);
    }
  }

  // What a driver's step leaves to the poll workers.
  ghost predicate PollsUndisturbed(sh: Shared, sh': Shared) {
    Early(sh') ==>
      && Early(sh)
      && |sh'.row.steps| == |sh.row.steps|
      && forall i :: 0 <= i < |sh.row.steps| && sh.row.steps[i].status == Polling ==> sh'.row.steps[i].status == Polling
  }

  lemma LoadFits(sh: Shared, st: TxStatus)
    requires ShapeOk(sh) && DriveFits(sh, LoadSteps(st))
    ensures DriveFits(sh, Renew(st, sh.row.steps))
  {
    if Early(sh) {
      var k: nat :| Front(sh.row.steps, k);
    }
  }

  // The steps of driveTransaction that leave the statuses alone.
  lemma ReadOnlyDriveFits(sh: Shared, inst: string, lease: nat, now: int, d: DrivePc, o: Oracle)
    requires ShapeOk(sh) && DriveFits(sh, d)
    requires d == Claiming || d == LoadTx || d.LoadSteps? || d.Renew? || d.Select? || d == Releasing
    ensures var r := DriveStep(sh, inst, lease, now, d, o);
      SameStatuses(sh, r.sh) && (r.pc.Some? && !r.pc.value.Comp? ==> Fits(r.sh, r.pc.value))
  {
    var r := DriveStep(sh, inst, lease, now, d, o);
    match d
    case LoadSteps(st) => LoadFits(sh, st);
    case Renew(st, snap) => Unmoved(sh, r.sh, Drive(d));
    case Select(snap) => SelectFits(sh, snap, TimedOut(sh.row.timeoutAt, now));
    case _ =>
  }

  lemma DriveStepFits(sh: Shared, inst: string, lease: nat, now: int, d: DrivePc, o: Oracle)
    requires Sound(sh) && DriveJustified(sh, d) && ShapeOk(sh) && DriveFits(sh, d)
    ensures var r := DriveStep(sh, inst, lease, now, d, o);
      ShapeOk(r.sh) && PollsUndisturbed(sh, r.sh) && (r.pc.Some? ==> Fits(r.sh, r.pc.value))
  {
    var r := DriveStep(sh, inst, lease, now, d, o);
    DriveKeeps(sh, inst, lease, now, d, o);
    if d == Begin || d.MarkSucceeded? || d == Trigger {
      StatusMoved(sh, r.sh);
    } else {
      ReadOnlyDriveFits(sh, inst, lease, now, d, o);
      Unmoved(sh, r.sh, Drive(d));
    }
  }

  lemma SelectFits(sh: Shared, snap: seq<StepRow>, timedOut: bool)
    requires DriveFits(sh, Select(snap))
    ensures Fits(sh, SelectNext(snap, timedOut))
  {
    var pc := SelectNext(snap, timedOut);
    if pc.Exec? && pc.e.MarkRunning? && sh.row.status.TxRunning? {
      var k: nat :| Front(snap, k);
      if k < |snap| {
        PickAtFront(snap, k, |snap|);
      }
      assert Front(sh.row.steps, k);
    }
  }

  // One write to the front step of a running transaction.
  lemma FrontWrite(sh: Shared, f: Fault, i: nat, st: StepStatus)
    requires ShapeOk(sh) && !sh.row.status.TxPending?
    requires i < |sh.row.steps| && (sh.row.status.TxRunning? ==> Front(sh.row.steps, i))
    requires Open(st) || st == Failed || st == Succeeded
    ensures var sh' := WriteStep(sh, f, i, st);
      ShapeOk(sh') && (st != Succeeded && sh.row.status.TxRunning? ==> Front(sh'.row.steps, i))
  {
    var sh' := WriteStep(sh, f, i, st);
    if sh.row.status.TxRunning? {
      assert if sh'.row.steps[i].status == Succeeded then Front(sh'.row.steps, i + 1) else Front(sh'.row.steps, i);
    }
  }

  lemma MarkRunningFits(sh: Shared, now: int, i: nat, step: StepRow, o: Oracle)
    requires ShapeOk(sh) && ExecFits(sh, MarkRunning, i) && i < |sh.row.steps|
    ensures var r := ExecStep(sh, now, MarkRunning, i, step, o);
      ShapeOk(r.sh) && PollsUndisturbed(sh, r.sh) && (r.pc.Some? ==> Fits(r.sh, r.pc.value))
  {
    FrontWrite(sh, o.fault, i, Running);
  }

  // The write that ends an attempt: after it the driver promises nothing about step i.
  lemma EndWriteFits(sh: Shared, now: int, e: ExecPc, i: nat, step: StepRow, o: Oracle)
    requires ShapeOk(sh) && ExecFits(sh, e, i) && i < |sh.row.steps|
    requires e == RetryWrite || e == FailWrite || e == WriteSucceeded || e == WritePolling
    ensures var r := ExecStep(sh, now, e, i, step, o);
      ShapeOk(r.sh) && PollsUndisturbed(sh, r.sh) && (r.pc.Some? ==> Fits(r.sh, r.pc.value))
  {
    FrontWrite(sh, o.fault, i,
      if e == RetryWrite then Pending else if e == FailWrite then Failed
      else if e == WriteSucceeded then Succeeded else Polling);
  }

  lemma PassFits(sh: Shared, now: int, e: ExecPc, i: nat, step: StepRow, o: Oracle)
    requires ShapeOk(sh) && ExecFits(sh, e, i)
    requires e == Prepare || e == Send || e == CountRetry || e == SaveResponse || e == CreateTask
    ensures var r := ExecStep(sh, now, e, i, step, o);
      SameStatuses(sh, r.sh) && (r.pc.Some? ==> Fits(r.sh, r.pc.value))
  {
    Unmoved(sh, ExecStep(sh, now, e, i, step, o).sh, Exec(e, i, step));
  }

  lemma AwaitFits(sh: Shared, now: int, e: ExecPc, i: nat, step: StepRow, o: Oracle)
    requires e == Advance || e == Reload || e == Wait
    ensures var r := ExecStep(sh, now, e, i, step, o);
      SameStatuses(sh, r.sh) && (r.pc.Some? ==> Fits(r.sh, r.pc.value))
  {
  }

  lemma ExecStepFits(sh: Shared, now: int, e: ExecPc, i: nat, step: StepRow, o: Oracle)
    requires ExecJustified(sh, e, i, step) && ShapeOk(sh) && ExecFits(sh, e, i)
    ensures var r := ExecStep(sh, now, e, i, step, o);
      ShapeOk(r.sh) && PollsUndisturbed(sh, r.sh) && (r.pc.Some? ==> Fits(r.sh, r.pc.value))
  {
    var sh' := ExecStep(sh, now, e, i, step, o).sh;
    if e == MarkRunning {
      MarkRunningFits(sh, now, i, step, o);
    } else if e == RetryWrite || e == FailWrite || e == WriteSucceeded || e == WritePolling {
      EndWriteFits(sh, now, e, i, step, o);
    } else if e == Advance || e == Reload || e == Wait {
      AwaitFits(sh, now, e, i, step, o);
      Unmoved(sh, sh', Drive(Claiming));
    } else {
      PassFits(sh, now, e, i, step, o);
      Unmoved(sh, sh', Drive(Claiming));
    }
  }

  // What a poll step may change: its own polled step, to Succeeded or Failed.
  ghost predicate OnlyResolves(sh: Shared, sh': Shared, i: nat) {
    && sh'.row.status == sh.row.status
    && |sh'.row.steps| == |sh.row.steps|
    && forall j :: 0 <= j < |sh.row.steps| ==>
         sh'.row.steps[j].status == sh.row.steps[j].status
         || !Early(sh)
         || (j == i && sh.row.steps[j].status == Polling
             && (sh'.row.steps[j].status == Succeeded || sh'.row.steps[j].status == Failed))
  }

  lemma PollStepFits(sh: Shared, now: int, p: PollPc, i: nat, step: StepRow, o: Oracle)
    requires Sound(sh) && PollJustified(sh, p, i) && ShapeOk(sh) && PollFits(sh, p, i)
    ensures var r := PollStep(sh, now, p, i, step, o);
      ShapeOk(r.sh) && OnlyResolves(sh, r.sh, i) && (r.pc.Some? ==> Fits(r.sh, r.pc.value))
  {
    var r := PollStep(sh, now, p, i, step, o);
    if p == PollSucceed || p == PollFail {
      if sh.row.status.TxRunning? {
        var k: nat :| Front(sh.row.steps, k);
        assert k == i;
      }
      if i < |sh.row.steps| && !sh.row.status.TxPending? {
        FrontWrite(sh, o.fault, i, if p == PollSucceed then Succeeded else Failed);
      }
    } else {
      Unmoved(sh, r.sh, Poll(p, i, step));
    }
  }

  // ---------- the other processes ----------

  lemma PollUndisturbed(sh: Shared, sh': Shared, pc: Pc)
    requires pc.Poll? && Fits(sh, pc) && PollsUndisturbed(sh, sh')
    ensures Fits(sh', pc)
  {
  }

  // Next to a driver there are only poll workers, scanners and goroutines releasing.
  lemma OtherAfterDriver(sh: Shared, sh': Shared, pc: Pc)
    requires !Driving(pc) && Fits(sh, pc) && PollsUndisturbed(sh, sh')
    ensures Fits(sh', pc)
  {
    if pc.Poll? {
      PollUndisturbed(sh, sh', pc);
    }
  }

  lemma ResolveUndisturbed(sh: Shared, sh': Shared, i: nat, pc: Pc)
    requires Fits(sh, pc) && ShapeOk(sh) && OnlyResolves(sh, sh', i)
    requires pc.Poll? ==> pc.i != i
    ensures Fits(sh', pc)
  {
    if pc.Exec? && sh.row.status.TxRunning? && !pc.e.Advance? && !pc.e.Reload? && !pc.e.Wait? {
      assert Front(sh'.row.steps, pc.i);
    }
  }

  lemma ApplySolo(w: World, a: Action)
    requires SoloInv(w) && Solo(w)
    ensures SoloInv(Apply(w, a))
  {
    ApplyKeeps(w, a);
    if a.Go? && a.pid in w.procs {
      GoSolo(w, a.pid, a.o);
    } else {
      EnvironmentFits(w, a);
    }
  }

  lemma EnvironmentFits(w: World, a: Action)
    requires SoloInv(w) && (a.Go? ==> a.pid !in w.procs)
    ensures ShapeOk(Apply(w, a).sh)
    ensures forall pid :: pid in Apply(w, a).procs ==> Fits(Apply(w, a).sh, Apply(w, a).procs[pid].pc)
  {
    var w' := Apply(w, a);
    EnvironmentStep(w, a, 0);
    Unmoved(w.sh, w'.sh, Drive(Claiming));
    forall pid | pid in w'.procs ensures Fits(w'.sh, w'.procs[pid].pc) {
      EnvironmentStep(w, a, pid);
      if pid in w.procs && w'.procs[pid] == w.procs[pid] {
        Unmoved(w.sh, w'.sh, w.procs[pid].pc);
      }
    }
  }

  // The process that moves, and what its step means for the others.
  lemma MoverFits(w: World, pid: nat, o: Oracle)
    requires SoloInv(w) && pid in w.procs
    ensures var p := w.procs[pid];
      var r := PcStep(w.sh, p.inst, LeaseOf(w, p.inst), w.now, p.pc, o);
      && ShapeOk(r.sh) && (r.pc.Some? ==> Fits(r.sh, r.pc.value))
      && (Driving(p.pc) ==> PollsUndisturbed(w.sh, r.sh))
      && (p.pc.Poll? ==> OnlyResolves(w.sh, r.sh, p.pc.i))
      && (p.pc == Drive(Releasing) ==> SameStatuses(w.sh, r.sh))
      && (p.pc.Scan? ==> SameStatuses(w.sh, r.sh) || !Early(r.sh))
  {
    var p := w.procs[pid];
    PcKeeps(w.sh, p.inst, LeaseOf(w, p.inst), w.now, p.pc, o);
    match p.pc
    case Drive(d) => DriveStepFits(w.sh, p.inst, LeaseOf(w, p.inst), w.now, d, o);
    case Exec(e, i, step) => ExecStepFits(w.sh, w.now, e, i, step, o);
    case Comp(c, job) =>
    case Poll(q, i, step) => PollStepFits(w.sh, w.now, q, i, step, o);
    case Scan(s) => StatusMoved(w.sh, ScanStep(w.sh, p.inst, s, o).sh);
  }

  lemma OtherFits(w: World, pid: nat, o: Oracle, q: nat)
    requires SoloInv(w) && Solo(w) && pid in w.procs && q in w.procs && q != pid
    ensures Fits(Apply(w, Go(pid, o)).sh, w.procs[q].pc)
  {
    var p, pc := w.procs[pid].pc, w.procs[q].pc;
    var sh' := Apply(w, Go(pid, o)).sh;
    GoStep(w, pid, o, q);
    GoKeeps(w, pid, o);
    MoverFits(w, pid, o);
    if Driving(p) {
      OtherAfterDriver(w.sh, sh', pc);
    } else if p.Poll? {
      ResolveUndisturbed(w.sh, sh', p.i, pc);
    } else if SameStatuses(w.sh, sh') {
      Unmoved(w.sh, sh', pc);
    } else {
      LateFits(w.sh, sh', pc);
    }
  }

  lemma LateFits(sh: Shared, sh': Shared, pc: Pc)
    requires Fits(sh, pc) && Promise(sh, sh') && !Early(sh')
    ensures Fits(sh', pc)
  {
  }

  lemma GoSolo(w: World, pid: nat, o: Oracle)
    requires SoloInv(w) && Solo(w) && pid in w.procs
    requires Invariant(Apply(w, Go(pid, o)))
    ensures SoloInv(Apply(w, Go(pid, o)))
  {
    var w' := Apply(w, Go(pid, o));
    GoStep(w, pid, o, pid);
    MoverFits(w, pid, o);
    forall q | q in w'.procs ensures Fits(w'.sh, w'.procs[q].pc) {
      GoStep(w, pid, o, q);
      if q != pid {
        OtherFits(w, pid, o, q);
      }
    }
  }

  lemma {:induction false} RunSolo(w: World, acts: seq<Action>)
    requires Init(w) && SoloRun(w, acts)
    ensures SoloInv(RunFrom(w, acts))
  {
    if acts == [] {
      RunKeeps(w, acts);
      assert Front(w.sh.row.steps, 0);
    } else {
      var before := acts[..|acts| - 1];
      assert forall k :: 0 <= k <= |before| ==> before[..k] == acts[..k];
      RunSolo(w, before);
      assert Solo(RunFrom(w, before));
      ApplySolo(RunFrom(w, before), acts[|acts| - 1]);
    }
  }

  // ---------- theorems ----------

  // The shape, at every point of every such run while the transaction is running.
  lemma RunningShape(w: World, acts: seq<Action>)
    requires Init(w) && SoloRun(w, acts)
    requires RunFrom(w, acts).sh.row.status == TxRunning
    ensures exists k: nat :: Front(RunFrom(w, acts).sh.row.steps, k)
  {
    RunSolo(w, acts);
  }

  // The selection loop picks the first step that has not succeeded; it finds none
  // exactly when all succeeded, unless some step failed.
  lemma SelectionIsFirst(w: World, acts: seq<Action>, pid: nat)
    requires Init(w) && SoloRun(w, acts)
    requires RunFrom(w, acts).sh.row.status == TxRunning
    requires pid in RunFrom(w, acts).procs
    requires RunFrom(w, acts).procs[pid].pc.Drive? && RunFrom(w, acts).procs[pid].pc.d.Select?
    ensures var snap := RunFrom(w, acts).procs[pid].pc.d.snap;
      !AnyFailed(snap) ==>
        var cur := Pick(snap, |snap|);
        && (cur.None? <==> AllSucceeded(snap))
        && (cur.Some? ==> (forall j :: 0 <= j < cur.value ==> snap[j].status == Succeeded)
                          && (forall j :: cur.value < j < |snap| ==> snap[j].status == Pending))
  {
    RunSolo(w, acts);
    var sh := RunFrom(w, acts).sh;
    var snap := RunFrom(w, acts).procs[pid].pc.d.snap;
    assert DriveFits(sh, Select(snap));
    var k: nat :| Front(snap, k);
    if !AnyFailed(snap) {
      PickAtFront(snap, k, |snap|);
    }
  }
}
