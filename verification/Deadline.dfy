// Deadlines. From the deadline on, every driver that is about to begin something turns to
// compensation, and no step is begun any more; an overdue transaction that nobody holds
// is found by a timeout scan. Before it, the deadline makes no difference
// (saga/coordinator.go:232-265, saga/coordinator.go:381-417, saga/coordinator.go:475-562).
module Deadline {
  import opened Wrappers
  import opened SagaTypes
  import opened SagaStore
  import opened Selection
  import opened Protocol

  predicate Overdue(w: World) {
    w.sh.row.timeoutAt.Some? && w.sh.row.timeoutAt.value <= w.now
  }

  // Where the coordinator looks at the deadline.
  predicate Looks(pc: Pc) {
    (pc.Drive? && pc.d.Select?) || (pc.Exec? && (pc.e == MarkRunning || pc.e == Advance || pc.e == Reload))
  }

  // The deadline is fixed and the clock only advances.
  lemma DeadlineStays(w: World, a: Action)
    ensures Apply(w, a).sh.row.timeoutAt == w.sh.row.timeoutAt && Apply(w, a).now >= w.now
  {
    if a.Go? && a.pid in w.procs {
      var p := w.procs[a.pid];
      PcKeepsDeadline(w.sh, p.inst, LeaseOf(w, p.inst), w.now, p.pc, a.o);
    } else {
      EnvironmentDeadline(w, a);
    }
  }

  lemma PcKeepsDeadline(sh: Shared, inst: string, lease: nat, now: int, pc: Pc, o: Oracle)
    ensures PcStep(sh, inst, lease, now, pc, o).sh.row.timeoutAt == sh.row.timeoutAt
  {
    match pc
    case Drive(d) =>
    case Exec(e, i, step) => ExecKeepsDeadline(sh, now, e, i, step, o);
    case Comp(c, job) =>
    case Poll(p, i, step) =>
    case Scan(s) =>
  }

  lemma ExecKeepsDeadline(sh: Shared, now: int, e: ExecPc, i: nat, step: StepRow, o: Oracle)
    ensures ExecStep(sh, now, e, i, step, o).sh.row.timeoutAt == sh.row.timeoutAt
  {
    match e
    case Wait =>
    case Reload =>
    case _ =>
  }

  lemma EnvironmentDeadline(w: World, a: Action)
    requires a.Go? ==> a.pid !in w.procs
    ensures Apply(w, a).sh.row.timeoutAt == w.sh.row.timeoutAt && Apply(w, a).now >= w.now
  {
  }

  // ---------- from the deadline on ----------

  // Whoever looks at the deadline after it goes on to trigger compensation, and writes
  // nothing before that.
  lemma OverdueTriggers(w: World, pid: nat, o: Oracle)
    requires w.sh.row.timeoutAt.Some? && w.sh.row.timeoutAt.value <= w.now
    requires pid in w.procs && Looks(w.procs[pid].pc)
    ensures var w' := Apply(w, Go(pid, o));
      w'.sh == w.sh && pid in w'.procs && w'.procs[pid].pc == Drive(Trigger)
  {
  }

  // An attempt that the deadline has ended is neither counted nor repeated.
  lemma OverdueAttemptFails(w: World, pid: nat, o: Oracle, i: nat, step: StepRow)
    requires w.sh.row.timeoutAt.Some? && w.sh.row.timeoutAt.value <= w.now
    requires pid in w.procs && w.procs[pid].pc == Exec(Send, i, step) && !o.accepted && o.expired
    ensures var w' := Apply(w, Go(pid, o)); w'.sh == w.sh && w'.procs[pid].pc == Exec(FailWrite, i, step)
  {
  }

  // No step is newly stored as running.
  predicate NoneBegun(sh: Shared, sh': Shared) {
    && |sh'.row.steps| == |sh.row.steps|
    && forall i :: 0 <= i < |sh.row.steps| && sh'.row.steps[i].status == Running ==> sh.row.steps[i].status == Running
  }

  lemma ExecBeginsNone(sh: Shared, now: int, e: ExecPc, i: nat, step: StepRow, o: Oracle)
    requires sh.row.timeoutAt.Some? && sh.row.timeoutAt.value <= now
    ensures NoneBegun(sh, ExecStep(sh, now, e, i, step, o).sh)
  {
    match e
    case Wait =>
    case Reload =>
    case _ =>
  }

  lemma UndoBeginsNone(sh: Shared, u: UndoPc, i: nat, job: CompJob, o: Oracle)
    ensures NoneBegun(sh, UndoStep(sh, u, i, job, o).sh)
  {
  }

  lemma PcBeginsNone(sh: Shared, inst: string, lease: nat, now: int, pc: Pc, o: Oracle)
    requires sh.row.timeoutAt.Some? && sh.row.timeoutAt.value <= now
    ensures NoneBegun(sh, PcStep(sh, inst, lease, now, pc, o).sh)
  {
    match pc
    case Drive(d) =>
    case Exec(e, i, step) => ExecBeginsNone(sh, now, e, i, step, o);
    case Comp(c, job) =>
      if c.Undo? {
        UndoBeginsNone(sh, c.u, c.i, job, o);
      }
    case Poll(p, i, step) =>
    case Scan(s) =>
  }

  lemma ApplyBeginsNone(w: World, a: Action)
    requires Overdue(w)
    ensures Overdue(Apply(w, a)) && NoneBegun(w.sh, Apply(w, a).sh)
  {
    DeadlineStays(w, a);
    if a.Go? && a.pid in w.procs {
      var p := w.procs[a.pid];
      PcBeginsNone(w.sh, p.inst, LeaseOf(w, p.inst), w.now, p.pc, a.o);
    } else {
      EnvironmentStep(w, a, 0);
    }
  }

  // In every run, from the deadline on, no step is begun.
  lemma {:induction false} NoneBegunLate(w: World, acts: seq<Action>, more: seq<Action>)
    requires Overdue(RunFrom(w, acts))
    ensures Overdue(RunFrom(w, acts + more)) && NoneBegun(RunFrom(w, acts).sh, RunFrom(w, acts + more).sh)
    decreases |more|
  {
    if more == [] {
      assert acts + more == acts;
    } else {
      var init := more[..|more| - 1];
      assert (acts + more)[..|acts + more| - 1] == acts + init;
      NoneBegunLate(w, acts, init);
      ApplyBeginsNone(RunFrom(w, acts + init), more[|more| - 1]);
    }
  }

  // A running transaction past its deadline whose lock is free is listed by a timeout
  // scan, which turns it to compensation.
  lemma ScanCompensates(w: World, pid: nat, inst: string, o: Oracle)
    requires w.sh.row.status.TxRunning? && pid !in w.procs && o.fault.Fine?
    requires w.sh.row.timeoutAt.Some? && w.sh.row.timeoutAt.value < w.now
    requires w.sh.row.lock.None? || w.sh.row.lock.value.until < w.now
    ensures var w' := Apply(Apply(w, ScanTimeouts(pid, inst, Fine)), Go(pid, o));
      w'.sh.row.status.TxCompensating? && w'.sh.row.lastError == DeadlineError && w'.procs[pid].pc == Scan(ScanSubmit)
  {
  }

  // ---------- before the deadline ----------

  function Timeless(sh: Shared): Shared {
    sh.(row := sh.row.(timeoutAt := None))
  }

  function WithoutDeadline(w: World): World {
    w.(sh := Timeless(w.sh))
  }

  predicate Ahead(sh: Shared, now: int) {
    sh.row.timeoutAt.Some? ==> now < sh.row.timeoutAt.value
  }

  lemma DriveTimeless(sh: Shared, inst: string, lease: nat, now: int, d: DrivePc, o: Oracle)
    requires Ahead(sh, now)
    ensures var r := DriveStep(sh, inst, lease, now, d, o);
      DriveStep(Timeless(sh), inst, lease, now, d, o) == r.(sh := Timeless(r.sh))
  {
    match d
    case Select(snap) =>
    case _ =>
  }

  lemma ExecTimeless(sh: Shared, now: int, e: ExecPc, i: nat, step: StepRow, o: Oracle)
    requires Ahead(sh, now)
    ensures var r := ExecStep(sh, now, e, i, step, o);
      ExecStep(Timeless(sh), now, e, i, step, o) == r.(sh := Timeless(r.sh))
  {
    match e
    case Wait =>
    case Reload =>
    case _ =>
  }

  lemma UndoTimeless(sh: Shared, u: UndoPc, i: nat, job: CompJob, o: Oracle)
    ensures var r := UndoStep(sh, u, i, job, o);
      UndoStep(Timeless(sh), u, i, job, o) == r.(sh := Timeless(r.sh))
  {
  }

  lemma PollTimeless(sh: Shared, now: int, p: PollPc, i: nat, step: StepRow, o: Oracle)
    ensures var r := PollStep(sh, now, p, i, step, o);
      PollStep(Timeless(sh), now, p, i, step, o) == r.(sh := Timeless(r.sh))
  {
  }

  lemma PcTimeless(sh: Shared, inst: string, lease: nat, now: int, pc: Pc, o: Oracle)
    requires Ahead(sh, now)
    ensures var r := PcStep(sh, inst, lease, now, pc, o);
      PcStep(Timeless(sh), inst, lease, now, pc, o) == r.(sh := Timeless(r.sh))
  {
    match pc
    case Drive(d) => DriveTimeless(sh, inst, lease, now, d, o);
    case Exec(e, i, step) => ExecTimeless(sh, now, e, i, step, o);
    case Comp(c, job) =>
      if c.Undo? {
        UndoTimeless(sh, c.u, c.i, job, o);
      }
    case Poll(p, i, step) => PollTimeless(sh, now, p, i, step, o);
    case Scan(s) =>
  }

  lemma ApplyTimeless(w: World, a: Action)
    requires Ahead(w.sh, w.now)
    ensures Apply(WithoutDeadline(w), a) == WithoutDeadline(Apply(w, a))
  {
    if a.Go? && a.pid in w.procs {
      var p := w.procs[a.pid];
      PcTimeless(w.sh, p.inst, LeaseOf(w, p.inst), w.now, p.pc, a.o);
    }
  }

  // A run whose clock stays before the deadline is, apart from the deadline itself, the
  // run of the same actions without one.
  lemma {:induction false} DeadlineInvisible(w: World, acts: seq<Action>)
    requires Ahead(RunFrom(w, acts).sh, RunFrom(w, acts).now)
    ensures RunFrom(WithoutDeadline(w), acts) == WithoutDeadline(RunFrom(w, acts))
    ensures RunFrom(w, acts).sh.row.timeoutAt == w.sh.row.timeoutAt
  {
    if acts != [] {
      var before, a := acts[..|acts| - 1], acts[|acts| - 1];
      DeadlineStays(RunFrom(w, before), a);
      DeadlineInvisible(w, before);
      ApplyTimeless(RunFrom(w, before), a);
    }
  }
}
