// Lease safety under a common clock (saga/store.go:726-898, saga/store.go:986-1023).
// The invariant covers single claims, renewals, both batch scans, the conditional
// release, and store calls that fail with or without effect.
module LeaseSafety {
  import opened SagaTypes
  import opened SagaStore
  import opened Protocol

  // inst was told it holds the lease, has not released it, and it has not run out.
  predicate HoldsLease(w: World, inst: string) {
    inst in w.sh.claims && w.now <= w.sh.claims[inst]
  }

  predicate LockedFor(row: Row, inst: string, until: int) {
    row.lock.Some? && row.lock.value.holder == inst && until <= row.lock.value.until
  }

  ghost predicate LeaseOk(w: World, inst: string) {
    inst in w.sh.claims ==>
      && w.sh.claims[inst] <= w.now + LeaseOf(w, inst)
      && (HoldsLease(w, inst) ==> LockedFor(w.sh.row, inst, w.sh.claims[inst]))
  }

  ghost predicate LeaseInv(w: World) {
    forall inst :: LeaseOk(w, inst)
  }

  // Steps outside DoClaim and DoRelease touch neither the lock nor the claims.
  predicate SameLock(sh: Shared, sh': Shared) {
    sh'.row.lock == sh.row.lock && sh'.claims == sh.claims
  }

  lemma ExecSameLock(sh: Shared, now: int, e: ExecPc, i: nat, step: StepRow, o: Oracle)
    ensures SameLock(sh, ExecStep(sh, now, e, i, step, o).sh)
  {
    match e
    case Wait =>
    case Reload =>
    case _ =>
  }

  lemma UndoSameLock(sh: Shared, u: UndoPc, i: nat, job: CompJob, o: Oracle)
    ensures SameLock(sh, UndoStep(sh, u, i, job, o).sh)
  {
  }

  lemma PollSameLock(sh: Shared, now: int, p: PollPc, i: nat, step: StepRow, o: Oracle)
    ensures SameLock(sh, PollStep(sh, now, p, i, step, o).sh)
  {
  }

  lemma OnlyDriveLocks(sh: Shared, inst: string, lease: nat, now: int, pc: Pc, o: Oracle)
    ensures var sh' := PcStep(sh, inst, lease, now, pc, o).sh;
      SameLock(sh, sh') || sh' == DoClaim(sh, o.fault, inst, now, lease) || sh' == DoRelease(sh, o.fault, inst)
  {
    match pc
    case Drive(d) =>
    case Exec(e, i, step) => ExecSameLock(sh, now, e, i, step, o);
    case Comp(c, job) =>
      if c.Undo? {
        UndoSameLock(sh, c.u, c.i, job, o);
      }
    case Poll(p, i, step) => PollSameLock(sh, now, p, i, step, o);
    case Scan(s) =>
  }

  lemma GoLease(w: World, pid: nat, o: Oracle, inst: string)
    requires LeaseInv(w) && pid in w.procs
    ensures LeaseOk(Apply(w, Go(pid, o)), inst)
  {
    var p := w.procs[pid];
    var w' := Apply(w, Go(pid, o));
    OnlyDriveLocks(w.sh, p.inst, LeaseOf(w, p.inst), w.now, p.pc, o);
    assert LeaseOk(w, inst) && LeaseOf(w', inst) == LeaseOf(w, inst);
  }

  lemma EnvironmentLease(w: World, a: Action, inst: string)
    requires LeaseInv(w) && (a.Go? ==> a.pid !in w.procs)
    ensures LeaseOk(Apply(w, a), inst)
  {
    assert LeaseOk(w, inst) && LeaseOf(Apply(w, a), inst) == LeaseOf(w, inst);
  }

  lemma ApplyLease(w: World, a: Action)
    requires LeaseInv(w)
    ensures LeaseInv(Apply(w, a))
  {
    forall inst ensures LeaseOk(Apply(w, a), inst) {
      if a.Go? && a.pid in w.procs {
        GoLease(w, a.pid, a.o, inst);
      } else {
        EnvironmentLease(w, a, inst);
      }
    }
  }

  lemma {:induction false} RunLease(w: World, acts: seq<Action>)
    requires Init(w)
    ensures LeaseInv(RunFrom(w, acts))
  {
    if acts != [] {
      RunLease(w, acts[..|acts| - 1]);
      ApplyLease(RunFrom(w, acts[..|acts| - 1]), acts[|acts| - 1]);
    }
  }

  // A lease an instance believes in is really its own in the store.
  lemma LeaseIsReal(w: World, acts: seq<Action>, inst: string)
    requires Init(w)
    requires HoldsLease(RunFrom(w, acts), inst)
    ensures var w' := RunFrom(w, acts); LockedFor(w'.sh.row, inst, w'.sh.claims[inst])
  {
    RunLease(w, acts);
    assert LeaseOk(RunFrom(w, acts), inst);
  }

  // No two instances ever hold live leases together.
  lemma LeaseExclusive(w: World, acts: seq<Action>, a: string, b: string)
    requires Init(w)
    requires HoldsLease(RunFrom(w, acts), a) && HoldsLease(RunFrom(w, acts), b)
    ensures a == b
  {
    LeaseIsReal(w, acts, a);
    LeaseIsReal(w, acts, b);
  }

  // While the lease is live every claim of another instance is refused, both by
  // ClaimTransaction and by the two batch scans.
  lemma LeaseKeepsOthersOut(w: World, acts: seq<Action>, inst: string, other: string)
    requires Init(w) && inst != other
    requires HoldsLease(RunFrom(w, acts), inst)
    ensures var w' := RunFrom(w, acts);
      !Claimable(w'.sh.row, other, w'.now) && !Recoverable(w'.sh.row, w'.now) && !TimeoutListed(w'.sh.row, w'.now)
  {
    LeaseIsReal(w, acts, inst);
  }
}
