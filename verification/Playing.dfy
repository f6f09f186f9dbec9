// Building runs of the interleaving model step by step: one driver plays with chosen
// answers, poll workers take whole turns in between, and the result is lifted to a run
// of the system.
module Playing {
  import opened Wrappers
  import opened SagaTypes
  import opened SagaStore
  import opened Protocol
  import opened SingleDriver
  import B = PollBudget
  import N = Notify

  // ---------- one process ----------

  // pid: its number. ds: the disturbances its steps may suffer. helped: poll workers may
  // take turns.
  datatype Me = Me(pid: nat, inst: string, lease: nat, now: int, ds: set<Disturbance>, helped: bool)

  datatype Spot = Spot(sh: Shared, pc: Pc)

  function Played(me: Me, s: Spot, o: Oracle): Option<Spot> {
    var r := PcStep(s.sh, me.inst, me.lease, me.now, s.pc, o);
    if r.pc.None? then None else Some(Spot(r.sh, r.pc.value))
  }

  // The turn fails the step.
  predicate Fails(sh: Shared, i: nat, reply: B.Reply) {
    B.News(sh.row, i, reply) == Some(N.Failure) || B.News(sh.row, i, reply) == Some(N.Timeout)
  }

  // A poll worker may take up the poll task of step i and get this reply.
  predicate CanPoll(me: Me, sh: Shared, i: nat, reply: B.Reply) {
    && me.helped && i < |sh.row.steps| && Acquirable(sh.row, i, me.now)
    && (Fails(sh, i, reply) ==> PollFailure in me.ds)
  }

  // What is left when it is done.
  function PollTurn(sh: Shared, i: nat, reply: B.Reply, now: int): Shared
    requires i < |sh.row.steps|
  {
    var matched := sh.row.steps[i].status == Polling && reply.SuccessValue?;
    sh.(row := B.AfterPoll(sh.row, i, reply, now), log := sh.log + if matched then [PollMatched(i)] else [])
  }

  ghost predicate Closed(me: Me, spots: iset<Spot>) {
    && (forall t, o :: t in spots && Troubles(t.pc, o) <= me.ds && Played(me, t, o).Some? ==>
          Played(me, t, o).value in spots)
    && (forall t, i, reply :: t in spots && CanPoll(me, t.sh, i, reply) ==>
          Spot(PollTurn(t.sh, i, reply, me.now), t.pc) in spots)
  }

  // t is in whatever holds s and is closed under the process's own steps and the turns
  // of its helpers.
  ghost predicate Leads(me: Me, s: Spot, t: Spot) {
    forall spots :: Closed(me, spots) && s in spots ==> t in spots
  }

  lemma Move(me: Me, s: Spot, t: Spot, o: Oracle) returns (u: Spot)
    requires Leads(me, s, t) && Troubles(t.pc, o) <= me.ds && Played(me, t, o).Some?
    ensures Leads(me, s, u) && Played(me, t, o) == Some(u)
  {
    u := Played(me, t, o).value;
  }

  lemma TurnMoves(me: Me, s: Spot, t: Spot, i: nat, reply: B.Reply) returns (u: Spot)
    requires Leads(me, s, t) && CanPoll(me, t.sh, i, reply)
    ensures Leads(me, s, u) && u == Spot(PollTurn(t.sh, i, reply, me.now), t.pc)
  {
    u := Spot(PollTurn(t.sh, i, reply, me.now), t.pc);
  }

  // Everything works and every answer is good; the oracles used differ in one place.
  const Calm := Oracle(Fine, Prepared, true, Matched, WaitExpired, false, false)

  // ---------- the turn of a poll worker ----------

  function Answering(reply: B.Reply): Oracle {
    Calm.(poll := match reply
                  case SuccessValue => Matched
                  case FailureValue => Rejected
                  case Neither => StillPending
                  case NoResponse => PollError
                  case Unsigned => PollSigningError)
  }

  predicate Finishing(pc: Pc) {
    pc.Poll? && (pc.p == DeleteTask || pc.p == Unlock)
  }

  // The worker has read the step and asks.
  lemma AskPlays(me: Me, s: Spot, t: Spot, i: nat, step: StepRow, reply: B.Reply) returns (u: Spot)
    requires Leads(me, s, t) && t.pc == Poll(Request, i, step)
    requires i in t.sh.row.pollTasks && i < |t.sh.row.steps| && step == t.sh.row.steps[i] && step.status == Polling
    requires Fails(t.sh, i, reply) ==> PollFailure in me.ds
    ensures Leads(me, s, u) && Finishing(u.pc)
    ensures PcStep(u.sh, me.inst, me.lease, me.now, u.pc, Calm) == After(PollTurn(t.sh, i, reply, me.now), None)
  {
    u := Move(me, s, t, Answering(reply));
    if reply.SuccessValue? {
      u := Move(me, s, u, Calm);
    }
    if !Finishing(u.pc) {
      u := Move(me, s, u, Calm);
    }
    assert t.sh.log + [] == t.sh.log;
  }

  // processPollTask in the interleaving model, from taking the poll task to letting it go, is
  // what PollBudget says.
  lemma SessionPlays(me: Me, s: Spot, i: nat, reply: B.Reply) returns (u: Spot)
    requires i in s.sh.row.pollTasks && i < |s.sh.row.steps|
    requires s.pc == Poll(ReadStep, i, s.sh.row.steps[i])
    requires Fails(s.sh, i, reply) ==> PollFailure in me.ds
    ensures Leads(me, s, u) && Finishing(u.pc)
    ensures PcStep(u.sh, me.inst, me.lease, me.now, u.pc, Calm) == After(PollTurn(s.sh, i, reply, me.now), None)
  {
    u := Move(me, s, s, Calm);
    if s.sh.row.steps[i].status == Polling {
      u := Move(me, s, u, Calm);
      u := Move(me, s, u, Calm);
      u := AskPlays(me, s, u, i, s.sh.row.steps[i], reply);
    } else {
      assert s.sh.log + [] == s.sh.log;
    }
  }

  // The lock on the poll task is gone afterwards, whatever it was.
  lemma LockLeavesNoTrace(sh: Shared, i: nat, reply: B.Reply, now: int)
    requires i < |sh.row.steps| && Acquirable(sh.row, i, now)
    ensures PollTurn(sh.(row := LockPollTask(sh.row, i, now)), i, reply, now) == PollTurn(sh, i, reply, now)
  {
    var row := sh.row;
    var locked := LockPollTask(row, i, now);
    assert locked.pollTasks - {i} == row.pollTasks - {i};
    assert UnlockPollTask(locked, i).pollTasks == UnlockPollTask(row, i).pollTasks;
    assert UnlockPollTask(IncPollCount(locked, i, now), i).pollTasks ==
           UnlockPollTask(IncPollCount(row, i, now), i).pollTasks;
  }

  // ---------- runs ----------

  // One driver or scan (process 0) and one poll worker (process 1) at a time.
  predicate Tidy(a: Action) {
    match a
    case Tick(_) => true
    case StartDriver(pid, _) => pid == 0
    case ScanTimeouts(_, _, _) => false
    case ScanRecoverable(pid, _, _) => pid == 0
    case AcquirePoll(pid, _, _, _) => pid == 1
    case Go(pid, _) => pid <= 1
    case Crash(_) => true
  }

  predicate AllTidy(acts: seq<Action>) {
    forall k :: 0 <= k < |acts| ==> Tidy(acts[k])
  }

  // A run with no disturbance outside ds, from w to w'.
  ghost predicate RunsBy(w: World, acts: seq<Action>, w': World, ds: set<Disturbance>) {
    RunFrom(w, acts) == w' && Within(w, acts, ds) && (Takeover in ds || AllTidy(acts))
  }

  ghost predicate Runs(w: World, w': World, ds: set<Disturbance>) {
    exists acts: seq<Action> :: RunsBy(w, acts, w', ds)
  }

  lemma {:induction false} RunAppend(w: World, a: seq<Action>, b: seq<Action>)
    ensures RunFrom(w, a + b) == RunFrom(RunFrom(w, a), b)
  {
    if b == [] {
      assert a + b == a;
    } else {
      assert (a + b)[..|a + b| - 1] == a + b[..|b| - 1];
      RunAppend(w, a, b[..|b| - 1]);
    }
  }

  lemma {:induction false} WithinAppend(w: World, a: seq<Action>, b: seq<Action>, ds: set<Disturbance>)
    requires Within(w, a, ds) && Within(RunFrom(w, a), b, ds)
    ensures Within(w, a + b, ds)
  {
    if b == [] {
      assert a + b == a;
    } else {
      assert (a + b)[..|a + b| - 1] == a + b[..|b| - 1];
      WithinAppend(w, a, b[..|b| - 1], ds);
      RunAppend(w, a, b[..|b| - 1]);
    }
  }

  lemma RunsStay(w: World, ds: set<Disturbance>)
    ensures Runs(w, w, ds)
  {
    assert RunsBy(w, [], w, ds);
  }

  lemma RunsOn(a: World, b: World, c: World, ds: set<Disturbance>)
    requires Runs(a, b, ds) && Runs(b, c, ds)
    ensures Runs(a, c, ds)
  {
    var x: seq<Action> :| RunsBy(a, x, b, ds);
    var y: seq<Action> :| RunsBy(b, y, c, ds);
    RunAppend(a, x, y);
    WithinAppend(a, x, y, ds);
    assert RunsBy(a, x + y, c, ds);
  }

  lemma RunsByOne(w: World, a: Action, ds: set<Disturbance>)
    requires (Takeover in ds || Tidy(a)) && ActionTroubles(w, a) <= ds
    ensures Runs(w, Apply(w, a), ds)
  {
    var acts := [a];
    assert acts[..|acts| - 1] == [] && acts[|acts| - 1] == a;
    assert RunFrom(w, []) == w && Within(w, [], ds);
    assert RunFrom(w, acts) == Apply(w, a) && Within(w, acts, ds);
    assert RunsBy(w, acts, Apply(w, a), ds);
  }

  // ---------- from playing to running ----------

  function Placed(w: World, me: Me, s: Spot): World {
    w.(sh := s.sh, procs := w.procs[me.pid := Proc(me.inst, s.pc)])
  }

  predicate Suits(w: World, me: Me) {
    me.lease == LeaseOf(w, me.inst) && me.now == w.now && (Takeover in me.ds || me.pid <= 1)
  }

  lemma GoRuns(w: World, me: Me, t: Spot, o: Oracle)
    requires Suits(w, me) && Troubles(t.pc, o) <= me.ds && Played(me, t, o).Some?
    ensures Runs(Placed(w, me, t), Placed(w, me, Played(me, t, o).value), me.ds)
  {
    var before, u := Placed(w, me, t), Played(me, t, o).value;
    assert LeaseOf(before, me.inst) == me.lease;
    RunsByOne(before, Go(me.pid, o), me.ds);
    assert before.procs[me.pid := Proc(me.inst, u.pc)] == w.procs[me.pid := Proc(me.inst, u.pc)];
  }

  ghost function RunsFrom(w: World, me: Me, s: Spot): iset<Spot> {
    iset t | Runs(Placed(w, me, s), Placed(w, me, t), me.ds)
  }

  lemma AloneRuns(w: World, me: Me, s: Spot, t: Spot)
    requires Suits(w, me) && !me.helped && Leads(me, s, t)
    ensures Runs(Placed(w, me, s), Placed(w, me, t), me.ds)
  {
    var spots := RunsFrom(w, me, s);
    RunsStay(Placed(w, me, s), me.ds);
    forall u, o | u in spots && Troubles(u.pc, o) <= me.ds && Played(me, u, o).Some?
      ensures Played(me, u, o).value in spots
    {
      GoRuns(w, me, u, o);
      RunsOn(Placed(w, me, s), Placed(w, me, u), Placed(w, me, Played(me, u, o).value), me.ds);
    }
    assert Closed(me, spots);
  }

  // A whole turn of a poll worker, next to the driver.
  lemma TurnRuns(w: World, me: Me, t: Spot, i: nat, reply: B.Reply)
    requires Suits(w, me) && me.pid != 1 && 1 !in w.procs && CanPoll(me, t.sh, i, reply)
    ensures Runs(Placed(w, me, t), Placed(w, me, Spot(PollTurn(t.sh, i, reply, me.now), t.pc)), me.ds)
  {
    var worker := me.(pid := 1, helped := false);
    var before := Placed(w, me, t);
    var locked := t.sh.(row := LockPollTask(t.sh.row, i, me.now));
    var s := Spot(locked, Poll(ReadStep, i, t.sh.row.steps[i]));
    var u := SessionPlays(worker, s, i, reply);
    LockLeavesNoTrace(t.sh, i, reply, me.now);
    RunsByOne(before, AcquirePoll(1, me.inst, i, Fine), me.ds);
    AloneRuns(before, worker, s, u);
    WorkerLeaves(before, worker, u);
    RunsOn(before, Placed(before, worker, s), Placed(before, worker, u), me.ds);
    RunsOn(before, Placed(before, worker, u), Apply(Placed(before, worker, u), Go(1, Calm)), me.ds);
  }

  lemma WorkerLeaves(w: World, worker: Me, u: Spot)
    requires Suits(w, worker) && worker.pid == 1 && 1 !in w.procs && Finishing(u.pc)
    ensures var after := Apply(Placed(w, worker, u), Go(1, Calm));
      && Runs(Placed(w, worker, u), after, worker.ds)
      && after == w.(sh := PcStep(u.sh, worker.inst, worker.lease, worker.now, u.pc, Calm).sh)
  {
    assert LeaseOf(Placed(w, worker, u), worker.inst) == worker.lease;
    RunsByOne(Placed(w, worker, u), Go(1, Calm), worker.ds);
    assert w.procs[1 := Proc(worker.inst, u.pc)] - {1} == w.procs;
  }

  lemma HelpedRuns(w: World, me: Me, s: Spot, t: Spot)
    requires Suits(w, me) && me.pid != 1 && 1 !in w.procs && Leads(me, s, t)
    ensures Runs(Placed(w, me, s), Placed(w, me, t), me.ds)
  {
    var spots := RunsFrom(w, me, s);
    RunsStay(Placed(w, me, s), me.ds);
    forall u, o | u in spots && Troubles(u.pc, o) <= me.ds && Played(me, u, o).Some?
      ensures Played(me, u, o).value in spots
    {
      GoRuns(w, me, u, o);
      RunsOn(Placed(w, me, s), Placed(w, me, u), Placed(w, me, Played(me, u, o).value), me.ds);
    }
    forall u, i, reply | u in spots && CanPoll(me, u.sh, i, reply)
      ensures Spot(PollTurn(u.sh, i, reply, me.now), u.pc) in spots
    {
      TurnRuns(w, me, u, i, reply);
      RunsOn(Placed(w, me, s), Placed(w, me, u),
             Placed(w, me, Spot(PollTurn(u.sh, i, reply, me.now), u.pc)), me.ds);
    }
    assert Closed(me, spots);
  }

  // The row is locked by the process, for no longer than it may.
  predicate Held(row: Row, me: Me) {
    row.lock.Some? && row.lock.value.holder == me.inst && row.lock.value.until <= me.now + me.lease
  }

  function Entered(sh: Shared): Spot {
    Spot(sh, Drive(Claiming))
  }

  // A driver that has come to u ...
  lemma DriverRuns(w: World, me: Me, u: Spot)
    requires Suits(w, me) && me.pid != 1 && me.pid !in w.procs && 1 !in w.procs && Leads(me, Entered(w.sh), u)
    ensures Runs(w, Placed(w, me, u), me.ds)
  {
    RunsByOne(w, StartDriver(me.pid, me.inst), me.ds);
    HelpedRuns(w, me, Entered(w.sh), u);
    RunsOn(w, Placed(w, me, Entered(w.sh)), Placed(w, me, u), me.ds);
  }

  // ... and lets the transaction go, and is gone.
  lemma DriveRuns(w: World, me: Me, u: Spot)
    requires Suits(w, me) && me.pid != 1 && me.pid !in w.procs && 1 !in w.procs && Leads(me, Entered(w.sh), u)
    requires u.pc == Drive(Releasing)
    ensures Runs(w, w.(sh := DoRelease(u.sh, Fine, me.inst)), me.ds)
  {
    DriverRuns(w, me, u);
    var end := Placed(w, me, u);
    RunsByOne(end, Go(me.pid, Calm), me.ds);
    assert end.procs - {me.pid} == w.procs;
    RunsOn(w, end, Apply(end, Go(me.pid, Calm)), me.ds);
  }

  // A driver that crashes at u.
  lemma CrashRuns(w: World, me: Me, u: Spot)
    requires Suits(w, me) && w.procs == map[] && me.pid != 1 && Leads(me, Entered(w.sh), u) && CrashStop in me.ds
    ensures Runs(w, w.(sh := u.sh), me.ds)
  {
    DriverRuns(w, me, u);
    var before := Placed(w, me, u);
    RunsByOne(before, Crash({me.pid}), me.ds);
    assert before.procs - {me.pid} == map[];
    RunsOn(w, before, w.(sh := u.sh), me.ds);
  }

  // What a recovery scan leaves: the row claimed for its instance.
  function Recovered(w: World, inst: string): Shared {
    var until := w.now + LeaseOf(w, inst);
    w.sh.(row := Locked(w.sh.row, inst, until), claims := w.sh.claims[inst := until])
  }

  // A scan lists the transaction and queues it.
  lemma RecoveryRuns(w: World, me: Me)
    requires (Takeover in me.ds || me.pid == 0) && me.pid !in w.procs && Recoverable(w.sh.row, w.now)
    ensures Runs(w, w.(sh := Recovered(w, me.inst)), me.ds)
  {
    var scanned := Apply(w, ScanRecoverable(me.pid, me.inst, Fine));
    RunsByOne(w, ScanRecoverable(me.pid, me.inst, Fine), me.ds);
    RunsByOne(scanned, Go(me.pid, Calm), me.ds);
    assert scanned.procs - {me.pid} == w.procs;
    RunsOn(w, scanned, Apply(scanned, Go(me.pid, Calm)), me.ds);
  }

  // ---------- such runs have a single driver ----------

  predicate Pair(w: World) {
    forall p :: p in w.procs ==> p <= 1 && (w.procs[p].pc.Poll? <==> p == 1)
  }

  lemma StaysPoll(sh: Shared, inst: string, lease: nat, now: int, pc: Pc, o: Oracle)
    ensures var r := PcStep(sh, inst, lease, now, pc, o); r.pc.Some? ==> (r.pc.value.Poll? <==> pc.Poll?)
  {
    match pc
    case Drive(d) =>
    case Exec(e, i, step) =>
    case Comp(c, job) =>
    case Poll(p, i, step) =>
    case Scan(s) =>
  }

  lemma PairStep(w: World, a: Action)
    requires Pair(w) && Tidy(a)
    ensures Pair(Apply(w, a))
  {
    if a.Go? && a.pid in w.procs {
      var p := w.procs[a.pid];
      StaysPoll(w.sh, p.inst, LeaseOf(w, p.inst), w.now, p.pc, a.o);
    }
  }

  lemma {:induction false} PairRun(w: World, acts: seq<Action>)
    requires Pair(w) && AllTidy(acts)
    ensures Pair(RunFrom(w, acts))
  {
    if acts != [] {
      PairRun(w, acts[..|acts| - 1]);
      PairStep(RunFrom(w, acts[..|acts| - 1]), acts[|acts| - 1]);
    }
  }

  lemma TidyIsSolo(w: World, acts: seq<Action>)
    requires w.procs == map[] && AllTidy(acts)
    ensures SoloRun(w, acts)
  {
    forall k | 0 <= k <= |acts| ensures Solo(RunFrom(w, acts[..k])) {
      PairRun(w, acts[..k]);
    }
  }
}
