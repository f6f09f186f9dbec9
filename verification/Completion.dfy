// The protocol never gets stuck: whatever has happened to a transaction, a crash of
// everything, a recovery scan and one driver can still bring it to an end.
module Completion {
  import opened SagaTypes
  import opened Selection
  import opened Protocol
  import opened ProtocolSafety
  import opened Playing
  import S = SagaSpec
  import L = LoopInProtocol

  // Answers under which every request is accepted.
  const Willing := S.World(_ => true, _ => S.Accept, _ => [], _ => 0)

  predicate AllOnward(steps: seq<StepRow>) {
    forall i :: 0 <= i < |steps| ==> Onward(steps[i].status)
  }

  lemma {:induction false} PickFinds(steps: seq<StepRow>, n: nat, i: nat)
    requires i < n <= |steps| && Open(steps[i].status)
    ensures Pick(steps, n).Some?
  {
    if i < n - 1 {
      PickFinds(steps, n - 1, i);
    }
  }

  // A step taken up now can be given up: its request is never built, or its wait ends.
  lemma GiveUpPlays(me: Me, s: Spot, t: Spot) returns (u: Spot)
    requires Leads(me, s, t) && t.pc.Exec? && t.pc.i < |t.sh.row.steps|
    requires !TimedOut(t.sh.row.timeoutAt, me.now) && t.sh.row.status.TxRunning?
    requires t.pc.e == MarkRunning || (t.pc.e == Reload && Open(t.sh.row.steps[t.pc.i].status))
    ensures Leads(me, s, u) && u.pc == Drive(LoadTx)
    ensures u.sh.row.status.TxCompensating? && u.sh.row.lock == t.sh.row.lock
  {
    if t.pc.e == MarkRunning {
      u := Move(me, s, t, Calm);
      u := Move(me, s, u, Calm.(prep := RenderFailed));
      u := L.FailingPlays(me, s, u, t.pc.i, t.pc.step);
    } else {
      u := Move(me, s, t, Calm);
      u := Move(me, s, u, Calm);
      u := L.TriggerPlays(me, s, u);
    }
  }

  lemma CompensatingEnds(me: Me, s: Spot, t: Spot) returns (u: Spot)
    requires Leads(me, s, t) && t.pc == Drive(LoadTx) && t.sh.row.status.TxCompensating? && Held(t.sh.row, me)
    ensures Leads(me, s, u) && u.pc == Drive(Releasing) && u.sh.row.status.TxFailed?
  {
    u := L.LoadPlays(me, s, t);
    u := L.CompensationPlays(me, s, u, Willing, 0);
  }

  lemma SelectPlays(me: Me, s: Spot, t: Spot) returns (u: Spot)
    requires Leads(me, s, t) && t.pc == Drive(Select(t.sh.row.steps))
    requires t.sh.row.status.TxRunning? && AllOnward(t.sh.row.steps)
    ensures Leads(me, s, u) && u.sh.row.lock == t.sh.row.lock
    ensures || (u.pc == Drive(Releasing) && u.sh.row.status.TxSucceeded?)
            || (u.pc == Drive(LoadTx) && u.sh.row.status.TxCompensating?)
  {
    var steps := t.sh.row.steps;
    u := Move(me, s, t, Calm);
    if TimedOut(t.sh.row.timeoutAt, me.now) || AnyFailed(steps) {
      u := L.TriggerPlays(me, s, u);
    } else if AllSucceeded(steps) {
      u := Move(me, s, u, Calm);
    } else {
      var i :| 0 <= i < |steps| && steps[i].status != Succeeded;
      assert Open(steps[i].status);
      PickFinds(steps, |steps|, i);
      u := GiveUpPlays(me, s, u);
    }
  }

  lemma RunningEnds(me: Me, s: Spot, t: Spot) returns (u: Spot)
    requires Leads(me, s, t) && t.pc == Drive(LoadTx) && t.sh.row.status.TxRunning? && Held(t.sh.row, me)
    requires AllOnward(t.sh.row.steps)
    ensures Leads(me, s, u) && u.pc == Drive(Releasing) && Terminal(u.sh.row.status)
  {
    u := L.LoadPlays(me, s, t);
    u := SelectPlays(me, s, u);
    if u.pc == Drive(LoadTx) {
      u := CompensatingEnds(me, s, u);
    }
  }

  lemma LiveEnds(me: Me, sh: Shared) returns (u: Spot)
    requires Live(sh.row.status) && Held(sh.row, me)
    requires sh.row.status.TxCompensating? || AllOnward(sh.row.steps)
    ensures Leads(me, Entered(sh), u) && u.pc == Drive(Releasing) && Terminal(u.sh.row.status)
  {
    var s := Entered(sh);
    u := Move(me, s, s, Calm);
    match sh.row.status
    case TxCompensating => u := CompensatingEnds(me, s, u);
    case TxRunning => u := RunningEnds(me, s, u);
    case TxPending =>
      u := L.LoadPlays(me, s, u);
      u := Move(me, s, u, Calm);
      u := RunningEnds(me, s, u);
  }

  // Time to wait until nobody's lease is left.
  function Expiry(w: World): nat {
    if w.sh.row.lock.Some? && w.sh.row.lock.value.until >= w.now then w.sh.row.lock.value.until - w.now + 1 else 0
  }

  function Rested(w: World): World {
    w.(procs := map[], now := w.now + Expiry(w))
  }

  lemma CrashAndWait(w: World)
    ensures Runs(w, Rested(w), {CrashStop})
  {
    var crashed := Apply(w, Crash(w.procs.Keys));
    RunsByOne(w, Crash(w.procs.Keys), {CrashStop});
    RunsByOne(crashed, Tick(Expiry(w)), {CrashStop});
    assert crashed == w.(procs := map[]);
    RunsOn(w, crashed, Rested(w), {CrashStop});
  }

  // From every point of every run there is a way on that ends the transaction and
  // leaves no process behind.
  lemma EndsFrom(w: World) returns (r: World)
    requires Sound(w.sh)
    ensures Runs(w, r, {CrashStop}) && Terminal(r.sh.row.status) && r.procs == map[]
  {
    CrashAndWait(w);
    r := Rested(w);
    if Live(w.sh.row.status) {
      var me := Me(0, "", LeaseOf(r, ""), r.now, {CrashStop}, false);
      var found := r.(sh := Recovered(r, me.inst));
      RecoveryRuns(r, me);
      RunsOn(w, r, found, {CrashStop});
      var u := LiveEnds(me, found.sh);
      DriveRuns(found, me, u);
      r := found.(sh := DoRelease(u.sh, Fine, me.inst));
      RunsOn(w, found, r, {CrashStop});
    }
  }

  lemma NeverStuck(w: World, acts: seq<Action>)
    requires Init(w)
    ensures exists more: seq<Action> ::
      Terminal(RunFrom(w, acts + more).sh.row.status) && RunFrom(w, acts + more).procs == map[]
  {
    RunKeeps(w, acts);
    var w1 := RunFrom(w, acts);
    var r := EndsFrom(w1);
    var more: seq<Action> :| RunsBy(w1, more, r, {CrashStop});
    RunAppend(w, acts, more);
  }
}
