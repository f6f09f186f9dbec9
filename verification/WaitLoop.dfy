// waitForTransaction (saga/engine.go:410-492) over an arbitrary stream of answers to
// its queries. The caller's context ends during some wait; since that wait is
// arbitrary, every call that returns at all is covered.
module WaitLoop {
  import opened Wrappers
  import opened SagaTypes
  import P = Protocol
  import S = ProtocolSafety

  datatype Answer = Good(st: TxStatus) | NotFound | QueryError | NilStatus

  datatype Verdict = VSucceeded | VFailed | VDisappeared | VGaveUp | VNilStatus | VContextEnded

  type Answers = nat -> Answer

  // retryLimit, base and max are submitAndWaitQueryRetryLimit, ...Backoff and
  // ...BackoffMax; interval is submitAndWaitPollInterval.
  datatype Timing = Timing(retryLimit: int, base: nat, max: nat, interval: nat)

  // Consecutive failed queries ending with the j-th answer.
  function Failures(answers: Answers, j: nat): nat {
    if !answers(j).QueryError? then 0
    else if j == 0 then 1 else 1 + Failures(answers, j - 1)
  }

  // The status of the latest good answer among the first n.
  function LatestGood(answers: Answers, n: nat): Option<TxStatus> {
    if n == 0 then None
    else if answers(n - 1).Good? then Some(answers(n - 1).st)
    else LatestGood(answers, n - 1)
  }

  // Why the call returns in round j, if it does; the context ends in wait `patience`.
  function StopsAt(answers: Answers, t: Timing, patience: nat, j: nat): Option<Verdict> {
    match answers(j)
    case NotFound => Some(VDisappeared)
    case NilStatus => Some(VNilStatus)
    case Good(TxSucceeded) => Some(VSucceeded)
    case Good(TxFailed) => Some(VFailed)
    case Good(_) => if j == patience then Some(VContextEnded) else None
    case QueryError =>
      if Failures(answers, j) >= t.retryLimit then Some(VGaveUp)
      else if j == patience then Some(VContextEnded) else None
  }

  function Doubled(base: nat, times: nat): nat {
    if times == 0 then base else 2 * Doubled(base, times - 1)
  }

  function Min(a: nat, b: nat): nat {
    if a <= b then a else b
  }

  // The pause after the f-th failure in a row; only the first is not capped.
  function Pause(t: Timing, f: nat): nat {
    if f <= 1 then t.base else Min(Doubled(t.base, f - 1), t.max)
  }

  // Pause before round j + 1.
  function Delay(answers: Answers, t: Timing, j: nat): nat {
    if answers(j).QueryError? then Pause(t, Failures(answers, j)) else t.interval
  }

  lemma {:induction false} DoubledGrows(base: nat, m: nat, n: nat)
    requires m <= n
    ensures Doubled(base, m) <= Doubled(base, n)
    decreases n
  {
    if m < n {
      DoubledGrows(base, m, n - 1);
    }
  }

  method NextBackoff(t: Timing, failures: nat) returns (backoff: nat)
    requires failures >= 1
    ensures backoff == Pause(t, failures)
    ensures t.base <= t.max ==> backoff == Min(Doubled(t.base, failures - 1), t.max)
  {
    backoff := t.base;
    var i := 1;
    while i < failures
      invariant 1 <= i <= failures
      invariant backoff == Doubled(t.base, i - 1)
      invariant i > 1 ==> backoff < t.max
    {
      backoff := backoff * 2;
      if backoff >= t.max {
        DoubledGrows(t.base, i, failures - 1);
        return t.max;
      }
      i := i + 1;
    }
  }

  method WaitForTransaction(answers: Answers, t: Timing, patience: nat)
    returns (last: Option<TxStatus>, verdict: Verdict, rounds: nat, delays: seq<nat>)
    ensures rounds <= patience && StopsAt(answers, t, patience, rounds) == Some(verdict)
    ensures forall j: nat :: j < rounds ==> StopsAt(answers, t, patience, j).None?
    ensures last == LatestGood(answers, rounds + 1)
    ensures rounds <= |delays| <= rounds + 1
    ensures forall j :: 0 <= j < |delays| ==> delays[j] == Delay(answers, t, j)
  {
    last := None;
    delays := [];
    rounds := 0;
    var queryFailures: nat := 0;
    while true
      invariant 0 <= rounds <= patience && |delays| == rounds
      invariant last == LatestGood(answers, rounds)
      invariant queryFailures == if rounds == 0 then 0 else Failures(answers, rounds - 1)
      invariant forall j: nat :: j < rounds ==> StopsAt(answers, t, patience, j).None?
      invariant forall j :: 0 <= j < |delays| ==> delays[j] == Delay(answers, t, j)
      decreases patience - rounds
    {
      var answer := answers(rounds);
      match answer {
        case NotFound => return last, VDisappeared, rounds, delays;
        case QueryError =>
          queryFailures := queryFailures + 1;
          if queryFailures >= t.retryLimit {
            return last, VGaveUp, rounds, delays;
          }
          var backoff := NextBackoff(t, queryFailures);
          delays := delays + [backoff];
        case NilStatus => return last, VNilStatus, rounds, delays;
        case Good(st) =>
          queryFailures := 0;
          last := Some(st);
          if st.TxSucceeded? {
            return last, VSucceeded, rounds, delays;
          }
          if st.TxFailed? {
            return last, VFailed, rounds, delays;
          }
          delays := delays + [t.interval];
      }
      if rounds == patience {
        return last, VContextEnded, rounds, delays;
      }
      rounds := rounds + 1;
    }
  }

  // ---------- what a verdict means ----------

  lemma {:induction false} FailuresMeans(answers: Answers, j: nat, f: nat)
    ensures Failures(answers, j) >= f <==>
      f == 0 || (f <= j + 1 && forall i: nat :: j + 1 - f <= i <= j ==> answers(i).QueryError?)
  {
    if f > 0 {
      if answers(j).QueryError? && j > 0 {
        FailuresMeans(answers, j - 1, f - 1);
      }
    }
  }

  // Giving up takes retryLimit failed queries in a row; any good answer starts afresh.
  lemma GiveUpMeans(answers: Answers, t: Timing, patience: nat, j: nat)
    requires t.retryLimit >= 1
    ensures StopsAt(answers, t, patience, j) == Some(VGaveUp) <==>
      t.retryLimit <= j + 1 && forall i: nat :: j + 1 - t.retryLimit <= i <= j ==> answers(i).QueryError?
  {
    FailuresMeans(answers, j, t.retryLimit);
  }

  // The latest good status is that of the last good answer, whatever came before it;
  // without a good answer there is none.
  lemma {:induction false} LatestGoodMeans(answers: Answers, n: nat, j: nat)
    requires j < n && forall i: nat :: j < i < n ==> !answers(i).Good?
    ensures answers(j).Good? ==> LatestGood(answers, n) == Some(answers(j).st)
    ensures (forall i: nat :: i <= j ==> !answers(i).Good?) ==> LatestGood(answers, n) == None
    decreases n
  {
    if j < n - 1 {
      LatestGoodMeans(answers, n - 1, j);
    } else if j > 0 && !answers(j).Good? {
      LatestGoodMeans(answers, n - 1, j - 1);
    }
  }

  predicate EndsInErrors(answers: Answers, limit: int, j: nat) {
    limit <= j + 1 && forall i: nat :: j + 1 - limit <= i <= j ==> answers(i).QueryError?
  }

  // Each verdict by the answer it is given on; going on takes an undecided answer and a
  // context that is still alive.
  lemma VerdictMeans(answers: Answers, t: Timing, patience: nat, j: nat)
    requires t.retryLimit >= 1
    ensures var v := StopsAt(answers, t, patience, j);
      var undecided := answers(j) in {Good(TxPending), Good(TxRunning), Good(TxCompensating)}
        || (answers(j).QueryError? && !EndsInErrors(answers, t.retryLimit, j));
      && (v == Some(VSucceeded) <==> answers(j) == Good(TxSucceeded))
      && (v == Some(VFailed) <==> answers(j) == Good(TxFailed))
      && (v == Some(VDisappeared) <==> answers(j) == NotFound)
      && (v == Some(VNilStatus) <==> answers(j) == NilStatus)
      && (v == Some(VGaveUp) <==> EndsInErrors(answers, t.retryLimit, j))
      && (v == Some(VContextEnded) <==> undecided && j == patience)
      && (v == None <==> undecided && j != patience)
  {
    GiveUpMeans(answers, t, patience, j);
  }

  // Pauses: the plain interval after an answer; after errors the base first, then twice
  // the previous pause, never above the maximum.
  lemma DelayMeans(answers: Answers, t: Timing, j: nat)
    ensures !answers(j).QueryError? ==> Delay(answers, t, j) == t.interval
    ensures answers(j).QueryError? && (j == 0 || !answers(j - 1).QueryError?) ==> Delay(answers, t, j) == t.base
    ensures j > 0 && answers(j).QueryError? && answers(j - 1).QueryError? ==>
      var twice := 2 * Delay(answers, t, j - 1);
      Delay(answers, t, j) == if twice < t.max then twice else t.max
  {
    if j > 0 && answers(j).QueryError? {
      var f := Failures(answers, j - 1);
      assert Failures(answers, j) == f + 1;
      assert f > 0 ==> Doubled(t.base, f) == 2 * Doubled(t.base, f - 1);
    }
  }

  // A success verdict taken from a real run stays true: whatever happens afterwards,
  // the transaction remains succeeded, every step was accepted (and matched by a poll
  // if asynchronous), and no compensation is ever sent.
  lemma SuccessIsFinal(
    w: P.World, before: seq<P.Action>, after: seq<P.Action>, answers: Answers, t: Timing, patience: nat, j: nat)
    requires P.Init(w)
    requires StopsAt(answers, t, patience, j) == Some(VSucceeded)
    requires answers(j) == Good(P.RunFrom(w, before).sh.row.status)
    ensures var sh := P.RunFrom(w, before + after).sh;
      && sh.row.status == TxSucceeded
      && (forall i :: P.CompensateSent(i) !in sh.log)
      && (forall i :: 0 <= i < |sh.row.steps| ==>
            P.ForwardAccepted(i) in sh.log && (sh.row.steps[i].kind == Async ==> P.PollMatched(i) in sh.log))
  {
    S.StatusPath(w, before, after);
    S.SucceededMeansDone(w, before + after);
  }

  // A failure verdict is final as well.
  lemma FailureIsFinal(
    w: P.World, before: seq<P.Action>, after: seq<P.Action>, answers: Answers, t: Timing, patience: nat, j: nat)
    requires P.Init(w)
    requires StopsAt(answers, t, patience, j) == Some(VFailed)
    requires answers(j) == Good(P.RunFrom(w, before).sh.row.status)
    ensures P.RunFrom(w, before + after).sh.row.status == TxFailed
  {
    S.StatusPath(w, before, after);
  }
}
