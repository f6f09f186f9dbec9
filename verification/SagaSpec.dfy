// The simple all-or-nothing meaning of a saga: run the steps in order, give each a
// bounded number of attempts, wait for the polls of an asynchronous one, and on the
// first step that does not get done undo the finished steps from last to first. It knows
// nothing of rows being written and reread between attempts; class Coordinator is proved
// to refine it.
module SagaSpec {
  import opened SagaTypes
  import opened Selection
  import opened PollBudget

  // ---------- the outside world ----------

  // NoRequest: the HTTP request cannot be created; SigningError: it cannot be signed.
  datatype Answer = Accept | HttpError | NoRequest | SigningError

  // What the n-th question to the outside gets: does rendering work, how is a request
  // answered, what do the poll workers get to see meanwhile, when is a poll due.
  datatype World = World(
    canRender: nat -> bool, reply: nat -> Answer, polls: nat -> seq<Reply>, pollAt: nat -> int)

  datatype Request = ForwardRequest(i: nat) | UndoRequest(i: nat)

  // A request that reached the wire, and whether it was accepted.
  datatype Exchange = Exchange(request: Request, accepted: bool)

  // What an observer outside sees of an execution: the exchanges in order (without
  // polls), and the seconds spent in pauses between attempts.
  datatype Trail = Trail(wire: seq<Exchange>, slept: nat)

  const Silence := Trail([], 0)

  function Then(a: Trail, b: Trail): Trail {
    Trail(a.wire + b.wire, a.slept + b.slept)
  }

  lemma ThenAssociates(a: Trail, b: Trail, c: Trail)
    ensures Then(Then(a, b), c) == Then(a, Then(b, c))
  {
    assert (a.wire + b.wire) + c.wire == a.wire + (b.wire + c.wire);
  }

  lemma ThenSilence(a: Trail)
    ensures Then(a, Silence) == a == Then(Silence, a)
  {
  }

  predicate OnTheWire(r: Answer) {
    r.Accept? || r.HttpError?
  }

  function Asked(request: Request, r: Answer): Trail {
    Trail(if OnTheWire(r) then [Exchange(request, r.Accept?)] else [], 0)
  }

  function Paused(seconds: nat): Trail {
    Trail([], seconds)
  }

  // ---------- forward ----------

  datatype Verdict = Good | Soft | Fatal

  // One attempt: the verdict and the number of the next question.
  function Try(w: World, n: nat): (Verdict, nat) {
    if !w.canRender(n) then (Fatal, n + 1)
    else match w.reply(n + 1)
      case Accept => (Good, n + 2)
      case HttpError => (Soft, n + 2)
      case _ => (Fatal, n + 2)
  }

  function TryTrail(w: World, n: nat, i: nat): Trail {
    if w.canRender(n) then Asked(ForwardRequest(i), w.reply(n + 1)) else Silence
  }

  // handleHTTPError counts first and compares afterwards, so there is always one attempt.
  function AttemptsLeft(step: StepRow): nat {
    if step.maxRetry - step.retryCount > 1 then step.maxRetry - step.retryCount else 1
  }

  // Attempts until one is accepted, with a pause of a second before each repetition.
  function Attempts(w: World, n: nat, left: nat): (bool, nat)
    decreases left
  {
    var (v, n') := Try(w, n);
    if v.Good? then (true, n')
    else if v.Fatal? || left <= 1 then (false, n')
    else Attempts(w, n', left - 1)
  }

  function AttemptsTrail(w: World, n: nat, left: nat, i: nat): Trail
    decreases left
  {
    var (v, n') := Try(w, n);
    if v.Soft? && left > 1
    then Then(Then(TryTrail(w, n, i), Paused(1)), AttemptsTrail(w, n', left - 1, i))
    else TryTrail(w, n, i)
  }

  // How a step ends. Broken: refused for good, or its polls failed. Unresolved: accepted,
  // but the wait for its polls ran out. Stranded: found running after a restart, which
  // only a sync step recovers from.
  datatype StepEnd = Done | Broken | Unresolved | Stranded

  // What the replies to the polls of an accepted step come to.
  function PollEnd(count: int, max: int, replies: seq<Reply>): StepEnd
    decreases |replies|
  {
    if replies == [] then Unresolved
    else match replies[0]
      case SuccessValue => Done
      case FailureValue => Broken
      case Unsigned => Broken
      case NoResponse => PollEnd(count, max, replies[1..])
      case Neither => if count >= max then Broken else PollEnd(count + 1, max, replies[1..])
  }

  // Polls answered before the coordinator rereads the step, and while it waits.
  function Polls(w: World, n: nat): seq<Reply> {
    w.polls(n) + w.polls(n + 1)
  }

  // From the state the step is found in.
  function StepRun(w: World, n: nat, step: StepRow): (StepEnd, nat) {
    if step.status == Failed then (Broken, n)
    else if step.status == Polling then (PollEnd(step.pollCount, step.pollMaxTimes, Polls(w, n)), n + 2)
    else if step.status == Running && step.kind != Sync then (Stranded, n + 2)
    else
      var (ok, n') := Attempts(w, n, AttemptsLeft(step));
      if !ok then (Broken, n')
      else if step.kind != Async then (Done, n')
      else (PollEnd(step.pollCount, step.pollMaxTimes, Polls(w, n')), n' + 2)
  }

  // Whether the step is (still) to be sent.
  predicate Sends(step: StepRow) {
    step.status != Failed && step.status != Polling && (step.status == Running ==> step.kind == Sync)
  }

  function StepTrail(w: World, n: nat, step: StepRow, i: nat): Trail {
    if Sends(step) then AttemptsTrail(w, n, AttemptsLeft(step), i) else Silence
  }

  datatype Forward = Complete | StopsAt(k: nat, end: StepEnd)

  // Steps k, k+1, ...: the first step that does not get done, if any.
  function ForwardRun(w: World, n: nat, steps: seq<StepRow>, k: nat): (r: (Forward, nat))
    requires k <= |steps|
    ensures r.0.StopsAt? ==> k <= r.0.k < |steps| && !r.0.end.Done?
    decreases |steps| - k
  {
    if k == |steps| then (Complete, n)
    else
      var (end, n') := StepRun(w, n, steps[k]);
      if end.Done? then ForwardRun(w, n', steps, k + 1) else (StopsAt(k, end), n')
  }

  function ForwardTrail(w: World, n: nat, steps: seq<StepRow>, k: nat): Trail
    requires k <= |steps|
    decreases |steps| - k
  {
    if k == |steps| then Silence
    else
      var (end, n') := StepRun(w, n, steps[k]);
      if end.Done? then Then(StepTrail(w, n, steps[k], k), ForwardTrail(w, n', steps, k + 1))
      else StepTrail(w, n, steps[k], k)
  }

  // ---------- backward ----------

  function UndoAttempts(step: StepRow): nat {
    if UndoRetries(step) < 0 then 0 else UndoRetries(step) + 1
  }

  function UndoRun(w: World, n: nat, left: nat): (r: (bool, nat))
    decreases left
    ensures n <= r.1 <= n + left
  {
    if left == 0 then (false, n)
    else match w.reply(n)
      case Accept => (true, n + 1)
      case SigningError => (false, n + 1)
      case _ => UndoRun(w, n + 1, left - 1)
  }

  // One attempt, preceded by a pause of 1, 2, 4, ... seconds unless it is the first;
  // made: the attempts before it.
  function UndoTry(w: World, n: nat, made: nat, i: nat): Trail {
    Asked(UndoRequest(i), w.reply(n)).(slept := if made == 0 then 0 else Pow2(made - 1))
  }

  function UndoRunTrail(w: World, n: nat, left: nat, made: nat, i: nat): Trail
    decreases left
  {
    if left == 0 then Silence
    else
      var first := UndoTry(w, n, made, i);
      if w.reply(n).Accept? || w.reply(n).SigningError? then first
      else Then(first, UndoRunTrail(w, n + 1, left - 1, made + 1, i))
  }

  function UndoStep(w: World, n: nat, step: StepRow): (bool, nat) {
    if w.canRender(n) then UndoRun(w, n + 1, UndoAttempts(step)) else (false, n + 1)
  }

  function UndoTrail(w: World, n: nat, step: StepRow, i: nat): Trail {
    if w.canRender(n) then UndoRunTrail(w, n + 1, UndoAttempts(step), 0, i) else Silence
  }

  function UndoAll(w: World, n: nat, steps: seq<StepRow>, todo: seq<nat>): (r: (seq<bool>, nat))
    requires forall k :: 0 <= k < |todo| ==> todo[k] < |steps|
    ensures |r.0| == |todo|
    decreases |todo|
  {
    if todo == [] then ([], n)
    else
      var (ok, n') := UndoStep(w, n, steps[todo[0]]);
      var (oks, n'') := UndoAll(w, n', steps, todo[1..]);
      ([ok] + oks, n'')
  }

  function UndoAllTrail(w: World, n: nat, steps: seq<StepRow>, todo: seq<nat>): Trail
    requires forall k :: 0 <= k < |todo| ==> todo[k] < |steps|
    decreases |todo|
  {
    if todo == [] then Silence
    else Then(UndoTrail(w, n, steps[todo[0]], todo[0]),
              UndoAllTrail(w, UndoStep(w, n, steps[todo[0]]).1, steps, todo[1..]))
  }

  predicate AllTrue(oks: seq<bool>) {
    forall k :: 0 <= k < |oks| ==> oks[k]
  }

  function Pow2(n: nat): (p: nat)
    ensures p >= 1
  {
    if n == 0 then 1 else 2 * Pow2(n - 1)
  }

  // Seconds slept by a retry loop that has made the given number of attempts.
  function Backoff(attempts: nat): nat {
    if attempts == 0 then 0 else Pow2(attempts - 1) - 1
  }

  // ---------- the result of a whole saga ----------

  datatype Verdicts = Verdicts(tx: TxStatus, steps: seq<StepStatus>)

  // k-1, ..., 0.
  function Downwards(k: nat): (todo: seq<nat>)
    ensures |todo| == k && forall j :: 0 <= j < k ==> todo[j] == k - 1 - j
  {
    if k == 0 then [] else [k - 1] + Downwards(k - 1)
  }

  // How many steps are undone: an accepted step whose polls are open as well.
  function UndoCount(f: Forward): nat
    requires f.StopsAt?
  {
    if f.end.Unresolved? then f.k + 1 else f.k
  }

  // What the results of the undos make of the steps.
  function UndoneStatuses(f: Forward, oks: seq<bool>, size: nat): seq<StepStatus>
    requires f.StopsAt? && f.k < size && |oks| == UndoCount(f)
  {
    seq(size, j requires 0 <= j < size =>
      if j < |oks| then (if oks[|oks| - 1 - j] then Compensated else Failed)
      else if j == f.k then (if f.end.Stranded? then Running else Failed)
      else Skipped)
  }

  // Steps before k have succeeded already.
  function SagaVerdicts(w: World, n: nat, steps: seq<StepRow>, k: nat): Verdicts
    requires k <= |steps|
  {
    var (f, n') := ForwardRun(w, n, steps, k);
    if f.Complete? then Verdicts(TxSucceeded, seq(|steps|, _ => Succeeded))
    else Verdicts(TxFailed, UndoneStatuses(f, UndoAll(w, n', steps, Downwards(UndoCount(f))).0, |steps|))
  }

  function SagaTrail(w: World, n: nat, steps: seq<StepRow>, k: nat): Trail
    requires k <= |steps|
  {
    var (f, n') := ForwardRun(w, n, steps, k);
    var forward := ForwardTrail(w, n, steps, k);
    if f.Complete? then forward else Then(forward, UndoAllTrail(w, n', steps, Downwards(UndoCount(f))))
  }

  // ---------- what the meaning promises ----------

  // The question at which step j is reached if the steps from k on get done.
  function Reach(w: World, n: nat, steps: seq<StepRow>, k: nat, j: nat): nat
    requires k <= j <= |steps|
    decreases j
  {
    if j == k then n else StepRun(w, Reach(w, n, steps, k, j - 1), steps[j - 1]).1
  }

  function EndOf(w: World, n: nat, steps: seq<StepRow>, k: nat, j: nat): StepEnd
    requires k <= j < |steps|
  {
    StepRun(w, Reach(w, n, steps, k, j), steps[j]).0
  }

  lemma {:induction false} ReachShift(w: World, n: nat, steps: seq<StepRow>, k: nat, j: nat)
    requires k < j <= |steps|
    ensures Reach(w, n, steps, k, j) == Reach(w, StepRun(w, n, steps[k]).1, steps, k + 1, j)
    decreases j
  {
    if j > k + 1 {
      ReachShift(w, n, steps, k, j - 1);
    }
  }

  // The run stops at the first step that does not get done, and is complete exactly
  // when every step gets done.
  lemma {:induction false} ForwardRunMeans(w: World, n: nat, steps: seq<StepRow>, k: nat)
    requires k <= |steps|
    ensures var (f, n') := ForwardRun(w, n, steps, k);
      && (f.Complete? ==> n' == Reach(w, n, steps, k, |steps|)
                          && forall j :: k <= j < |steps| ==> EndOf(w, n, steps, k, j).Done?)
      && (f.StopsAt? ==> n' == Reach(w, n, steps, k, f.k + 1) && f.end == EndOf(w, n, steps, k, f.k) && !f.end.Done?
                         && forall j :: k <= j < f.k ==> EndOf(w, n, steps, k, j).Done?)
    decreases |steps| - k
  {
    if k < |steps| {
      var (end, n') := StepRun(w, n, steps[k]);
      assert EndOf(w, n, steps, k, k) == end && Reach(w, n, steps, k, k + 1) == n';
      if end.Done? {
        ForwardRunMeans(w, n', steps, k + 1);
        forall j | k < j <= |steps| ensures Reach(w, n, steps, k, j) == Reach(w, n', steps, k + 1, j) {
          ReachShift(w, n, steps, k, j);
        }
        forall j | k < j < |steps| ensures EndOf(w, n, steps, k, j) == EndOf(w, n', steps, k + 1, j) {
        }
      }
    }
  }

  // All or nothing: every step gets done and the saga succeeded; or f is the first step
  // that does not, everything below it was undone or its undo failed, it itself is
  // failed (undone as well if it was accepted, running if it was stranded), and
  // everything above was skipped. The undone steps are all compensated exactly when
  // every undo was accepted.
  lemma AllOrNothing(w: World, n: nat, steps: seq<StepRow>, k: nat)
    requires k <= |steps|
    ensures var v := SagaVerdicts(w, n, steps, k);
      && |v.steps| == |steps|
      && (v.tx == TxSucceeded <==> forall j :: k <= j < |steps| ==> EndOf(w, n, steps, k, j).Done?)
      && (v.tx == TxSucceeded ==> forall j :: 0 <= j < |steps| ==> v.steps[j] == Succeeded)
      && (v.tx != TxSucceeded ==> v.tx == TxFailed && exists f: nat :: SplitAt(w, n, steps, k, f, v.steps))
  {
    ForwardRunMeans(w, n, steps, k);
    var f := ForwardRun(w, n, steps, k).0;
    if f.StopsAt? {
      Splits(w, n, steps, k);
      assert !EndOf(w, n, steps, k, f.k).Done?;
    }
  }

  lemma StopsAtFirst(w: World, n: nat, steps: seq<StepRow>, k: nat)
    requires k <= |steps| && ForwardRun(w, n, steps, k).0.StopsAt?
    ensures var (f, n') := ForwardRun(w, n, steps, k);
      && StopsFirst(w, n, steps, k, f.k)
      && n' == Reach(w, n, steps, k, f.k + 1) && f.end == EndOf(w, n, steps, k, f.k)
  {
    ForwardRunMeans(w, n, steps, k);
  }

  lemma FailedVerdicts(w: World, n: nat, steps: seq<StepRow>, k: nat)
    requires k <= |steps| && ForwardRun(w, n, steps, k).0.StopsAt?
    ensures var (f, n') := ForwardRun(w, n, steps, k);
      FailedSplit(w, n', steps, SagaVerdicts(w, n, steps, k).steps, f.k, f.end)
  {
    var (f, n') := ForwardRun(w, n, steps, k);
    SplitHolds(w, n', steps, f);
  }

  lemma Splits(w: World, n: nat, steps: seq<StepRow>, k: nat)
    requires k <= |steps| && ForwardRun(w, n, steps, k).0.StopsAt?
    ensures SplitAt(w, n, steps, k, ForwardRun(w, n, steps, k).0.k, SagaVerdicts(w, n, steps, k).steps)
  {
    StopsAtFirst(w, n, steps, k);
    FailedVerdicts(w, n, steps, k);
  }

  // f is the first step from k on that does not get done.
  predicate StopsFirst(w: World, n: nat, steps: seq<StepRow>, k: nat, f: nat)
    requires k <= |steps|
  {
    && k <= f < |steps| && !EndOf(w, n, steps, k, f).Done?
    && forall j :: k <= j < f ==> EndOf(w, n, steps, k, j).Done?
  }

  ghost predicate SplitAt(w: World, n: nat, steps: seq<StepRow>, k: nat, f: nat, final: seq<StepStatus>)
    requires k <= |steps|
  {
    && StopsFirst(w, n, steps, k, f)
    && FailedSplit(w, Reach(w, n, steps, k, f + 1), steps, final, f, EndOf(w, n, steps, k, f))
  }

  ghost predicate FailedSplit(w: World, n: nat, steps: seq<StepRow>, final: seq<StepStatus>, f: nat, end: StepEnd)
    requires f < |steps|
  {
    var count := if end.Unresolved? then f + 1 else f;
    && |final| == |steps|
    && (forall j :: 0 <= j < count ==> final[j] == Compensated || final[j] == Failed)
    && (AllTrue(UndoAll(w, n, steps, Downwards(count)).0) <==> forall j :: 0 <= j < count ==> final[j] == Compensated)
    && (end.Broken? ==> final[f] == Failed)
    && (end.Stranded? ==> final[f] == Running)
    && (forall j :: f < j < |steps| ==> final[j] == Skipped)
  }

  lemma SplitHolds(w: World, n: nat, steps: seq<StepRow>, f: Forward)
    requires f.StopsAt? && f.k < |steps| && !f.end.Done?
    ensures var oks := UndoAll(w, n, steps, Downwards(UndoCount(f))).0;
      FailedSplit(w, n, steps, UndoneStatuses(f, oks, |steps|), f.k, f.end)
  {
    var oks := UndoAll(w, n, steps, Downwards(UndoCount(f))).0;
    var final := UndoneStatuses(f, oks, |steps|);
    StatusesMirror(f, oks, |steps|);
  }

  // The undo results stand in the statuses from last to first.
  lemma StatusesMirror(f: Forward, oks: seq<bool>, size: nat)
    requires f.StopsAt? && f.k < size && |oks| == UndoCount(f)
    ensures var final := UndoneStatuses(f, oks, size);
      AllTrue(oks) <==> forall j :: 0 <= j < |oks| ==> final[j] == Compensated
  {
    var final := UndoneStatuses(f, oks, size);
    forall j | 0 <= j < |oks| ensures oks[j] <==> final[|oks| - 1 - j] == Compensated {
      assert |oks| - 1 - (|oks| - 1 - j) == j;
    }
    if forall j :: 0 <= j < |oks| ==> final[j] == Compensated {
      forall j | 0 <= j < |oks| ensures oks[j] {
        assert final[|oks| - 1 - j] == Compensated;
      }
    }
  }

  // The verdict of the a-th attempt, provided the earlier ones failed softly.
  function At(w: World, n: nat, a: nat): Verdict {
    Try(w, n + 2 * a).0
  }

  predicate FirstGood(w: World, n: nat, a: nat) {
    At(w, n, a).Good? && forall b: nat :: b < a ==> At(w, n, b).Soft?
  }

  // A step is accepted exactly when some attempt within its budget is good and all
  // attempts before that one fail softly.
  lemma {:induction false} AttemptsMean(w: World, n: nat, left: nat)
    ensures Attempts(w, n, left).0 <==> exists a: nat :: (a == 0 || a < left) && FirstGood(w, n, a)
    decreases left
  {
    assert At(w, n, 0) == Try(w, n).0;
    if At(w, n, 0).Good? {
      assert FirstGood(w, n, 0);
    } else if At(w, n, 0).Soft? && left > 1 {
      AttemptsMean(w, n + 2, left - 1);
      if Attempts(w, n + 2, left - 1).0 {
        var a: nat :| (a == 0 || a < left - 1) && FirstGood(w, n + 2, a);
        Shift(w, n, a);
      }
      if a: nat :| (a == 0 || a < left) && FirstGood(w, n, a) {
        Shift(w, n, a - 1);
      }
    }
  }

  lemma Shift(w: World, n: nat, a: nat)
    requires At(w, n, 0).Soft?
    ensures FirstGood(w, n + 2, a) <==> FirstGood(w, n, a + 1)
  {
    assert At(w, n + 2, a) == At(w, n, a + 1) by { assert n + 2 + 2 * a == n + 2 * (a + 1); }
    if FirstGood(w, n + 2, a) {
      forall b: nat | b < a + 1 ensures At(w, n, b).Soft? {
        if b > 0 {
          assert At(w, n + 2, b - 1).Soft?;
          assert n + 2 + 2 * (b - 1) == n + 2 * b;
        }
      }
    }
    if FirstGood(w, n, a + 1) {
      var next := n + 2;
      forall b: nat | b < a ensures At(w, next, b).Soft? {
        assert At(w, n, b + 1).Soft?;
        assert n + 2 + 2 * b == n + 2 * (b + 1);
      }
    }
  }

  // The a-th attempt from question n on is sent and accepted, or sent and refused.
  predicate Granted(w: World, n: nat, a: nat) {
    w.canRender(n + 2 * a) && w.reply(n + 2 * a + 1).Accept?
  }

  predicate Refused(w: World, n: nat, a: nat) {
    w.canRender(n + 2 * a) && w.reply(n + 2 * a + 1).HttpError?
  }

  // A step is accepted if and only if some attempt is granted, all before it are refused,
  // and either it is the first or it keeps RetryCount below MaxRetry.
  lemma SendMeans(w: World, n: nat, step: StepRow)
    ensures Attempts(w, n, AttemptsLeft(step)).0 <==>
      exists a: nat :: (a == 0 || step.retryCount + a < step.maxRetry) && Granted(w, n, a) &&
        forall b: nat :: b < a ==> Refused(w, n, b)
  {
    var left := AttemptsLeft(step);
    AttemptsMean(w, n, left);
    forall a: nat ensures At(w, n, a).Good? <==> Granted(w, n, a) {
    }
    forall a: nat ensures At(w, n, a).Soft? <==> Refused(w, n, a) {
    }
    if Attempts(w, n, left).0 {
      var a: nat :| (a == 0 || a < left) && FirstGood(w, n, a);
      assert Granted(w, n, a) && forall b: nat :: b < a ==> Refused(w, n, b);
    }
    if a: nat :| (a == 0 || step.retryCount + a < step.maxRetry) && Granted(w, n, a) &&
                 forall b: nat :: b < a ==> Refused(w, n, b) {
      assert FirstGood(w, n, a);
    }
  }

  // How a step ends, from the state it is found in: only a sync step survives being
  // found running, a step being polled is not sent again, and an async step that is
  // accepted still has to be matched by a poll.
  lemma StepEndMeans(w: World, n: nat, step: StepRow)
    ensures var (end, n') := StepRun(w, n, step);
      var accepted := Attempts(w, n, AttemptsLeft(step)).0;
      && (end == Stranded <==> step.status == Running && step.kind != Sync)
      && (step.status == Failed ==> end == Broken)
      && (step.status == Polling ==> end == PollEnd(step.pollCount, step.pollMaxTimes, w.polls(n) + w.polls(n + 1)))
      && (step.status == Pending || (step.status == Running && step.kind == Sync) ==>
            && (!accepted ==> end == Broken)
            && (accepted && step.kind != Async ==> end == Done)
            && (accepted && step.kind == Async ==>
                  end == PollEnd(step.pollCount, step.pollMaxTimes, w.polls(n' - 2) + w.polls(n' - 1))))
  {
    PollEndStrands(step.pollCount, step.pollMaxTimes, Polls(w, n));
    PollEndStrands(step.pollCount, step.pollMaxTimes, Polls(w, Attempts(w, n, AttemptsLeft(step)).1));
  }

  lemma {:induction false} PollEndStrands(count: int, max: int, replies: seq<Reply>)
    ensures PollEnd(count, max, replies) != Stranded
    decreases |replies|
  {
    if replies != [] {
      PollEndStrands(count, max, replies[1..]);
      PollEndStrands(count + 1, max, replies[1..]);
    }
  }

  // Polls end a step as done if and only if some reply brings the success value, and
  // before it there are only lost replies and unclear ones within the budget.
  lemma {:induction false} PollEndMeans(count: int, max: int, replies: seq<Reply>)
    ensures PollEnd(count, max, replies) == Done <==>
      exists k: nat :: k < |replies| && MatchedAt(count, max, replies, k)
    decreases |replies|
  {
    if replies != [] {
      var rest := replies[1..];
      match replies[0]
      case SuccessValue => assert MatchedAt(count, max, replies, 0);
      case FailureValue =>
      case Unsigned =>
      case NoResponse => PollShift(count, max, replies);
      case Neither => PollShift(count, max, replies);
    }
  }

  // Unclear replies among the first k.
  function UnclearIn(replies: seq<Reply>, k: nat): nat
    requires k <= |replies|
  {
    if k == 0 then 0 else UnclearIn(replies[1..], k - 1) + if replies[0].Neither? then 1 else 0
  }

  predicate MatchedAt(count: int, max: int, replies: seq<Reply>, k: nat)
    requires k < |replies|
  {
    && replies[k] == SuccessValue
    && (forall j :: 0 <= j < k ==> replies[j] == NoResponse || replies[j] == Neither)
    && (UnclearIn(replies, k) == 0 || count + UnclearIn(replies, k) <= max)
  }

  lemma PollShift(count: int, max: int, replies: seq<Reply>)
    requires replies != [] && (replies[0].NoResponse? || replies[0].Neither?)
    ensures PollEnd(count, max, replies) == Done <==>
      exists k: nat :: k < |replies| && MatchedAt(count, max, replies, k)
    decreases |replies|, 0
  {
    var rest := replies[1..];
    var count' := if replies[0].Neither? then count + 1 else count;
    if replies[0].NoResponse? || count < max {
      PollEndMeans(count', max, rest);
      if k: nat :| k < |rest| && MatchedAt(count', max, rest, k) {
        MatchedShift(count, max, replies, k);
        assert MatchedAt(count, max, replies, k + 1);
      }
      if k: nat :| k < |replies| && MatchedAt(count, max, replies, k) {
        MatchedShift(count, max, replies, k - 1);
        assert MatchedAt(count', max, rest, k - 1);
      }
    } else if k: nat :| k < |replies| && MatchedAt(count, max, replies, k) {
      assert k > 0 && UnclearIn(replies, k) >= 1;
    }
  }

  lemma MatchedShift(count: int, max: int, replies: seq<Reply>, k: nat)
    requires k + 1 < |replies| && (replies[0].NoResponse? || (replies[0].Neither? && count < max))
    ensures var count' := if replies[0].Neither? then count + 1 else count;
      MatchedAt(count, max, replies, k + 1) <==> MatchedAt(count', max, replies[1..], k)
  {
    var rest := replies[1..];
    assert forall j :: 0 <= j < |rest| ==> rest[j] == replies[j + 1];
    if forall j :: 0 <= j < k ==> rest[j] == NoResponse || rest[j] == Neither {
      forall j | 0 <= j < k + 1 ensures replies[j] == NoResponse || replies[j] == Neither {
        assert j > 0 ==> replies[j] == rest[j - 1];
      }
    }
  }

  // The retry loop stops at the first answer that settles the matter: it succeeds
  // exactly when that answer accepts, and fails when a signing error comes first or
  // the attempts run out.
  lemma {:induction false} UndoRunMeans(w: World, n: nat, left: nat)
    ensures var (ok, n') := UndoRun(w, n, left);
      && (forall k :: n <= k < n' - 1 ==> w.reply(k).HttpError? || w.reply(k).NoRequest?)
      && (ok <==> n < n' && w.reply(n' - 1).Accept?)
      && (!ok && n' < n + left ==> n < n' && w.reply(n' - 1).SigningError?)
    decreases left
  {
    if left > 0 && !w.reply(n).Accept? && !w.reply(n).SigningError? {
      UndoRunMeans(w, n + 1, left - 1);
    }
  }

  // Undoing one step, with MaxRetry written out: it succeeds if and only if the request
  // can be rendered and one of MaxRetry + 1 answers (4 when MaxRetry is zero) accepts
  // after nothing but failed requests.
  lemma UndoStepMeans(w: World, n: nat, step: StepRow)
    ensures var m := if step.maxRetry == 0 then 3 else step.maxRetry;
      UndoStep(w, n, step).0 <==>
        w.canRender(n) && (exists k: nat :: n + 1 <= k <= n + 1 + m && w.reply(k).Accept? &&
                             forall j :: n + 1 <= j < k ==> w.reply(j).HttpError? || w.reply(j).NoRequest?)
  {
    UndoRunFinds(w, n + 1, UndoAttempts(step));
  }

  // One of the next answers accepts after nothing but failed requests.
  predicate AcceptedWithin(w: World, n: nat, answers: int) {
    exists k: nat :: n <= k < n + answers && w.reply(k).Accept? &&
      forall j :: n <= j < k ==> w.reply(j).HttpError? || w.reply(j).NoRequest?
  }

  lemma {:induction false} UndoRunFinds(w: World, n: nat, left: nat)
    ensures UndoRun(w, n, left).0 <==> AcceptedWithin(w, n, left)
    decreases left
  {
    if left > 0 && !w.reply(n).Accept? && !w.reply(n).SigningError? {
      UndoRunFinds(w, n + 1, left - 1);
    }
  }

  // If every answer is an error, exactly MaxRetry + 1 requests are sent, with pauses of
  // 1, 2, 4, ... seconds in between.
  lemma UndoGivesUp(w: World, n: nat, step: StepRow, i: nat)
    requires w.canRender(n) && forall k :: w.reply(k).HttpError?
    ensures var m := if step.maxRetry == 0 then 3 else step.maxRetry;
      var trail := UndoTrail(w, n, step, i);
      m >= 0 ==> |trail.wire| == m + 1 && trail.slept == TwoTo(m) - 1
  {
    RefusedTrail(w, n + 1, UndoAttempts(step), 0, i);
  }

  // If every attempt at a step is refused, it is sent once and then again, a second
  // later each time, while RetryCount stays below MaxRetry.
  lemma SendGivesUp(w: World, n: nat, step: StepRow, i: nat)
    requires forall k :: w.canRender(k) && w.reply(k).HttpError?
    ensures var m := step.maxRetry - step.retryCount;
      var trail := AttemptsTrail(w, n, AttemptsLeft(step), i);
      && !Attempts(w, n, AttemptsLeft(step)).0
      && |trail.wire| == (if m > 1 then m else 1) && trail.slept == |trail.wire| - 1
  {
    RefusedAttempts(w, n, AttemptsLeft(step), i);
  }

  lemma {:induction false} RefusedAttempts(w: World, n: nat, left: nat, i: nat)
    requires forall k :: w.canRender(k) && w.reply(k).HttpError?
    ensures var trail := AttemptsTrail(w, n, left, i);
      && !Attempts(w, n, left).0
      && |trail.wire| == (if left > 1 then left else 1) && trail.slept == |trail.wire| - 1
    decreases left
  {
    if left > 1 {
      RefusedAttempts(w, n + 2, left - 1, i);
    }
  }

  // 2 to the n, by repeated doubling.
  function TwoTo(n: nat): nat {
    if n == 0 then 1 else TwoTo(n - 1) + TwoTo(n - 1)
  }

  lemma {:induction false} Pow2IsTwoTo(n: nat)
    ensures Pow2(n) == TwoTo(n)
  {
    if n > 0 {
      Pow2IsTwoTo(n - 1);
    }
  }

  lemma {:induction false} RefusedTrail(w: World, n: nat, left: nat, made: nat, i: nat)
    requires forall k :: w.reply(k).HttpError?
    ensures var trail := UndoRunTrail(w, n, left, made, i);
      && |trail.wire| == left
      && (left > 0 ==> trail.slept == TwoTo(made + left - 1) - (if made == 0 then 1 else TwoTo(made - 1)))
    decreases left
  {
    if left > 0 {
      RefusedTrail(w, n + 1, left - 1, made + 1, i);
      if made > 0 {
        Pow2IsTwoTo(made - 1);
        assert TwoTo(made) == TwoTo(made - 1) + TwoTo(made - 1);
      }
    }
  }

  // ---------- what goes over the wire ----------

  predicate OnlyAbout(wire: seq<Exchange>, request: Request) {
    forall x :: x in wire ==> x.request == request
  }

  // Accepted at most once, by the last exchange.
  predicate AcceptedLast(wire: seq<Exchange>, accepted: bool) {
    && (accepted ==> wire != [])
    && forall j :: 0 <= j < |wire| ==> (wire[j].accepted <==> accepted && j == |wire| - 1)
  }

  // The attempts at a step: at most as many as are left, none after an accepted one,
  // and accepted by the last one exactly when the step is accepted.
  lemma {:induction false} AttemptsOnWire(w: World, n: nat, left: nat, i: nat)
    ensures var wire := AttemptsTrail(w, n, left, i).wire;
      && |wire| <= (if left > 1 then left else 1)
      && OnlyAbout(wire, ForwardRequest(i)) && AcceptedLast(wire, Attempts(w, n, left).0)
    decreases left
  {
    var (v, n') := Try(w, n);
    if v.Soft? && left > 1 {
      AttemptsOnWire(w, n', left - 1, i);
      AcceptedLater(TryTrail(w, n, i).wire, AttemptsTrail(w, n', left - 1, i).wire, Attempts(w, n', left - 1).0);
      assert TryTrail(w, n, i).wire + [] == TryTrail(w, n, i).wire;
    }
  }

  lemma AcceptedLater(refused: seq<Exchange>, wire: seq<Exchange>, accepted: bool)
    requires AcceptedLast(refused, false) && AcceptedLast(wire, accepted)
    ensures AcceptedLast(refused + wire, accepted)
  {
  }

  // Undoing one step puts at most MaxRetry + 1 requests on the wire (4 when MaxRetry
  // is zero), all for that step, and is accepted by the last one if at all ...
  lemma {:induction false} UndoOnWire(w: World, n: nat, left: nat, made: nat, i: nat)
    ensures var wire := UndoRunTrail(w, n, left, made, i).wire;
      |wire| <= left && OnlyAbout(wire, UndoRequest(i)) && AcceptedLast(wire, UndoRun(w, n, left).0)
    decreases left
  {
    if left > 0 && !w.reply(n).Accept? && !w.reply(n).SigningError? {
      UndoOnWire(w, n + 1, left - 1, made + 1, i);
      AcceptedLater(Asked(UndoRequest(i), w.reply(n)).wire,
                    UndoRunTrail(w, n + 1, left - 1, made + 1, i).wire, UndoRun(w, n + 1, left - 1).0);
    }
  }

  // ... and sleeps 2^j - 1 seconds over j + 1 attempts.
  lemma {:induction false} UndoSlept(w: World, n: nat, left: nat, made: nat, i: nat)
    ensures Backoff(made) + UndoRunTrail(w, n, left, made, i).slept == Backoff(made + (UndoRun(w, n, left).1 - n))
    decreases left
  {
    if left > 0 && !w.reply(n).Accept? && !w.reply(n).SigningError? {
      UndoSlept(w, n + 1, left - 1, made + 1, i);
    }
  }

  lemma UndoRequestsBound(w: World, n: nat, step: StepRow, i: nat)
    ensures var wire := UndoTrail(w, n, step, i).wire;
      |wire| <= UndoAttempts(step) && OnlyAbout(wire, UndoRequest(i)) && AcceptedLast(wire, UndoStep(w, n, step).0)
    ensures var m := if step.maxRetry == 0 then 3 else step.maxRetry;
      |UndoTrail(w, n, step, i).wire| <= if m < 0 then 0 else m + 1
  {
    if w.canRender(n) {
      UndoOnWire(w, n + 1, UndoAttempts(step), 0, i);
    }
  }

  // A whole pass asks for the steps in the order of the list: requests for a later
  // entry never precede those for an earlier one, and nothing else is requested.
  lemma {:induction false} PassInOrder(w: World, n: nat, steps: seq<StepRow>, todo: seq<nat>)
    requires forall k :: 0 <= k < |todo| ==> todo[k] < |steps|
    requires Decreasing(todo)
    ensures var wire := UndoAllTrail(w, n, steps, todo).wire;
      && (forall x :: x in wire ==> x.request.UndoRequest? && x.request.i in todo)
      && (forall a, b :: 0 <= a < b < |wire| ==> wire[b].request.i <= wire[a].request.i)
    decreases |todo|
  {
    if todo != [] {
      var first := UndoTrail(w, n, steps[todo[0]], todo[0]).wire;
      var n' := UndoStep(w, n, steps[todo[0]]).1;
      UndoRequestsBound(w, n, steps[todo[0]], todo[0]);
      PassInOrder(w, n', steps, todo[1..]);
      var rest := UndoAllTrail(w, n', steps, todo[1..]).wire;
      forall x | x in rest ensures x.request.UndoRequest? && x.request.i in todo && x.request.i < todo[0] {
        assert x.request.i in todo[1..];
      }
      forall a, b | 0 <= a < b < |first + rest|
        ensures (first + rest)[b].request.i <= (first + rest)[a].request.i
      {
        if b < |first| {
          assert first[a] in first && first[b] in first;
        } else if a < |first| {
          assert first[a] in first && rest[b - |first|] in rest;
        }
      }
    }
  }

  // Exchanges about one request.
  function About(wire: seq<Exchange>, request: Request): seq<Exchange> {
    if wire == [] then []
    else (if wire[0].request == request then [wire[0]] else []) + About(wire[1..], request)
  }

  lemma {:induction false} AboutConcat(a: seq<Exchange>, b: seq<Exchange>, request: Request)
    ensures About(a + b, request) == About(a, request) + About(b, request)
  {
    if a == [] {
      assert a + b == b;
    } else {
      var head := if a[0].request == request then [a[0]] else [];
      assert (a + b)[0] == a[0] && (a + b)[1..] == a[1..] + b;
      AboutConcat(a[1..], b, request);
      assert About(a + b, request) == head + (About(a[1..], request) + About(b, request));
    }
  }

  lemma {:induction false} AboutOnly(wire: seq<Exchange>, request: Request, other: Request)
    requires OnlyAbout(wire, request)
    ensures About(wire, other) == if other == request then wire else []
  {
    if wire != [] {
      assert wire[0] in wire;
      AboutOnly(wire[1..], request, other);
    }
  }

  lemma AboutFirst(first: seq<Exchange>, rest: seq<Exchange>, request: Request, other: Request)
    requires OnlyAbout(first, request)
    ensures About(first + rest, other) == (if other == request then first else []) + About(rest, other)
  {
    AboutOnly(first, request, other);
    AboutConcat(first, rest, other);
  }

  // Forward requests of a saga: for each step that is reached exactly its own attempts,
  // none above the step it stops at, and no undo.
  lemma {:induction false} ForwardOnWire(w: World, n: nat, steps: seq<StepRow>, k: nat, r: Request)
    requires k <= |steps|
    ensures var (f, _) := ForwardRun(w, n, steps, k);
      About(ForwardTrail(w, n, steps, k).wire, r) ==
        if r.ForwardRequest? && k <= r.i < |steps| && (f.StopsAt? ==> r.i <= f.k)
        then StepTrail(w, Reach(w, n, steps, k, r.i), steps[r.i], r.i).wire else []
    decreases |steps| - k
  {
    if k < |steps| {
      var (end, n') := StepRun(w, n, steps[k]);
      StepOnWire(w, n, steps[k], k);
      AboutOnly(StepTrail(w, n, steps[k], k).wire, ForwardRequest(k), r);
      if end.Done? {
        ForwardOnWire(w, n', steps, k + 1, r);
        var first, rest := StepTrail(w, n, steps[k], k).wire, ForwardTrail(w, n', steps, k + 1).wire;
        assert ForwardTrail(w, n, steps, k).wire == first + rest;
        AboutFirst(first, rest, ForwardRequest(k), r);
        if r.ForwardRequest? && k < r.i < |steps| {
          ReachShift(w, n, steps, k, r.i);
        }
      }
    }
  }

  lemma StepOnWire(w: World, n: nat, step: StepRow, i: nat)
    ensures var wire := StepTrail(w, n, step, i).wire;
      && |wire| <= AttemptsLeft(step)
      && OnlyAbout(wire, ForwardRequest(i))
      && (Sends(step) ==> AcceptedLast(wire, Attempts(w, n, AttemptsLeft(step)).0))
  {
    AttemptsOnWire(w, n, AttemptsLeft(step), i);
  }

  lemma ForwardAbout(w: World, n: nat, steps: seq<StepRow>, k: nat, i: nat)
    requires k <= |steps| && i < |steps|
    ensures var f := ForwardRun(w, n, steps, k).0;
      var wire := ForwardTrail(w, n, steps, k).wire;
      && About(wire, UndoRequest(i)) == []
      && |About(wire, ForwardRequest(i))| <= AttemptsLeft(steps[i])
      && (i < k || (f.StopsAt? && f.k < i) ==> About(wire, ForwardRequest(i)) == [])
  {
    ForwardOnWire(w, n, steps, k, ForwardRequest(i));
    ForwardOnWire(w, n, steps, k, UndoRequest(i));
    if k <= i {
      StepOnWire(w, Reach(w, n, steps, k, i), steps[i], i);
    }
  }

  // What a whole saga puts on the wire about step i: first its attempts, at most as many
  // as are left and none above the step where the run stops; then, only if the run
  // stops and the step is to be undone, its undo requests, at most MaxRetry + 1.
  lemma SagaOnWire(w: World, n: nat, steps: seq<StepRow>, k: nat, i: nat)
    requires k <= |steps| && i < |steps|
    ensures var f := ForwardRun(w, n, steps, k).0;
      var wire := SagaTrail(w, n, steps, k).wire;
      && |About(wire, ForwardRequest(i))| <= AttemptsLeft(steps[i])
      && |About(wire, UndoRequest(i))| <= UndoAttempts(steps[i])
      && (i < k || (f.StopsAt? && f.k < i) ==> About(wire, ForwardRequest(i)) == [])
      && (!(f.StopsAt? && i < UndoCount(f)) ==> About(wire, UndoRequest(i)) == [])
  {
    var (f, n') := ForwardRun(w, n, steps, k);
    ForwardAbout(w, n, steps, k, i);
    if f.StopsAt? {
      var forward := ForwardTrail(w, n, steps, k).wire;
      var back := UndoAllTrail(w, n', steps, Downwards(UndoCount(f))).wire;
      AboutConcat(forward, back, ForwardRequest(i));
      AboutConcat(forward, back, UndoRequest(i));
      PassAbout(w, n', steps, UndoCount(f), i);
    }
  }

  lemma {:induction false} PassAbout(w: World, n: nat, steps: seq<StepRow>, count: nat, i: nat)
    requires count <= |steps| && i < |steps|
    ensures var wire := UndoAllTrail(w, n, steps, Downwards(count)).wire;
      && About(wire, ForwardRequest(i)) == []
      && |About(wire, UndoRequest(i))| <= (if i < count then UndoAttempts(steps[i]) else 0)
    decreases count
  {
    if count > 0 {
      var first := UndoTrail(w, n, steps[count - 1], count - 1).wire;
      var n' := UndoStep(w, n, steps[count - 1]).1;
      assert Downwards(count)[1..] == Downwards(count - 1);
      var rest := UndoAllTrail(w, n', steps, Downwards(count - 1)).wire;
      assert UndoAllTrail(w, n, steps, Downwards(count)).wire == first + rest;
      UndoRequestsBound(w, n, steps[count - 1], count - 1);
      PassAbout(w, n', steps, count - 1, i);
      AboutFirst(first, rest, UndoRequest(count - 1), ForwardRequest(i));
      AboutFirst(first, rest, UndoRequest(count - 1), UndoRequest(i));
    }
  }

  // ---------- which requests are accepted ----------

  lemma AcceptedOnWire(wire: seq<Exchange>, request: Request, accepted: bool, other: Request)
    requires OnlyAbout(wire, request) && AcceptedLast(wire, accepted)
    ensures Exchange(other, true) in wire <==> accepted && other == request
  {
    if accepted {
      assert wire[|wire| - 1] in wire;
      assert wire[|wire| - 1] == Exchange(request, true);
    }
  }

  predicate ForwardAccepts(w: World, n: nat, steps: seq<StepRow>, k: nat, i: nat)
    requires k <= |steps|
  {
    && k <= i < |steps| && (ForwardRun(w, n, steps, k).0.StopsAt? ==> i <= ForwardRun(w, n, steps, k).0.k)
    && Sends(steps[i]) && Attempts(w, Reach(w, n, steps, k, i), AttemptsLeft(steps[i])).0
  }

  lemma StepAccepts(w: World, n: nat, step: StepRow, k: nat, r: Request)
    ensures Exchange(r, true) in StepTrail(w, n, step, k).wire <==>
      r == ForwardRequest(k) && Sends(step) && Attempts(w, n, AttemptsLeft(step)).0
  {
    StepOnWire(w, n, step, k);
    if Sends(step) {
      AcceptedOnWire(StepTrail(w, n, step, k).wire, ForwardRequest(k), Attempts(w, n, AttemptsLeft(step)).0, r);
    }
  }

  lemma {:induction false} ForwardAcceptances(w: World, n: nat, steps: seq<StepRow>, k: nat, i: nat)
    requires k <= |steps|
    ensures var wire := ForwardTrail(w, n, steps, k).wire;
      && (Exchange(ForwardRequest(i), true) in wire <==> ForwardAccepts(w, n, steps, k, i))
      && Exchange(UndoRequest(i), true) !in wire
    decreases |steps| - k
  {
    if k < |steps| {
      var (end, n') := StepRun(w, n, steps[k]);
      StepAccepts(w, n, steps[k], k, ForwardRequest(i));
      StepAccepts(w, n, steps[k], k, UndoRequest(i));
      if end.Done? {
        ForwardAcceptances(w, n', steps, k + 1, i);
        if k < i < |steps| {
          ReachShift(w, n, steps, k, i);
        }
      }
    }
  }

  lemma {:induction false} PassAccepts(w: World, n: nat, steps: seq<StepRow>, count: nat, i: nat)
    requires count <= |steps|
    ensures var wire := UndoAllTrail(w, n, steps, Downwards(count)).wire;
      && Exchange(ForwardRequest(i), true) !in wire
      && (Exchange(UndoRequest(i), true) in wire <==>
            i < count && UndoAll(w, n, steps, Downwards(count)).0[count - 1 - i])
    decreases count
  {
    if count > 0 {
      var j := count - 1;
      var (ok, n') := UndoStep(w, n, steps[j]);
      assert Downwards(count)[1..] == Downwards(j);
      UndoRequestsBound(w, n, steps[j], j);
      AcceptedOnWire(UndoTrail(w, n, steps[j], j).wire, UndoRequest(j), ok, UndoRequest(i));
      AcceptedOnWire(UndoTrail(w, n, steps[j], j).wire, UndoRequest(j), ok, ForwardRequest(i));
      PassAccepts(w, n', steps, j, i);
    }
  }

  // Of a whole saga: the forward requests of the steps that are reached and accepted,
  // and the undo requests of the steps whose undo is accepted.
  lemma SagaAccepts(w: World, n: nat, steps: seq<StepRow>, k: nat, i: nat)
    requires k <= |steps|
    ensures var (f, n') := ForwardRun(w, n, steps, k);
      var wire := SagaTrail(w, n, steps, k).wire;
      && (Exchange(ForwardRequest(i), true) in wire <==> ForwardAccepts(w, n, steps, k, i))
      && (Exchange(UndoRequest(i), true) in wire <==>
            f.StopsAt? && i < UndoCount(f) && UndoAll(w, n', steps, Downwards(UndoCount(f))).0[UndoCount(f) - 1 - i])
  {
    var (f, n') := ForwardRun(w, n, steps, k);
    ForwardAcceptances(w, n, steps, k, i);
    if f.StopsAt? {
      PassAccepts(w, n', steps, UndoCount(f), i);
    }
  }
}
