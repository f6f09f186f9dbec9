// How the coordinator chooses what to do next from a snapshot of the steps
// (saga/coordinator.go:386-456, saga/coordinator.go:686-692).
module Selection {
  import opened Wrappers
  import opened SagaTypes

  predicate AnyFailed(steps: seq<StepRow>) {
    exists i :: 0 <= i < |steps| && steps[i].status == Failed
  }

  predicate AllSucceeded(steps: seq<StepRow>) {
    forall i :: 0 <= i < |steps| ==> steps[i].status == Succeeded
  }

  predicate Open(st: StepStatus) {
    st == Pending || st == Running || st == Polling
  }

  // currentStep after the selection loop has seen the first n steps: the first
  // Pending step sticks, but a Running or Polling step always overrides it.
  function Pick(steps: seq<StepRow>, n: nat): (r: Option<nat>)
    requires n <= |steps|
    ensures r.Some? ==> r.value < n && Open(steps[r.value].status)
  {
    if n == 0 then None
    else match steps[n - 1].status
      case Pending => (var p := Pick(steps, n - 1); if p.None? then Some(n - 1) else p)
      case Running => Some(n - 1)
      case Polling => Some(n - 1)
      case _ => Pick(steps, n - 1)
  }

  predicate InProgress(steps: seq<StepRow>, i: nat) {
    i < |steps| && (steps[i].status == Running || steps[i].status == Polling)
  }

  // The last step in progress if there is one, else the first pending step.
  lemma {:induction false} PickMeans(steps: seq<StepRow>, n: nat, k: nat)
    requires k < n <= |steps|
    ensures Pick(steps, n) == Some(k) <==>
      || (InProgress(steps, k) && forall j :: k < j < n ==> !InProgress(steps, j))
      || (steps[k].status == Pending && (forall j :: 0 <= j < n ==> !InProgress(steps, j))
          && forall j :: 0 <= j < k ==> steps[j].status != Pending)
  {
    if k < n - 1 {
      PickMeans(steps, n - 1, k);
      assert InProgress(steps, n - 1) || !InProgress(steps, n - 1);
    } else if Pick(steps, k).Some? {
      PickMeans(steps, k, Pick(steps, k).value);
    } else {
      NoPick(steps, k);
    }
  }

  lemma {:induction false} NoPick(steps: seq<StepRow>, n: nat)
    requires n <= |steps|
    ensures Pick(steps, n) == None <==>
      forall j :: 0 <= j < n ==> steps[j].status != Pending && !InProgress(steps, j)
  {
    if n > 0 {
      NoPick(steps, n - 1);
    }
  }

  // k is the first step that has not succeeded; everything after it is untouched.
  predicate Front(steps: seq<StepRow>, k: nat) {
    && k <= |steps|
    && (forall j :: 0 <= j < k ==> steps[j].status == Succeeded)
    && (forall j :: k < j < |steps| ==> steps[j].status == Pending)
    && (k < |steps| ==> Open(steps[k].status) || steps[k].status == Failed)
  }

  // On a well-shaped snapshot the override of earlier picks does no harm.
  lemma {:induction false} PickAtFront(steps: seq<StepRow>, k: nat, n: nat)
    requires Front(steps, k) && n <= |steps|
    requires k < |steps| ==> Open(steps[k].status)
    ensures Pick(steps, n) == if n <= k then None else Some(k)
  {
    if n > 0 {
      PickAtFront(steps, k, n - 1);
    }
  }

  // Statuses whose forward action may have taken effect remotely.
  predicate Undoable(st: StepStatus) {
    st == Succeeded || st == Polling || st == Compensating
  }

  // The compensation list for the first n steps: highest index first.
  function ToCompensate(steps: seq<StepRow>, n: nat): (todo: seq<nat>)
    requires n <= |steps|
    ensures forall k :: 0 <= k < |todo| ==> todo[k] < n && Undoable(steps[todo[k]].status)
  {
    if n == 0 then []
    else if Undoable(steps[n - 1].status) then [n - 1] + ToCompensate(steps, n - 1)
    else ToCompensate(steps, n - 1)
  }

  // The list holds exactly the undoable steps ...
  lemma {:induction false} CompensationMembers(steps: seq<StepRow>, n: nat, i: nat)
    requires i < n <= |steps|
    ensures i in ToCompensate(steps, n) <==>
      steps[i].status == Succeeded || steps[i].status == Polling || steps[i].status == Compensating
  {
    if i < n - 1 {
      CompensationMembers(steps, n - 1, i);
    }
  }

  predicate Decreasing(todo: seq<nat>) {
    forall k, l :: 0 <= k < l < |todo| ==> todo[l] < todo[k]
  }

  // ... in strictly decreasing order.
  lemma {:induction false} CompensationOrder(steps: seq<StepRow>, n: nat)
    requires n <= |steps|
    ensures Decreasing(ToCompensate(steps, n))
  {
    if n > 0 {
      CompensationOrder(steps, n - 1);
      var rest := ToCompensate(steps, n - 1);
      var todo := ToCompensate(steps, n);
      if Undoable(steps[n - 1].status) {
        assert todo == [n - 1] + rest;
        forall k, l | 0 <= k < l < |todo| ensures todo[l] < todo[k] {
          assert rest[l - 1] < n - 1;
          assert k > 0 ==> rest[l - 1] < rest[k - 1];
        }
      }
    }
  }
}
