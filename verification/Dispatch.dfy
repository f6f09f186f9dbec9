// The in-memory queue of one coordinator: submitters mark a transaction active before
// they enqueue it, workers unmark it after driving it (saga/coordinator.go:113-152,
// saga/coordinator.go:270-276). Marking and enqueueing are two separate steps, and any
// number of submitters and workers interleave.
module Dispatch {

  type TxId = string

  // marking: submitters between the mark and the enqueue attempt, by submitter.
  // driving: what each busy worker is driving, by worker.
  datatype State = State(
    active: set<TxId>, queue: seq<TxId>, capacity: nat,
    marking: map<nat, TxId>, driving: map<nat, TxId>)

  datatype Event =
    | Mark(submitter: nat, tx: TxId)     // activeTx test and set under the mutex
    | Enqueue(submitter: nat)            // non-blocking send, or unmark and drop
    | Take(worker: nat)                  // receive from the queue
    | Finish(worker: nat)                // deferred delete(activeTx, txID)

  function Step(s: State, e: Event): State {
    match e
    case Mark(p, tx) =>
      if p in s.marking || tx in s.active then s
      else s.(active := s.active + {tx}, marking := s.marking[p := tx])
    case Enqueue(p) =>
      if p !in s.marking then s
      else if |s.queue| < s.capacity
      then s.(queue := s.queue + [s.marking[p]], marking := s.marking - {p})
      else s.(active := s.active - {s.marking[p]}, marking := s.marking - {p})
    case Take(w) =>
      if w in s.driving || s.queue == [] then s
      else s.(queue := s.queue[1..], driving := s.driving[w := s.queue[0]])
    case Finish(w) =>
      if w !in s.driving then s
      else s.(active := s.active - {s.driving[w]}, driving := s.driving - {w})
  }

  function Run(s: State, es: seq<Event>): State {
    if es == [] then s else Step(Run(s, es[..|es| - 1]), es[|es| - 1])
  }

  predicate Start(s: State) {
    s.active == {} && s.queue == [] && s.marking == map[] && s.driving == map[]
  }

  // ---------- where a transaction is ----------

  function Holders(m: map<nat, TxId>, tx: TxId): set<nat> {
    set p | p in m && m[p] == tx
  }

  function Places(s: State, tx: TxId): nat {
    |Holders(s.marking, tx)| + multiset(s.queue)[tx] + |Holders(s.driving, tx)|
  }

  lemma HoldersAdd(m: map<nat, TxId>, p: nat, tx: TxId, t: TxId)
    requires p !in m
    ensures |Holders(m[p := tx], t)| == |Holders(m, t)| + (if t == tx then 1 else 0)
  {
    assert Holders(m[p := tx], t) == if t == tx then Holders(m, t) + {p} else Holders(m, t);
  }

  lemma HoldersRemove(m: map<nat, TxId>, p: nat, t: TxId)
    requires p in m
    ensures |Holders(m - {p}, t)| == |Holders(m, t)| - (if t == m[p] then 1 else 0)
  {
    assert Holders(m - {p}, t) == if t == m[p] then Holders(m, t) - {p} else Holders(m, t);
    assert t == m[p] ==> p in Holders(m, t);
  }

  predicate OnePlace(s: State, tx: TxId) {
    Places(s, tx) == if tx in s.active then 1 else 0
  }

  lemma MarkConserves(s: State, p: nat, t: TxId, tx: TxId)
    requires OnePlace(s, tx)
    ensures OnePlace(Step(s, Mark(p, t)), tx)
  {
    if p !in s.marking {
      HoldersAdd(s.marking, p, t, tx);
    }
  }

  lemma EnqueueConserves(s: State, p: nat, tx: TxId)
    requires OnePlace(s, tx)
    ensures OnePlace(Step(s, Enqueue(p)), tx)
  {
    if p in s.marking {
      HoldersRemove(s.marking, p, tx);
      if s.marking[p] == tx {
        assert p in Holders(s.marking, tx);
      }
    }
  }

  lemma TakeConserves(s: State, w: nat, tx: TxId)
    requires OnePlace(s, tx)
    ensures OnePlace(Step(s, Take(w)), tx)
  {
    if w !in s.driving && s.queue != [] {
      HoldersAdd(s.driving, w, s.queue[0], tx);
      assert s.queue == [s.queue[0]] + s.queue[1..];
    }
  }

  lemma FinishConserves(s: State, w: nat, tx: TxId)
    requires OnePlace(s, tx)
    ensures OnePlace(Step(s, Finish(w)), tx)
  {
    if w in s.driving {
      HoldersRemove(s.driving, w, tx);
      if s.driving[w] == tx {
        assert w in Holders(s.driving, tx);
      }
    }
  }

  lemma StepConserves(s: State, e: Event, tx: TxId)
    requires OnePlace(s, tx)
    ensures OnePlace(Step(s, e), tx)
  {
    match e
    case Mark(p, t) => MarkConserves(s, p, t, tx);
    case Enqueue(p) => EnqueueConserves(s, p, tx);
    case Take(w) => TakeConserves(s, w, tx);
    case Finish(w) => FinishConserves(s, w, tx);
  }

  // In every run each transaction is in exactly one place if it is active and in none
  // otherwise; in particular a dropped submit leaves nothing behind.
  lemma {:induction false} RunConserves(s: State, es: seq<Event>, tx: TxId)
    requires Start(s)
    ensures OnePlace(Run(s, es), tx)
  {
    if es == [] {
      assert Holders(s.marking, tx) == {} && Holders(s.driving, tx) == {};
    } else {
      RunConserves(s, es[..|es| - 1], tx);
      StepConserves(Run(s, es[..|es| - 1]), es[|es| - 1], tx);
    }
  }

  // One instance never drives a transaction twice at once, and never keeps one queued
  // while it is being driven.
  lemma NeverDrivenTwice(s: State, es: seq<Event>, v: nat, w: nat)
    requires Start(s)
    requires v in Run(s, es).driving && w in Run(s, es).driving
    requires Run(s, es).driving[v] == Run(s, es).driving[w]
    ensures v == w && Run(s, es).driving[v] !in Run(s, es).queue
  {
    var r := Run(s, es);
    var tx := r.driving[v];
    RunConserves(s, es, tx);
    assert {v, w} <= Holders(r.driving, tx);
    CardinalityMonotone({v, w}, Holders(r.driving, tx));
    assert v != w ==> |{v, w}| == 2;
    assert multiset(r.queue)[tx] == 0;
  }

  lemma {:induction false} CardinalityMonotone(a: set<nat>, b: set<nat>)
    requires a <= b
    ensures |a| <= |b|
  {
    if a != {} {
      var x :| x in a;
      CardinalityMonotone(a - {x}, b - {x});
    }
  }

  // ---------- order, entering and leaving ----------

  // What has been put into the queue, and what the workers were handed, in order.
  function Sent(s: State, es: seq<Event>): seq<TxId> {
    if es == [] then []
    else
      var r, e := Run(s, es[..|es| - 1]), es[|es| - 1];
      Sent(s, es[..|es| - 1]) +
      if e.Enqueue? && e.submitter in r.marking && |r.queue| < r.capacity then [r.marking[e.submitter]] else []
  }

  function Handed(s: State, es: seq<Event>): seq<TxId> {
    if es == [] then []
    else
      var r, r', e := Run(s, es[..|es| - 1]), Run(s, es), es[|es| - 1];
      Handed(s, es[..|es| - 1]) +
      if e.Take? && e.worker !in r.driving && e.worker in r'.driving then [r'.driving[e.worker]] else []
  }

  lemma QueueStep(r: State, e: Event, handed: seq<TxId>)
    ensures var r' := Step(r, e);
      var sent :=
        if e.Enqueue? && e.submitter in r.marking && |r.queue| < r.capacity then [r.marking[e.submitter]] else [];
      var taken := if e.Take? && e.worker !in r.driving && e.worker in r'.driving then [r'.driving[e.worker]] else [];
      handed + r.queue + sent == handed + taken + r'.queue
  {
    if e.Take? && e.worker !in r.driving && r.queue != [] {
      assert r.queue == [r.queue[0]] + r.queue[1..];
    }
  }

  // First come, first driven: the workers get the transactions in the order in which
  // they were queued, and what they have not got yet is waiting in that order.
  lemma {:induction false} FirstInFirstOut(s: State, es: seq<Event>)
    requires Start(s)
    ensures Sent(s, es) == Handed(s, es) + Run(s, es).queue
  {
    if es != [] {
      var init, e := es[..|es| - 1], es[|es| - 1];
      FirstInFirstOut(s, init);
      QueueStep(Run(s, init), e, Handed(s, init));
    }
  }

  // A transaction becomes active only by being marked. It stays so until its worker is
  // done with it, or its submitter meets a full queue; then it may be submitted again.
  lemma EntersAndLeaves(s: State, e: Event, tx: TxId)
    ensures tx !in s.active ==>
      (tx in Step(s, e).active <==> e.Mark? && e.tx == tx && e.submitter !in s.marking)
    ensures tx in s.active ==>
      (tx !in Step(s, e).active <==>
        || (e.Finish? && e.worker in s.driving && s.driving[e.worker] == tx)
        || (e.Enqueue? && e.submitter in s.marking && s.marking[e.submitter] == tx && |s.queue| >= s.capacity))
  {
  }

  // ---------- the same, performed in place ----------

  // marking and driving record which goroutine is where; the source keeps that only
  // in the goroutines themselves.
  class Dispatcher {
    var activeTx: set<TxId>
    var taskQueue: seq<TxId>
    const capacity: nat
    ghost var marking: map<nat, TxId>
    ghost var driving: map<nat, TxId>

    ghost function View(): State
      reads this
    {
      State(activeTx, taskQueue, capacity, marking, driving)
    }

    constructor (capacity: nat)
      ensures Start(View()) && this.capacity == capacity
    {
      activeTx, taskQueue := {}, [];
      this.capacity := capacity;
      marking, driving := map[], map[];
    }

    // First critical section of Submit.
    method TryMark(tx: TxId, ghost p: nat) returns (isNew: bool)
      requires p !in marking
      modifies this
      ensures isNew <==> tx !in old(activeTx)
      ensures activeTx == old(activeTx) + {tx} && taskQueue == old(taskQueue)
      ensures View() == Step(old(View()), Mark(p, tx))
    {
      if tx in activeTx {
        return false;
      }
      activeTx := activeTx + {tx};
      marking := marking[p := tx];
      return true;
    }

    // The select of Submit, with the second critical section when the queue is full.
    method TryEnqueue(tx: TxId, ghost p: nat) returns (queued: bool)
      requires p in marking && marking[p] == tx
      modifies this
      ensures queued <==> |old(taskQueue)| < capacity
      ensures queued ==> taskQueue == old(taskQueue) + [tx] && activeTx == old(activeTx)
      ensures !queued ==> taskQueue == old(taskQueue) && activeTx == old(activeTx) - {tx}
      ensures View() == Step(old(View()), Enqueue(p))
    {
      queued := |taskQueue| < capacity;
      if queued {
        taskQueue := taskQueue + [tx];
      } else {
        activeTx := activeTx - {tx};
      }
      marking := marking - {p};
    }

    method Receive(ghost w: nat) returns (tx: TxId)
      requires taskQueue != [] && w !in driving
      modifies this
      ensures [tx] + taskQueue == old(taskQueue) && activeTx == old(activeTx)
      ensures View() == Step(old(View()), Take(w))
    {
      tx := taskQueue[0];
      taskQueue := taskQueue[1..];
      driving := driving[w := tx];
    }

    method MarkInactive(tx: TxId, ghost w: nat)
      requires w in driving && driving[w] == tx
      modifies this
      ensures activeTx == old(activeTx) - {tx} && taskQueue == old(taskQueue)
      ensures View() == Step(old(View()), Finish(w))
    {
      activeTx := activeTx - {tx};
      driving := driving - {w};
    }
  }
}
