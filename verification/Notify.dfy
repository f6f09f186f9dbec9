// Wake-ups inside one instance (saga/poller.go:94-133, saga/poller.go:286-365,
// saga/coordinator.go:567-652). A coordinator registers a channel and then rereads
// the step; a poll worker writes the step and then looks the channel up and sends.
// Sends are best effort on a channel of capacity one and may reach a channel that has
// been replaced in the meantime.
module Notify {
  import opened Wrappers

  type TxId = string

  datatype PollResult = Success | Failure | Timeout

  // A coordinator inside waitForAsyncStep.
  datatype Waiter =
    | Registered(step: nat, ch: nat)   // holds the channel, has not reread the step
    | Blocked(step: nat, ch: nat)      // in its select
    | Leaving                          // about to unregister

  // A poll worker; Wrote: the status is written, notify has not looked up the channel.
  datatype Worker =
    | Working(tx: TxId, step: nat)
    | Wrote(tx: TxId, step: nat, result: PollResult)
    | Sending(tx: TxId, step: nat, ch: nat, result: PollResult)

  // resolved: steps whose stored status a worker of this poller made terminal.
  // chans: every channel ever made, with the message it holds.
  datatype State = State(
    resolved: set<(TxId, nat)>,
    notifyChan: map<TxId, nat>,
    chans: map<nat, Option<PollResult>>,
    waiters: map<TxId, Waiter>,
    workers: map<nat, Worker>)

  datatype Event =
    | Register(tx: TxId, step: nat, newChan: nat)
    | Reread(tx: TxId, failed: bool)
    | Wake(tx: TxId)
    | GiveUp(tx: TxId)
    | Unregister(tx: TxId)
    | StartPoll(p: nat, tx: TxId, step: nat)
    | WriteResult(p: nat, result: PollResult, written: bool)
    | LookUp(p: nat)
    | Send(p: nat)
    | EndPoll(p: nat)

  // RegisterNotify returns an existing channel if there is one.
  function Step(s: State, e: Event): State {
    match e
    case Register(tx, step, newChan) =>
      if tx in s.waiters then s
      else if tx in s.notifyChan then s.(waiters := s.waiters[tx := Registered(step, s.notifyChan[tx])])
      else if newChan in s.chans then s
      else s.(notifyChan := s.notifyChan[tx := newChan], chans := s.chans[newChan := None],
              waiters := s.waiters[tx := Registered(step, newChan)])
    case Reread(tx, failed) =>
      if tx in s.waiters && s.waiters[tx].Registered? then
        var w := s.waiters[tx];
        s.(waiters := s.waiters[tx := if failed || (tx, w.step) in s.resolved then Leaving else Blocked(w.step, w.ch)])
      else s
    case Wake(tx) =>
      if CanWake(s, tx) then
        s.(chans := s.chans[s.waiters[tx].ch := None], waiters := s.waiters[tx := Leaving])
      else s
    case GiveUp(tx) =>
      if tx in s.waiters && s.waiters[tx].Blocked? then s.(waiters := s.waiters[tx := Leaving]) else s
    case Unregister(tx) =>
      if tx in s.waiters && s.waiters[tx].Leaving?
      then s.(notifyChan := s.notifyChan - {tx}, waiters := s.waiters - {tx})
      else s
    case StartPoll(p, tx, step) =>
      if p in s.workers then s else s.(workers := s.workers[p := Working(tx, step)])
    case WriteResult(p, result, written) =>
      if p in s.workers && s.workers[p].Working? then
        var w := s.workers[p];
        s.(resolved := if written then s.resolved + {(w.tx, w.step)} else s.resolved,
           workers := s.workers[p := Wrote(w.tx, w.step, result)])
      else s
    case LookUp(p) =>
      if p in s.workers && s.workers[p].Wrote? then
        var w := s.workers[p];
        if w.tx in s.notifyChan
        then s.(workers := s.workers[p := Sending(w.tx, w.step, s.notifyChan[w.tx], w.result)])
        else s.(workers := s.workers - {p})
      else s
    case Send(p) =>
      if p in s.workers && s.workers[p].Sending? then
        var w := s.workers[p];
        s.(chans := if w.ch in s.chans && s.chans[w.ch].None? then s.chans[w.ch := Some(w.result)] else s.chans,
           workers := s.workers - {p})
      else s
    case EndPoll(p) =>
      if p in s.workers && s.workers[p].Working? then s.(workers := s.workers - {p}) else s
  }

  predicate CanWake(s: State, tx: TxId) {
    tx in s.waiters && s.waiters[tx].Blocked? && s.waiters[tx].ch in s.chans && s.chans[s.waiters[tx].ch].Some?
  }

  function Run(s: State, es: seq<Event>): State {
    if es == [] then s else Step(Run(s, es[..|es| - 1]), es[|es| - 1])
  }

  predicate Start(s: State) {
    s.resolved == {} && s.notifyChan == map[] && s.chans == map[] && s.waiters == map[] && s.workers == map[]
  }

  // Some worker is between writing this step and delivering to this channel.
  predicate Underway(s: State, p: nat, tx: TxId, step: nat, ch: nat) {
    p in s.workers
    && ((s.workers[p].Wrote? && s.workers[p].tx == tx && s.workers[p].step == step)
        || (s.workers[p].Sending? && s.workers[p].ch == ch))
  }

  ghost predicate Deliverable(s: State, tx: TxId, step: nat, ch: nat) {
    (ch in s.chans && s.chans[ch].Some?) || exists p :: Underway(s, p, tx, step, ch)
  }

  ghost predicate WaiterInv(s: State, tx: TxId) {
    tx in s.waiters && !s.waiters[tx].Leaving? ==>
      && tx in s.notifyChan && s.notifyChan[tx] == s.waiters[tx].ch
      && (s.waiters[tx].Blocked? && (tx, s.waiters[tx].step) in s.resolved ==>
            Deliverable(s, tx, s.waiters[tx].step, s.waiters[tx].ch))
  }

  // Channels are never shared between transactions.
  ghost predicate TableInv(s: State) {
    && (forall tx :: tx in s.notifyChan ==> s.notifyChan[tx] in s.chans)
    && (forall a, b :: a in s.notifyChan && b in s.notifyChan && s.notifyChan[a] == s.notifyChan[b] ==> a == b)
  }

  ghost predicate Inv(s: State) {
    TableInv(s) && forall tx :: WaiterInv(s, tx)
  }

  lemma StaysDeliverable(s: State, e: Event, tx: TxId)
    requires Inv(s)
    requires tx in s.waiters && s.waiters[tx].Blocked? && tx in Step(s, e).waiters && Step(s, e).waiters[tx].Blocked?
    requires Deliverable(s, tx, s.waiters[tx].step, s.waiters[tx].ch)
    ensures Deliverable(Step(s, e), tx, s.waiters[tx].step, s.waiters[tx].ch)
  {
    var s' := Step(s, e);
    var (step, ch) := (s.waiters[tx].step, s.waiters[tx].ch);
    assert WaiterInv(s, tx);
    if s.chans[ch].Some? {
      if e.Wake? && CanWake(s, e.tx) {
        assert WaiterInv(s, e.tx);
      }
    } else {
      var p :| Underway(s, p, tx, step, ch);
      if e == LookUp(p) || e == Send(p) {
        assert (s'.chans[ch].Some?) || Underway(s', p, tx, step, ch);
      } else {
        assert Underway(s', p, tx, step, ch);
      }
    }
  }

  lemma TableStep(s: State, e: Event)
    requires TableInv(s)
    ensures TableInv(Step(s, e))
  {
  }

  lemma WaiterStep(s: State, e: Event, tx: TxId)
    requires Inv(s)
    ensures WaiterInv(Step(s, e), tx)
  {
    var s' := Step(s, e);
    assert WaiterInv(s, tx);
    if tx in s'.waiters && s'.waiters[tx].Blocked? && (tx, s'.waiters[tx].step) in s'.resolved {
      if (tx, s'.waiters[tx].step) !in s.resolved {
        assert Underway(s', e.p, tx, s'.waiters[tx].step, s'.waiters[tx].ch);
      } else {
        StaysDeliverable(s, e, tx);
      }
    }
  }

  lemma StepInv(s: State, e: Event)
    requires Inv(s)
    ensures Inv(Step(s, e))
  {
    TableStep(s, e);
    forall tx ensures WaiterInv(Step(s, e), tx) {
      WaiterStep(s, e, tx);
    }
  }

  lemma {:induction false} RunInv(s: State, es: seq<Event>)
    requires Start(s)
    ensures Inv(Run(s, es))
  {
    if es != [] {
      RunInv(s, es[..|es| - 1]);
      StepInv(Run(s, es[..|es| - 1]), es[|es| - 1]);
    }
  }

  // No lost wake-up: a coordinator blocked although its step is already resolved has
  // a message waiting, or a worker is still on its way to send one.
  lemma NoLostWakeUp(s: State, es: seq<Event>, tx: TxId)
    requires Start(s)
    requires tx in Run(s, es).waiters && Run(s, es).waiters[tx].Blocked?
    requires (tx, Run(s, es).waiters[tx].step) in Run(s, es).resolved
    ensures var r := Run(s, es);
      CanWake(r, tx) || exists p :: Underway(r, p, tx, r.waiters[tx].step, r.waiters[tx].ch)
  {
    RunInv(s, es);
    assert WaiterInv(Run(s, es), tx);
  }

  // Such a worker needs only its own next two steps to make the wake-up possible.
  lemma UnderwayDelivers(s: State, es: seq<Event>, tx: TxId, p: nat)
    requires Start(s)
    requires tx in Run(s, es).waiters && Run(s, es).waiters[tx].Blocked?
    requires Underway(Run(s, es), p, tx, Run(s, es).waiters[tx].step, Run(s, es).waiters[tx].ch)
    ensures CanWake(Step(Step(Run(s, es), LookUp(p)), Send(p)), tx)
  {
    RunInv(s, es);
    assert WaiterInv(Run(s, es), tx);
  }

  // ---------- where messages come from ----------

  // Some worker of this transaction wrote that result.
  ghost predicate WroteFor(s: State, es: seq<Event>, tx: TxId, result: PollResult) {
    exists k, p, written :: 0 <= k < |es| && es[k] == WriteResult(p, result, written) && WorkingAt(s, es, k, p, tx)
  }

  predicate WorkingAt(s: State, es: seq<Event>, k: nat, p: nat, tx: TxId) {
    && k <= |es| && p in Run(s, es[..k]).workers
    && Run(s, es[..k]).workers[p].Working? && Run(s, es[..k]).workers[p].tx == tx
  }

  // The channel was registered for the transaction at some time.
  ghost predicate MadeFor(s: State, es: seq<Event>, ch: nat, tx: TxId) {
    exists k :: 0 <= k <= |es| && RegisteredAt(s, es, k, ch, tx)
  }

  predicate RegisteredAt(s: State, es: seq<Event>, k: nat, ch: nat, tx: TxId) {
    k <= |es| && tx in Run(s, es[..k]).notifyChan && Run(s, es[..k]).notifyChan[tx] == ch
  }

  ghost predicate MessageOrigin(s: State, es: seq<Event>, ch: nat) {
    var r := Run(s, es);
    ch in r.chans && r.chans[ch].Some? ==>
      exists tx :: MadeFor(s, es, ch, tx) && WroteFor(s, es, tx, r.chans[ch].value)
  }

  ghost predicate WorkerOrigin(s: State, es: seq<Event>, p: nat) {
    var r := Run(s, es);
    p in r.workers ==>
      match r.workers[p]
      case Working(_, _) => true
      case Wrote(tx, _, result) => WroteFor(s, es, tx, result)
      case Sending(tx, _, ch, result) => MadeFor(s, es, ch, tx) && WroteFor(s, es, tx, result)
  }

  ghost predicate Origins(s: State, es: seq<Event>) {
    (forall ch :: MessageOrigin(s, es, ch)) && (forall p :: WorkerOrigin(s, es, p))
  }

  // What is past stays past.
  lemma OriginsStay(s: State, es: seq<Event>, e: Event, tx: TxId)
    ensures forall result :: WroteFor(s, es, tx, result) ==> WroteFor(s, es + [e], tx, result)
    ensures forall ch :: MadeFor(s, es, ch, tx) ==> MadeFor(s, es + [e], ch, tx)
  {
    var more := es + [e];
    assert forall k :: 0 <= k <= |es| ==> more[..k] == es[..k];
    forall result | WroteFor(s, es, tx, result) ensures WroteFor(s, more, tx, result) {
      var k, p, written :| 0 <= k < |es| && es[k] == WriteResult(p, result, written) && WorkingAt(s, es, k, p, tx);
      assert more[k] == WriteResult(p, result, written) && WorkingAt(s, more, k, p, tx);
    }
    forall ch | MadeFor(s, es, ch, tx) ensures MadeFor(s, more, ch, tx) {
      var k :| 0 <= k <= |es| && RegisteredAt(s, es, k, ch, tx);
      assert RegisteredAt(s, more, k, ch, tx);
    }
  }

  lemma MadeNow(s: State, es: seq<Event>, tx: TxId)
    requires tx in Run(s, es).notifyChan
    ensures MadeFor(s, es, Run(s, es).notifyChan[tx], tx)
  {
    assert es[..|es|] == es;
    assert RegisteredAt(s, es, |es|, Run(s, es).notifyChan[tx], tx);
  }

  lemma WroteNow(s: State, es: seq<Event>, p: nat, result: PollResult, written: bool)
    requires p in Run(s, es).workers && Run(s, es).workers[p].Working?
    ensures WroteFor(s, es + [WriteResult(p, result, written)], Run(s, es).workers[p].tx, result)
  {
    var more := es + [WriteResult(p, result, written)];
    assert more[..|es|] == es && more[|es|] == WriteResult(p, result, written);
    assert WorkingAt(s, more, |es|, p, Run(s, es).workers[p].tx);
  }

  // Where a worker comes from.
  lemma WorkerStep(s: State, e: Event, p: nat)
    requires p in Step(s, e).workers
    ensures var worker := Step(s, e).workers[p];
      || (p in s.workers && s.workers[p] == worker)
      || (p !in s.workers && worker.Working?)
      || (p in s.workers && s.workers[p].Working? && e.WriteResult? && e.p == p
          && worker == Wrote(s.workers[p].tx, s.workers[p].step, e.result))
      || (p in s.workers && s.workers[p].Wrote? && s.workers[p].tx in s.notifyChan
          && worker == Sending(s.workers[p].tx, s.workers[p].step, s.notifyChan[s.workers[p].tx], s.workers[p].result))
  {
  }

  lemma WorkerOriginStep(s: State, es: seq<Event>, e: Event, p: nat)
    requires Origins(s, es)
    ensures WorkerOrigin(s, es + [e], p)
  {
    var r := Run(s, es);
    assert (es + [e])[..|es + [e]| - 1] == es && Run(s, es + [e]) == Step(r, e);
    assert WorkerOrigin(s, es, p);
    if p in Step(r, e).workers && p in r.workers {
      var tx := r.workers[p].tx;
      WorkerStep(r, e, p);
      if r.workers[p].Working? && e.WriteResult? && e.p == p {
        WroteNow(s, es, p, e.result, e.written);
      } else {
        if r.workers[p].Wrote? && tx in r.notifyChan {
          MadeNow(s, es, tx);
        }
        OriginsStay(s, es, e, tx);
      }
    } else if p in Step(r, e).workers {
      WorkerStep(r, e, p);
    }
  }

  // A message is an old one, or has just been sent.
  lemma MessageStep(s: State, e: Event, ch: nat)
    requires ch in Step(s, e).chans && Step(s, e).chans[ch].Some?
    ensures || (ch in s.chans && s.chans[ch] == Step(s, e).chans[ch])
            || (e.Send? && e.p in s.workers && s.workers[e.p].Sending? && s.workers[e.p].ch == ch
                && Step(s, e).chans[ch] == Some(s.workers[e.p].result))
  {
  }

  // An existing channel changes only by a send while it is empty and by the wake-up of
  // the waiter blocked on it: a full channel keeps the message it has.
  lemma ChannelChanges(s: State, e: Event, ch: nat)
    requires ch in s.chans
    ensures var s' := Step(s, e);
      && ch in s'.chans
      && (s.chans[ch].None? && s'.chans[ch].Some? <==>
            s.chans[ch].None? && e.Send? && e.p in s.workers && s.workers[e.p].Sending? && s.workers[e.p].ch == ch)
      && (s.chans[ch].Some? ==>
            (if e.Wake? && e.tx in s.waiters && s.waiters[e.tx].Blocked? && s.waiters[e.tx].ch == ch
             then s'.chans[ch] == None else s'.chans[ch] == s.chans[ch]))
  {
  }

  lemma MessageOriginStep(s: State, es: seq<Event>, e: Event, ch: nat)
    requires Origins(s, es)
    ensures MessageOrigin(s, es + [e], ch)
  {
    var r := Run(s, es);
    assert (es + [e])[..|es + [e]| - 1] == es && Run(s, es + [e]) == Step(r, e);
    if ch in Step(r, e).chans && Step(r, e).chans[ch].Some? {
      MessageStep(r, e, ch);
      var result := Step(r, e).chans[ch].value;
      var tx: TxId;
      if ch in r.chans && r.chans[ch] == Some(result) {
        assert MessageOrigin(s, es, ch);
        tx :| MadeFor(s, es, ch, tx) && WroteFor(s, es, tx, result);
      } else {
        assert WorkerOrigin(s, es, e.p);
        tx := r.workers[e.p].tx;
      }
      OriginsStay(s, es, e, tx);
    }
  }

  lemma {:induction false} RunOrigins(s: State, es: seq<Event>)
    requires Start(s)
    ensures Origins(s, es)
  {
    if es != [] {
      var init, e := es[..|es| - 1], es[|es| - 1];
      RunOrigins(s, init);
      assert es == init + [e];
      forall p ensures WorkerOrigin(s, es, p) {
        WorkerOriginStep(s, init, e, p);
      }
      forall ch ensures MessageOrigin(s, es, ch) {
        MessageOriginStep(s, init, e, ch);
      }
    }
  }

  // A channel is made for one transaction and never used for another.
  ghost predicate OneOwner(s: State, es: seq<Event>) {
    && (forall ch, tx :: MadeFor(s, es, ch, tx) ==> ch in Run(s, es).chans)
    && (forall ch, a, b :: MadeFor(s, es, ch, a) && MadeFor(s, es, ch, b) ==> a == b)
  }

  lemma MadeBefore(s: State, es: seq<Event>, e: Event, ch: nat, tx: TxId)
    requires MadeFor(s, es + [e], ch, tx)
    ensures MadeFor(s, es, ch, tx) || (tx in Run(s, es + [e]).notifyChan && Run(s, es + [e]).notifyChan[tx] == ch)
  {
    var more := es + [e];
    var k :| 0 <= k <= |more| && RegisteredAt(s, more, k, ch, tx);
    if k <= |es| {
      assert more[..k] == es[..k];
      assert RegisteredAt(s, es, k, ch, tx);
    } else {
      assert more[..k] == more;
    }
  }

  lemma {:induction false} RunOneOwner(s: State, es: seq<Event>)
    requires Start(s)
    ensures OneOwner(s, es)
  {
    if es == [] {
      assert es[..0] == [];
    } else {
      var init, e := es[..|es| - 1], es[|es| - 1];
      assert es == init + [e];
      RunOneOwner(s, init);
      forall ch, tx | MadeFor(s, es, ch, tx) ensures OwnedAs(s, init, e, ch, tx) {
        OwnerStep(s, init, e, ch, tx);
      }
    }
  }

  // After one more event the owner is the old one, or the channel is new.
  ghost predicate OwnedAs(s: State, es: seq<Event>, e: Event, ch: nat, tx: TxId) {
    && ch in Run(s, es + [e]).chans
    && (MadeFor(s, es, ch, tx) || (e.Register? && e.tx == tx && e.newChan == ch && ch !in Run(s, es).chans))
  }

  lemma OwnerStep(s: State, es: seq<Event>, e: Event, ch: nat, tx: TxId)
    requires OneOwner(s, es) && MadeFor(s, es + [e], ch, tx)
    ensures OwnedAs(s, es, e, ch, tx)
  {
    var r := Run(s, es);
    assert (es + [e])[..|es + [e]| - 1] == es && Run(s, es + [e]) == Step(r, e);
    MadeBefore(s, es, e, ch, tx);
    if !MadeFor(s, es, ch, tx) && tx in r.notifyChan && r.notifyChan[tx] == ch {
      MadeNow(s, es, tx);
    }
  }

  // In every run a message is a result that some worker wrote for the one transaction
  // its channel was made for.
  lemma MessageMeans(s: State, es: seq<Event>, ch: nat, tx: TxId)
    requires Start(s) && ch in Run(s, es).chans && Run(s, es).chans[ch].Some? && MadeFor(s, es, ch, tx)
    ensures WroteFor(s, es, tx, Run(s, es).chans[ch].value)
  {
    RunOrigins(s, es);
    RunOneOwner(s, es);
    assert MessageOrigin(s, es, ch);
  }

  // ---------- the notify table, in place ----------

  // waiters, workers and resolved record where the goroutines are and what they wrote;
  // the source keeps that in the goroutines and in the store.
  class NotifyTable {
    var notifyChan: map<TxId, nat>
    var chans: map<nat, Option<PollResult>>
    var made: nat
    ghost var resolved: set<(TxId, nat)>
    ghost var waiters: map<TxId, Waiter>
    ghost var workers: map<nat, Worker>

    ghost function View(): State
      reads this
    {
      State(resolved, notifyChan, chans, waiters, workers)
    }

    ghost predicate Valid()
      reads this
    {
      && (forall ch :: ch in chans ==> ch < made)
      && (forall tx :: tx in notifyChan ==> notifyChan[tx] in chans)
    }

    constructor ()
      ensures Valid() && Start(View())
    {
      notifyChan, chans, made := map[], map[], 0;
      resolved, waiters, workers := {}, map[], map[];
    }

    method RegisterNotify(tx: TxId, ghost step: nat) returns (ch: nat)
      requires Valid() && tx !in waiters
      modifies this
      ensures Valid() && tx in notifyChan && notifyChan[tx] == ch
      ensures tx in old(notifyChan) ==> notifyChan == old(notifyChan) && chans == old(chans)
      ensures tx !in old(notifyChan) ==>
        ch !in old(chans) && notifyChan == old(notifyChan)[tx := ch] && chans == old(chans)[ch := None]
      ensures View() == Step(old(View()), Register(tx, step, ch))
    {
      if tx in notifyChan {
        ch := notifyChan[tx];
      } else {
        ch := made;
        made := made + 1;
        chans := chans[ch := None];
        notifyChan := notifyChan[tx := ch];
      }
      waiters := waiters[tx := Registered(step, ch)];
    }

    method UnregisterNotify(tx: TxId)
      requires Valid() && tx in waiters && waiters[tx].Leaving?
      modifies this
      ensures Valid() && View() == Step(old(View()), Unregister(tx))
      ensures notifyChan == old(notifyChan) - {tx} && chans == old(chans)
    {
      if tx in notifyChan {
        notifyChan := notifyChan - {tx};
      }
      waiters := waiters - {tx};
      assert tx !in old(notifyChan) ==> old(notifyChan) - {tx} == old(notifyChan);
    }

    // A poll worker sets out, and has written a result.
    ghost method Enter(p: nat, tx: TxId, step: nat, result: PollResult)
      requires p !in workers
      modifies this`workers, this`resolved
      ensures View() == Step(Step(old(View()), StartPoll(p, tx, step)), WriteResult(p, result, true))
      ensures workers == old(workers)[p := Wrote(tx, step, result)]
    {
      workers := workers[p := Wrote(tx, step, result)];
      resolved := resolved + {(tx, step)};
      assert old(workers)[p := Working(tx, step)][p := Wrote(tx, step, result)] == workers;
    }

    // Look up, then a non-blocking send: a full channel keeps its message.
    method NotifyResult(tx: TxId, result: PollResult, ghost p: nat)
      requires Valid() && p in workers && workers[p].Wrote? && workers[p].tx == tx && workers[p].result == result
      modifies this
      ensures Valid() && View() == Step(Step(old(View()), LookUp(p)), Send(p))
      ensures workers == old(workers) - {p}
      ensures notifyChan == old(notifyChan)
      ensures chans == if tx in notifyChan && old(chans)[notifyChan[tx]] == None
                       then old(chans)[notifyChan[tx] := Some(result)] else old(chans)
    {
      ghost var before := workers;
      if tx in notifyChan {
        var ch := notifyChan[tx];
        if chans[ch].None? {
          chans := chans[ch := Some(result)];
        }
        assert before[p := Sending(tx, before[p].step, ch, result)] - {p} == before - {p};
      }
      workers := workers - {p};
    }
  }
}
