/**
 * Observers and their wake-up tokens.
 *
 * A mutation of the observed state and the emission that announces it are separate steps, and an emission reaches
 * the observers one at a time.  The set of observers cannot change during an emission: `Emit` holds the read lock
 * that `Subscribe` and `Unsubscribe` take for writing.
 */
module Observables {
  import opened Common

  /** The emission that announces a mutation. */
  datatype Emission = Awaited | Emitting(todo: set<nat>) | Emitted

  /**
   * `tokens` counts the emissions the observer has not received.  `looked` is history: the number of
   * mutations made when the observer last looked at the state, None when it is to look before it waits again.
   */
  datatype Observer = Observer(tokens: nat, looked: Option<nat>)

  /** One emission per mutation, in the order of the mutations. */
  datatype Observable = Observable(observers: map<nat, Observer>, emissions: seq<Emission>)

  function NewObservable(): Observable {
    Observable(map[], [])
  }

  predicate Quiet(s: Observable) {
    forall i | 0 <= i < |s.emissions| :: !s.emissions[i].Emitting?
  }

  datatype Step =
    | Mutate
    | BeginEmit(mutation: nat)
    | EmitTo(mutation: nat, observer: nat)
    | EndEmit(mutation: nat)
    | Subscribe(observer: nat)
    | Unsubscribe(observer: nat)
    | Look(observer: nat)
    | Receive(observer: nat)

  predicate Enabled(s: Observable, step: Step) {
    match step
    case Mutate => true
    case BeginEmit(i) => i < |s.emissions| && s.emissions[i].Awaited?
    case EmitTo(i, o) =>
      i < |s.emissions| && s.emissions[i].Emitting? && o in s.emissions[i].todo && o in s.observers
    case EndEmit(i) => i < |s.emissions| && s.emissions[i] == Emitting({})
    case Subscribe(o) => o !in s.observers && Quiet(s)
    case Unsubscribe(o) => o in s.observers && Quiet(s)
    case Look(o) => o in s.observers
    case Receive(o) => o in s.observers && s.observers[o].tokens > 0
  }

  function Next(s: Observable, step: Step): Observable
    requires Enabled(s, step)
  {
    match step
    case Mutate => s.(emissions := s.emissions + [Awaited])
    case BeginEmit(i) => s.(emissions := s.emissions[i := Emitting(s.observers.Keys)])
    case EmitTo(i, o) =>
      Observable(s.observers[o := s.observers[o].(tokens := s.observers[o].tokens + 1)],
                 s.emissions[i := Emitting(s.emissions[i].todo - {o})])
    case EndEmit(i) => s.(emissions := s.emissions[i := Emitted])
    case Subscribe(o) => s.(observers := s.observers[o := Observer(0, None)])
    case Unsubscribe(o) => s.(observers := s.observers - {o})
    case Look(o) => s.(observers := s.observers[o := s.observers[o].(looked := Some(|s.emissions|))])
    case Receive(o) => s.(observers := s.observers[o := Observer(s.observers[o].tokens - 1, None)])
  }

  /** The emission has nothing more to tell this observer. */
  ghost predicate Covers(e: Emission, o: nat) {
    e.Emitted? || (e.Emitting? && o !in e.todo)
  }

  /** An observer that has looked has a token for every mutation it may have missed and whose emission is past it. */
  ghost predicate Informed(s: Observable) {
    && (forall o, i: nat | o in s.observers && i < |s.emissions| && Covers(s.emissions[i], o) ::
          s.observers[o].looked.Some? ==> s.observers[o].tokens > 0 || s.observers[o].looked.value > i)
    && (forall i | 0 <= i < |s.emissions| && s.emissions[i].Emitting? :: s.emissions[i].todo <= s.observers.Keys)
  }

  lemma NextKeepsInformed(s: Observable, step: Step)
    requires Informed(s) && Enabled(s, step)
    ensures Informed(Next(s, step))
  {
  }

  /** An observer with no token has looked at the state after every mutation whose emission is complete. */
  lemma NoTokenMeansUpToDate(s: Observable, o: nat, i: nat)
    requires Informed(s) && o in s.observers && s.observers[o].tokens == 0 && s.observers[o].looked.Some?
    requires i < |s.emissions| && s.emissions[i].Emitted?
    ensures s.observers[o].looked.value > i
  {
    assert Covers(s.emissions[i], o);
  }
}

/** The same as objects. */
module ObservableObjects {

  class Observer {
    /** Sends on the channel that have not been received. */
    var tokens: nat

    constructor ()
      ensures tokens == 0
    {
      tokens := 0;
    }

    method Emit()
      modifies this
      ensures tokens == old(tokens) + 1
    {
      tokens := tokens + 1;
    }

    method Receive()
      requires tokens > 0
      modifies this
      ensures tokens == old(tokens) - 1
    {
      tokens := tokens - 1;
    }
  }

  class Observable {
    var observers: set<Observer>

    constructor ()
      ensures observers == {}
    {
      observers := {};
    }

    method Subscribe() returns (observer: Observer)
      modifies this
      ensures fresh(observer) && observer.tokens == 0 && observers == old(observers) + {observer}
    {
      observer := new Observer();
      observers := observers + {observer};
    }

    method Unsubscribe(observer: Observer)
      modifies this
      ensures observers == old(observers) - {observer}
    {
      observers := observers - {observer};
    }

    /** Every observer gets one more token, whatever the order of the iteration. */
    method Emit()
      modifies observers
      ensures observers == old(observers)
      ensures forall o | o in observers :: o.tokens == old(o.tokens) + 1
    {
      var todo := observers;
      while todo != {}
        invariant todo <= observers
        invariant forall o | o in observers :: o.tokens == old(o.tokens) + if o in todo then 0 else 1
        decreases |todo|
      {
        var o :| o in todo;
        o.Emit();
        todo := todo - {o};
      }
    }
  }
}

/**
 * The wait loop: look the trial up, test it, and wait for a token when the test says neither yes nor no.  The look-up
 * and the reading of the status are separate steps, and so see different states.
 */
module WaitForTrial {
  import opened Common
  import O = Observables
  import R = Rendezvous
  import A = ActorStates

  datatype Pc =
    | Ready
    | LookedUp(found: nat)
    | Blocked(found: nat, tested: nat)
    | Finished

  /** `keepsWaiting` is told the state at the look-up, and the one whose status was read. */
  datatype Waiter = Waiter(keepsWaiting: (R.Shared, R.Shared) -> bool, pc: Pc)

  /** `history` holds all states of the trial, the current one last: one per mutation, and the first. */
  datatype System = System(history: seq<R.Shared>, observable: O.Observable, waiters: map<nat, Waiter>)

  datatype Step =
    | CallStep(id: nat, keepsWaiting: (R.Shared, R.Shared) -> bool)
    | LookUpStep(id: nat)
    | TestStep(id: nat)
    | ReceiveStep(id: nat)
    | CancelStep(id: nat)
    | UnsubscribeStep(id: nat)
    | MutateStep(state: R.Shared)
    | BeginEmitStep(mutation: nat)
    | EmitToStep(mutation: nat, id: nat)
    | EndEmitStep(mutation: nat)

  ghost predicate Subscribed(s: System, id: nat) {
    id in s.waiters && id in s.observable.observers
  }

  ghost predicate Enabled(s: System, step: Step) {
    match step
    case CallStep(id, _) => id !in s.waiters && O.Enabled(s.observable, O.Subscribe(id))
    case LookUpStep(id) => Subscribed(s, id) && s.waiters[id].pc.Ready?
    case TestStep(id) => Subscribed(s, id) && s.waiters[id].pc.LookedUp? && s.waiters[id].pc.found < |s.history|
    case ReceiveStep(id) => id in s.waiters && s.waiters[id].pc.Blocked? && O.Enabled(s.observable, O.Receive(id))
    case CancelStep(id) => id in s.waiters && s.waiters[id].pc.Blocked?
    case UnsubscribeStep(id) =>
      id in s.waiters && s.waiters[id].pc.Finished? && O.Enabled(s.observable, O.Unsubscribe(id))
    case MutateStep(_) => true
    case BeginEmitStep(i) => O.Enabled(s.observable, O.BeginEmit(i))
    case EmitToStep(i, id) => O.Enabled(s.observable, O.EmitTo(i, id))
    case EndEmitStep(i) => O.Enabled(s.observable, O.EndEmit(i))
  }

  ghost function Moved(s: System, id: nat, pc: Pc): System
    requires id in s.waiters
  {
    s.(waiters := s.waiters[id := s.waiters[id].(pc := pc)])
  }

  ghost function Next(s: System, step: Step): System
    requires Enabled(s, step) && s.history != []
  {
    match step
    case CallStep(id, keepsWaiting) =>
      s.(observable := O.Next(s.observable, O.Subscribe(id)), waiters := s.waiters[id := Waiter(keepsWaiting, Ready)])
    case LookUpStep(id) =>
      Moved(s.(observable := O.Next(s.observable, O.Look(id))), id, LookedUp(|s.history| - 1))
    case TestStep(id) =>
      var w, now := s.waiters[id], |s.history| - 1;
      Moved(s, id, if w.keepsWaiting(s.history[w.pc.found], s.history[now]) then Blocked(w.pc.found, now) else Finished)
    case ReceiveStep(id) => Moved(s.(observable := O.Next(s.observable, O.Receive(id))), id, Ready)
    case CancelStep(id) => Moved(s, id, Finished)
    case UnsubscribeStep(id) => s.(observable := O.Next(s.observable, O.Unsubscribe(id)))
    case MutateStep(state) => s.(history := s.history + [state], observable := O.Next(s.observable, O.Mutate))
    case BeginEmitStep(i) => s.(observable := O.Next(s.observable, O.BeginEmit(i)))
    case EmitToStep(i, id) => s.(observable := O.Next(s.observable, O.EmitTo(i, id)))
    case EndEmitStep(i) => s.(observable := O.Next(s.observable, O.EndEmit(i)))
  }

  ghost predicate WaiterOk(w: Waiter, history: seq<R.Shared>, observers: map<nat, O.Observer>, id: nat) {
    match w.pc
    case Ready => id in observers
    case LookedUp(found) => id in observers && found < |history| && observers[id].looked == Some(found)
    case Blocked(found, tested) =>
      id in observers && found <= tested < |history| && observers[id].looked == Some(found)
      && w.keepsWaiting(history[found], history[tested])
    case Finished => true
  }

  ghost predicate Inv(s: System) {
    && |s.history| == |s.observable.emissions| + 1
    && O.Informed(s.observable)
    && forall id | id in s.waiters :: WaiterOk(s.waiters[id], s.history, s.observable.observers, id)
  }

  lemma NextKeepsInv(s: System, step: Step)
    requires Inv(s) && Enabled(s, step)
    ensures Inv(Next(s, step))
  {
    match step {
      case CallStep(id, _) => O.NextKeepsInformed(s.observable, O.Subscribe(id));
      case LookUpStep(id) => O.NextKeepsInformed(s.observable, O.Look(id));
      case ReceiveStep(id) => O.NextKeepsInformed(s.observable, O.Receive(id));
      case UnsubscribeStep(id) => O.NextKeepsInformed(s.observable, O.Unsubscribe(id));
      case MutateStep(_) => O.NextKeepsInformed(s.observable, O.Mutate);
      case BeginEmitStep(i) => O.NextKeepsInformed(s.observable, O.BeginEmit(i));
      case EmitToStep(i, id) => O.NextKeepsInformed(s.observable, O.EmitTo(i, id));
      case EndEmitStep(i) => O.NextKeepsInformed(s.observable, O.EndEmit(i));
      case _ =>
    }
  }

  function StartSystem(first: R.Shared): System {
    System([first], O.NewObservable(), map[])
  }

  ghost function Run(s: System, steps: seq<Step>): (end: Option<System>)
    requires Inv(s)
    ensures end.Some? ==> Inv(end.value)
    decreases |steps|
  {
    if steps == [] then Some(s)
    else if !Enabled(s, steps[0]) then None
    else
      NextKeepsInv(s, steps[0]);
      Run(Next(s, steps[0]), steps[1..])
  }

  /**
   * Over every interleaving: a waiter that is blocked with no token to receive tested states no older than the last
   * mutation whose emission is complete; so with every emission complete, its test still says to wait on the current
   * state.
   */
  lemma NoLostWakeUp(first: R.Shared, steps: seq<Step>, id: nat)
    requires Run(StartSystem(first), steps).Some?
    requires var s := Run(StartSystem(first), steps).value;
             && id in s.waiters && s.waiters[id].pc.Blocked?
             && id in s.observable.observers && s.observable.observers[id].tokens == 0
    ensures var s := Run(StartSystem(first), steps).value;
            var w, now := s.waiters[id], s.history[|s.history| - 1];
            && (forall i | 0 <= i < |s.observable.emissions| && s.observable.emissions[i].Emitted? ::
                  w.pc.tested >= w.pc.found > i)
            && ((forall i | 0 <= i < |s.observable.emissions| :: s.observable.emissions[i].Emitted?) ==>
                  w.keepsWaiting(now, now))
  {
    var s := Run(StartSystem(first), steps).value;
    assert WaiterOk(s.waiters[id], s.history, s.observable.observers, id);
    forall i: nat | i < |s.observable.emissions| && s.observable.emissions[i].Emitted?
      ensures s.waiters[id].pc.found > i
    {
      O.NoTokenMeansUpToDate(s.observable, id, i);
    }
    var n := |s.observable.emissions|;
    if n > 0 && s.observable.emissions[n - 1].Emitted? {
      assert s.waiters[id].pc.found > n - 1;
    }
  }

  /** A test blocks the waiter exactly when it says to go on waiting; a token makes it look again. */
  lemma TestDecides(s: System, id: nat)
    requires s.history != [] && id in s.waiters
    ensures Enabled(s, TestStep(id)) ==>
              var w, now := s.waiters[id], |s.history| - 1;
              Next(s, TestStep(id)).waiters[id].pc ==
                if w.keepsWaiting(s.history[w.pc.found], s.history[now]) then Blocked(w.pc.found, now) else Finished
    ensures Enabled(s, LookUpStep(id)) ==> Next(s, LookUpStep(id)).waiters[id].pc == LookedUp(|s.history| - 1)
    ensures Enabled(s, ReceiveStep(id)) ==> Next(s, ReceiveStep(id)).waiters[id].pc == Ready
  {
  }

  // ---- The tests given to the loop ----

  /** `RequestAct` goes on waiting while the actor is to act. */
  predicate RequestActWaits(found: R.Shared, tested: R.Shared) {
    found.presence.Listed? && tested.actor.status.WaitForSentEvent?
  }

  /** `Act` goes on waiting while the actor is to receive an event. */
  predicate ActWaits(found: R.Shared, tested: R.Shared) {
    found.presence.Listed? && tested.actor.status.WaitForRecvEvent?
  }

  /** `StartTrial` goes on waiting for the actor to join. */
  predicate StartWaits(found: R.Shared, tested: R.Shared) {
    !found.presence.Listed? || tested.actor.status.Started?
  }

  /** `JoinTrial` goes on waiting for the trial to start and for its first event. */
  predicate JoinWaits(found: R.Shared, tested: R.Shared) {
    !found.presence.Listed? || tested.actor.status.Joined? || tested.actor.status.WaitForRecvEvent?
  }

  /** These are the tests by which the calls of the rendezvous go back to waiting. */
  lemma TestsOfTheRendezvous(found: R.Shared, tested: R.Shared, e: A.Event, k: nat)
    ensures RequestActWaits(found, tested) <==>
      && R.StreamStep(found, R.RequestWaiting(e, k)).1 == R.RequestTesting(e, k)
      && R.StreamStep(tested, R.RequestTesting(e, k)).1 == R.RequestWaiting(e, k)
    ensures ActWaits(found, tested) <==>
      && R.RequestStep(found, R.ActWaiting(e, k)).1 == R.ActTesting(e, k)
      && R.RequestStep(tested, R.ActTesting(e, k)).1 == R.ActWaiting(e, k)
    ensures StartWaits(found, tested) <==>
      || R.StreamStep(found, R.StartWaiting).1 == R.StartWaiting
      || (&& R.StreamStep(found, R.StartWaiting).1 == R.StartTesting
          && R.StreamStep(tested, R.StartTesting).1 == R.StartWaiting)
    ensures JoinWaits(found, tested) <==>
      || R.RequestStep(found, R.JoinWaiting).1 == R.JoinWaiting
      || (&& R.RequestStep(found, R.JoinWaiting).1 == R.JoinTesting
          && R.RequestStep(tested, R.JoinTesting).1 == R.JoinWaiting)
  {
  }
}
