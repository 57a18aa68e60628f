/**
 * The observable list: items are appended, the last one ends the list, and any number of observers each
 * receive the items from a position on.
 *
 * Steps are those of the code between two lock operations or channel operations.  `reopened` is history: it
 * tells that an item was appended to an ended list.
 */
module ObservableLists {
  import opened Common
  import O = Observables

  datatype Item = Item(body: bytes)

  datatype Pc =
    | Called
    | EndedSeen
    | ToSubscribe
    | Looking
    | Sending(pending: seq<Item>, last: bool)
    | Waiting
    | Returned
    | Cancelled
    | Crashed

  /** A call of `Observe`; `next` is the position it will read from. */
  datatype Observation = Observation(from: nat, next: nat, delivered: seq<Item>, pc: Pc)

  datatype List = List(items: seq<Item>, ended: bool, reopened: bool)

  datatype System = System(list: List, observable: O.Observable, observations: map<nat, Observation>)

  datatype Step =
    | AppendStep(item: Item, last: bool)
    | CallStep(id: nat, from: nat)
    | HasEndedStep(id: nat)
    | ReadEndedStep(id: nat)
    | SubscribeStep(id: nat)
    | ReadStep(id: nat)
    | SendStep(id: nat)
    | SentStep(id: nat)
    | ReceiveStep(id: nat)
    | CancelStep(id: nat)
    | UnsubscribeStep(id: nat)
    | BeginEmitStep(append: nat)
    | EmitToStep(append: nat, id: nat)
    | EndEmitStep(append: nat)

  ghost predicate At(s: System, id: nat, pc: Pc) {
    id in s.observations && s.observations[id].pc == pc
  }

  ghost predicate Enabled(s: System, step: Step) {
    match step
    case AppendStep(_, _) => true
    case CallStep(id, _) => id !in s.observations
    case HasEndedStep(id) => At(s, id, Called)
    case ReadEndedStep(id) => At(s, id, EndedSeen)
    case SubscribeStep(id) => At(s, id, ToSubscribe) && O.Enabled(s.observable, O.Subscribe(id))
    case ReadStep(id) => At(s, id, Looking) && O.Enabled(s.observable, O.Look(id))
    case SendStep(id) => id in s.observations && s.observations[id].pc.Sending? && s.observations[id].pc.pending != []
    case SentStep(id) => id in s.observations && s.observations[id].pc.Sending? && s.observations[id].pc.pending == []
    case ReceiveStep(id) => At(s, id, Waiting) && O.Enabled(s.observable, O.Receive(id))
    case CancelStep(id) =>
      At(s, id, Waiting) ||
      (id in s.observations && s.observations[id].pc.Sending? && s.observations[id].pc.pending != [])
    case UnsubscribeStep(id) =>
      (At(s, id, Returned) || At(s, id, Cancelled)) && O.Enabled(s.observable, O.Unsubscribe(id))
    case BeginEmitStep(i) => O.Enabled(s.observable, O.BeginEmit(i))
    case EmitToStep(i, id) => O.Enabled(s.observable, O.EmitTo(i, id))
    case EndEmitStep(i) => O.Enabled(s.observable, O.EndEmit(i))
  }

  function Appended(l: List, item: Item, last: bool): List {
    List(l.items + [item], last, l.reopened || l.ended)
  }

  /** What one look at the list gives an observer: the items it has not read. */
  function Unread(l: List, next: nat): seq<Item> {
    if next <= |l.items| then l.items[next..] else []
  }

  function AfterRead(l: List, next: nat): nat {
    if next <= |l.items| then |l.items| else next
  }

  /** The part of a step inside one observation. */
  function Observing(l: List, b: Observation, step: Step): Observation {
    match step
    case HasEndedStep(_) => b.(pc := if l.ended then EndedSeen else ToSubscribe)
    case ReadEndedStep(_) =>
      if b.from <= |l.items| then b.(next := |l.items|, pc := Sending(l.items[b.from..], true)) else b.(pc := Crashed)
    case SubscribeStep(_) => b.(pc := Looking)
    case ReadStep(_) => b.(next := AfterRead(l, b.next), pc := Sending(Unread(l, b.next), l.ended))
    case SendStep(_) =>
      if b.pc.Sending? && b.pc.pending != []
      then b.(delivered := b.delivered + [b.pc.pending[0]], pc := Sending(b.pc.pending[1..], b.pc.last))
      else b
    case SentStep(_) => if b.pc.Sending? then b.(pc := if b.pc.last then Returned else Waiting) else b
    case ReceiveStep(_) => b.(pc := Looking)
    case CancelStep(_) => b.(pc := Cancelled)
    case _ => b
  }

  /** The part of a step inside the observable. */
  function Announcing(step: Step): Option<O.Step> {
    match step
    case AppendStep(_, _) => Some(O.Mutate)
    case SubscribeStep(id) => Some(O.Subscribe(id))
    case ReadStep(id) => Some(O.Look(id))
    case ReceiveStep(id) => Some(O.Receive(id))
    case UnsubscribeStep(id) => Some(O.Unsubscribe(id))
    case BeginEmitStep(i) => Some(O.BeginEmit(i))
    case EmitToStep(i, id) => Some(O.EmitTo(i, id))
    case EndEmitStep(i) => Some(O.EndEmit(i))
    case _ => None
  }

  function ObserverOf(step: Step): Option<nat> {
    match step
    case HasEndedStep(id) => Some(id)
    case ReadEndedStep(id) => Some(id)
    case SubscribeStep(id) => Some(id)
    case ReadStep(id) => Some(id)
    case SendStep(id) => Some(id)
    case SentStep(id) => Some(id)
    case ReceiveStep(id) => Some(id)
    case CancelStep(id) => Some(id)
    case _ => None
  }

  ghost function Next(s: System, step: Step): System
    requires Enabled(s, step)
  {
    System(
      if step.AppendStep? then Appended(s.list, step.item, step.last) else s.list,
      if Announcing(step).Some? then O.Next(s.observable, Announcing(step).value) else s.observable,
      if step.CallStep? then s.observations[step.id := Observation(step.from, step.from, [], Called)]
      else if ObserverOf(step).Some? then
        s.observations[ObserverOf(step).value := Observing(s.list, s.observations[ObserverOf(step).value], step)]
      else s.observations)
  }

  // ---- What every step keeps ----

  ghost function Pending(b: Observation): seq<Item> {
    if b.pc.Sending? then b.pc.pending else []
  }

  /** What was read so far is a contiguous run of items, the first part of which has been delivered. */
  ghost predicate RunOfItems(l: List, b: Observation) {
    && b.from <= b.next
    && (b.pc.Called? || b.pc.EndedSeen? || b.pc.ToSubscribe? ==> b.next == b.from && b.delivered == [])
    && (b.next > |l.items| ==> b.next == b.from && b.delivered + Pending(b) == [])
    && (b.next <= |l.items| ==>
          if b.pc.Cancelled? then b.delivered <= l.items[b.from..b.next]
          else b.delivered + Pending(b) == l.items[b.from..b.next])
  }

  /** The whole list has been read, and it is ended for good. */
  ghost predicate ReadToTheEnd(l: List, b: Observation) {
    !l.reopened ==> l.ended && b.next >= |l.items|
  }

  ghost predicate EndKnown(l: List, b: Observation) {
    match b.pc
    case EndedSeen => !l.reopened ==> l.ended
    case Sending(_, last) => last ==> ReadToTheEnd(l, b)
    case Returned => ReadToTheEnd(l, b)
    case Crashed => !l.reopened ==> l.ended && b.from > |l.items|
    case _ => true
  }

  /** What the observer saw when it last looked at the list, `looked` items long. */
  ghost predicate LookedAt(l: List, b: Observation, looked: nat, last: bool) {
    looked <= |l.items| && looked <= b.next && (looked == |l.items| ==> last == l.ended)
  }

  ghost predicate LooksOk(l: List, b: Observation, observers: map<nat, O.Observer>, id: nat) {
    match b.pc
    case Called => id !in observers
    case EndedSeen => id !in observers
    case ToSubscribe => id !in observers
    case Sending(_, last) =>
      if id in observers then observers[id].looked.Some? && LookedAt(l, b, observers[id].looked.value, last) else last
    case Looking => id in observers
    case Waiting =>
      id in observers && observers[id].looked.Some? && LookedAt(l, b, observers[id].looked.value, false)
    case _ => true
  }

  ghost predicate ObservationOk(s: System, id: nat)
    requires id in s.observations
  {
    var b := s.observations[id];
    RunOfItems(s.list, b) && EndKnown(s.list, b) && LooksOk(s.list, b, s.observable.observers, id)
  }

  ghost predicate Inv(s: System) {
    && |s.list.items| == |s.observable.emissions|
    && O.Informed(s.observable)
    && (forall id | id in s.observations :: ObservationOk(s, id))
    && (forall id | id in s.observable.observers :: id in s.observations)
  }

  lemma AppendKeepsRun(l: List, b: Observation, item: Item, last: bool)
    requires RunOfItems(l, b) && EndKnown(l, b)
    ensures RunOfItems(Appended(l, item, last), b) && EndKnown(Appended(l, item, last), b)
  {
    if b.next <= |l.items| {
      assert (l.items + [item])[b.from..b.next] == l.items[b.from..b.next];
    }
  }

  lemma ReadKeepsRun(l: List, b: Observation)
    requires RunOfItems(l, b) && b.pc.Looking?
    ensures var c := b.(next := AfterRead(l, b.next), pc := Sending(Unread(l, b.next), l.ended));
            RunOfItems(l, c) && EndKnown(l, c)
  {
    if b.next <= |l.items| {
      assert l.items[b.from..b.next] + l.items[b.next..] == l.items[b.from..|l.items|];
    }
  }

  lemma SendKeepsRun(l: List, b: Observation)
    requires RunOfItems(l, b) && EndKnown(l, b) && b.pc.Sending? && b.pc.pending != []
    ensures var c := b.(delivered := b.delivered + [b.pc.pending[0]], pc := Sending(b.pc.pending[1..], b.pc.last));
            RunOfItems(l, c) && EndKnown(l, c)
  {
    assert b.delivered + [b.pc.pending[0]] + b.pc.pending[1..] == b.delivered + b.pc.pending;
  }

  lemma ObservingKeepsRun(s: System, step: Step)
    requires Inv(s) && Enabled(s, step) && ObserverOf(step).Some?
    ensures var b := Observing(s.list, s.observations[ObserverOf(step).value], step);
            RunOfItems(s.list, b) && EndKnown(s.list, b)
  {
    var b := s.observations[ObserverOf(step).value];
    assert ObservationOk(s, ObserverOf(step).value);
    match step {
      case ReadStep(_) => ReadKeepsRun(s.list, b);
      case SendStep(_) => SendKeepsRun(s.list, b);
      case ReadEndedStep(_) => FirstReadKeepsRun(s, b);
      case CancelStep(_) =>
        if b.next <= |s.list.items| {
          assert b.delivered <= b.delivered + Pending(b);
        }
      case _ =>
    }
  }

  lemma FirstReadKeepsRun(s: System, b: Observation)
    requires b.pc.EndedSeen? && EndKnown(s.list, b) && RunOfItems(s.list, b)
    ensures var c := Observing(s.list, b, ReadEndedStep(0)); RunOfItems(s.list, c) && EndKnown(s.list, c)
  {
    assert b.from <= |s.list.items| ==> [] + s.list.items[b.from..] == s.list.items[b.from..|s.list.items|];
  }

  /** What other steps do to the observer of an observation. */
  ghost predicate SameLook(before: map<nat, O.Observer>, after: map<nat, O.Observer>, id: nat) {
    (id in before <==> id in after) && (id in before ==> after[id].looked == before[id].looked)
  }

  lemma OthersLook(s: O.Observable, step: O.Step, id: nat)
    requires O.Enabled(s, step)
    requires match step
      case Subscribe(o) => o != id
      case Unsubscribe(o) => o != id
      case Look(o) => o != id
      case Receive(o) => o != id
      case _ => true
    ensures SameLook(s.observers, O.Next(s, step).observers, id)
  {
  }

  lemma StaysOk(s: System, n: System, id: nat)
    requires id in s.observations && id in n.observations && n.observations[id] == s.observations[id]
    requires ObservationOk(s, id) && n.list == s.list && SameLook(s.observable.observers, n.observable.observers, id)
    ensures ObservationOk(n, id)
  {
  }

  lemma AppendKeepsOthers(s: System, item: Item, last: bool, id: nat)
    requires Inv(s) && id in s.observations
    ensures ObservationOk(Next(s, AppendStep(item, last)), id)
  {
    AppendKeepsRun(s.list, s.observations[id], item, last);
  }

  lemma OtherStays(s: System, step: Step, id: nat)
    requires Inv(s) && Enabled(s, step) && id in s.observations && ObserverOf(step) != Some(id)
    requires !step.AppendStep? && !(step.UnsubscribeStep? && step.id == id)
    ensures ObservationOk(Next(s, step), id)
  {
    assert ObservationOk(s, id);
    if Announcing(step).Some? {
      OthersLook(s.observable, Announcing(step).value, id);
    }
    StaysOk(s, Next(s, step), id);
  }

  lemma OwnStepKeepsLooks(s: System, step: Step)
    requires Inv(s) && Enabled(s, step) && ObserverOf(step).Some?
    ensures var id, n := ObserverOf(step).value, Next(s, step);
            LooksOk(n.list, n.observations[id], n.observable.observers, id)
  {
    assert ObservationOk(s, ObserverOf(step).value);
  }

  lemma UnsubscribedOk(s: System, id: nat)
    requires Inv(s) && Enabled(s, UnsubscribeStep(id))
    ensures ObservationOk(Next(s, UnsubscribeStep(id)), id)
  {
    assert ObservationOk(s, id);
  }

  lemma NextKeepsObservations(s: System, step: Step, id: nat)
    requires Inv(s) && Enabled(s, step) && id in Next(s, step).observations
    ensures ObservationOk(Next(s, step), id)
  {
    if step.AppendStep? {
      AppendKeepsOthers(s, step.item, step.last, id);
    } else if ObserverOf(step) == Some(id) {
      ObservingKeepsRun(s, step);
      OwnStepKeepsLooks(s, step);
    } else if step.UnsubscribeStep? && step.id == id {
      UnsubscribedOk(s, id);
    } else if id in s.observations {
      OtherStays(s, step, id);
    }
  }

  lemma NextKeepsInv(s: System, step: Step)
    requires Inv(s) && Enabled(s, step)
    ensures Inv(Next(s, step))
  {
    if Announcing(step).Some? {
      O.NextKeepsInformed(s.observable, Announcing(step).value);
    }
    forall id | id in Next(s, step).observations ensures ObservationOk(Next(s, step), id) {
      NextKeepsObservations(s, step, id);
    }
  }

  // ---- The theorems, over every interleaving ----

  function StartSystem(): System {
    System(List([], false, false), O.NewObservable(), map[])
  }

  ghost function Run(s: System, steps: seq<Step>): (end: Option<System>)
    requires Inv(s)
    ensures end.Some? ==> Inv(end.value)
    decreases |steps|
  {
    if steps == [] then Some(s)
    else if !Enabled(s, steps[0]) then None
    else
      NextKeepsInv(s, steps[0]);
      Run(Next(s, steps[0]), steps[1..])
  }

  ghost predicate Reachable(s: System) {
    exists steps: seq<Step> :: Run(StartSystem(), steps) == Some(s)
  }

  /** An observer is sent a contiguous run of items starting at `from`, whatever is appended and when. */
  lemma DeliveryIsContiguous(s: System, id: nat)
    requires Reachable(s) && id in s.observations
    ensures var b := s.observations[id];
            && (b.delivered != [] ==> b.from <= |s.list.items|)
            && (b.from <= |s.list.items| ==> b.delivered <= s.list.items[b.from..])
  {
    assert ObservationOk(s, id);
    var b := s.observations[id];
    if b.from <= |s.list.items| && b.next <= |s.list.items| {
      assert b.delivered <= b.delivered + Pending(b);
      assert s.list.items[b.from..b.next] <= s.list.items[b.from..];
    }
  }

  /**
   * Whatever was appended and when: after a nil return everything was sent up to `next`, where the observer last read
   * the list; so everything from `from` on was sent exactly when no item was appended since that read.
   */
  lemma NilIsCompleteExactly(s: System, id: nat)
    requires Reachable(s) && At(s, id, Returned) && s.observations[id].from <= |s.list.items|
    ensures var b := s.observations[id];
            && b.from <= b.next <= |s.list.items| && b.delivered == s.list.items[b.from..b.next]
            && (b.delivered == s.list.items[b.from..] <==> b.next == |s.list.items|)
            && (!s.list.reopened ==> b.next == |s.list.items|)
  {
    assert ObservationOk(s, id);
  }

  /**
   * Without an append after the last item: a nil return means that
   * everything from `from` on was sent, and the list is ended.
   */
  lemma NilMeansComplete(s: System, id: nat)
    requires Reachable(s) && !s.list.reopened && At(s, id, Returned)
    ensures var b := s.observations[id];
            && s.list.ended
            && b.delivered == if b.from <= |s.list.items| then s.list.items[b.from..] else []
  {
    assert ObservationOk(s, id);
    var b := s.observations[id];
    if b.next <= |s.list.items| {
      assert s.list.items[b.from..b.next] == s.list.items[b.from..];
    }
  }

  /**
   * An observer waiting with no token, once every append is announced: the
   * list is not ended and nothing is left to send.
   */
  lemma NoLostItem(s: System, id: nat)
    requires Reachable(s) && At(s, id, Waiting) && id in s.observable.observers
    requires s.observable.observers[id].tokens == 0
    requires forall i | 0 <= i < |s.observable.emissions| :: s.observable.emissions[i].Emitted?
    ensures var b := s.observations[id];
            && !s.list.ended
            && b.delivered == if b.from <= |s.list.items| then s.list.items[b.from..] else []
  {
    assert ObservationOk(s, id);
    var b, n := s.observations[id], |s.observable.emissions|;
    if n > 0 {
      O.NoTokenMeansUpToDate(s.observable, id, n - 1);
    }
    if b.next <= |s.list.items| {
      assert s.list.items[b.from..b.next] == s.list.items[b.from..];
    }
  }

  /** `Observe` indexes past the items only when it is called on an ended list with a position beyond its length. */
  lemma CrashesOnlyBeyondTheEnd(s: System, id: nat)
    requires Reachable(s) && !s.list.reopened && At(s, id, Crashed)
    ensures s.list.ended && s.observations[id].from > |s.list.items|
  {
    assert ObservationOk(s, id);
  }

  /** On an ended list it does so exactly when the position is beyond the length. */
  lemma CrashesBeyondTheEnd(s: System, id: nat)
    requires At(s, id, Called) && s.list.ended
    ensures var t := Next(s, HasEndedStep(id));
            && Enabled(t, ReadEndedStep(id))
            && (At(Next(t, ReadEndedStep(id)), id, Crashed) <==> s.observations[id].from > |s.list.items|)
  {
  }

  // ---- An append after the last item ----

  lemma {:induction false} RunOneMore(s: System, steps: seq<Step>, step: Step)
    requires Inv(s) && Run(s, steps).Some? && Enabled(Run(s, steps).value, step)
    ensures Run(s, steps + [step]) == Some(Next(Run(s, steps).value, step))
    decreases |steps|
  {
    NextKeepsInv(Run(s, steps).value, step);
    if steps == [] {
      assert [step][1..] == [];
    } else {
      NextKeepsInv(s, steps[0]);
      RunOneMore(Next(s, steps[0]), steps[1..], step);
      assert (steps + [step])[1..] == steps[1..] + [step];
    }
  }

  lemma NextIsReachable(s: System, step: Step) returns (n: System)
    requires Reachable(s) && Enabled(s, step)
    ensures Reachable(n) && n == Next(s, step)
  {
    var steps: seq<Step> :| Run(StartSystem(), steps) == Some(s);
    RunOneMore(StartSystem(), steps, step);
    n := Next(s, step);
  }

  /** An observer that sends what it has read goes on to wait, or returns when the list was ended. */
  lemma {:induction false} PendingIsSent(s: System, id: nat) returns (t: System)
    requires Reachable(s) && id in s.observations && s.observations[id].pc.Sending?
    ensures Reachable(t) && t.list == s.list && t.observable == s.observable && id in t.observations
    ensures var b := s.observations[id];
            t.observations[id] == b.(delivered := b.delivered + b.pc.pending,
                                     pc := if b.pc.last then Returned else Waiting)
    decreases |s.observations[id].pc.pending|
  {
    var b := s.observations[id];
    if b.pc.pending == [] {
      t := NextIsReachable(s, SentStep(id));
      assert b.delivered + [] == b.delivered;
    } else {
      var u := NextIsReachable(s, SendStep(id));
      t := PendingIsSent(u, id);
      assert b.delivered + [b.pc.pending[0]] + b.pc.pending[1..] == b.delivered + b.pc.pending;
    }
  }

  /**
   * From every look there is a run in which nothing is appended and the observer is sent every item from its position
   * on; it then returns when the list is ended, and waits otherwise.
   */
  lemma LookCanDeliver(s: System, id: nat) returns (t: System)
    requires Reachable(s) && Enabled(s, ReadStep(id)) && s.observations[id].from <= |s.list.items|
    ensures Reachable(t) && t.list == s.list && id in t.observations
    ensures t.observations[id].delivered == s.list.items[s.observations[id].from..]
    ensures t.observations[id].pc == if s.list.ended then Returned else Waiting
  {
    assert ObservationOk(s, id);
    var b, u := s.observations[id], Next(s, ReadStep(id));
    LookReads(s.list, b);
    u := NextIsReachable(s, ReadStep(id));
    t := PendingIsSent(u, id);
  }

  /** And a token can make a waiting one look again. */
  lemma TokenCanDeliver(s: System, id: nat) returns (t: System)
    requires Reachable(s) && Enabled(s, ReceiveStep(id)) && s.observations[id].from <= |s.list.items|
    ensures Reachable(t) && t.list == s.list && id in t.observations
    ensures t.observations[id].delivered == s.list.items[s.observations[id].from..]
    ensures t.observations[id].pc == if s.list.ended then Returned else Waiting
  {
    t := NextIsReachable(s, ReceiveStep(id));
    t := LookCanDeliver(t, id);
  }

  lemma LookReads(l: List, b: Observation)
    requires RunOfItems(l, b) && b.pc.Looking? && b.from <= |l.items|
    ensures b.delivered + Unread(l, b.next) == l.items[b.from..]
  {
    if b.next <= |l.items| {
      assert l.items[b.from..b.next] + l.items[b.next..] == l.items[b.from..];
    }
  }

  /** A call on an ended list can be sent everything from its position on, and return. */
  lemma CallOnEndedCanDeliver(s: System, id: nat) returns (t: System)
    requires Reachable(s) && At(s, id, Called) && s.list.ended && s.observations[id].from <= |s.list.items|
    ensures Reachable(t) && t.list == s.list && At(t, id, Returned)
    ensures t.observations[id].delivered == s.list.items[s.observations[id].from..]
  {
    assert ObservationOk(s, id);
    var u := NextIsReachable(s, HasEndedStep(id));
    u := NextIsReachable(u, ReadEndedStep(id));
    t := PendingIsSent(u, id);
    var items := s.list.items[s.observations[id].from..];
    assert [] + items == items;
  }

  /** One observer has read all of an ended list of one item. */
  lemma OneItemRead(a: Item) returns (s: System)
    ensures Reachable(s) && s.list == List([a], true, false)
    ensures 0 in s.observations && s.observations[0] == Observation(0, 1, [], Sending([a], true))
  {
    assert Run(StartSystem(), []) == Some(StartSystem());
    s := NextIsReachable(StartSystem(), AppendStep(a, true));
    s := NextIsReachable(s, CallStep(0, 0));
    s := NextIsReachable(s, HasEndedStep(0));
    s := NextIsReachable(s, ReadEndedStep(0));
  }

  /** It has been sent that item, and has returned. */
  lemma OneItemObserved(a: Item) returns (s: System)
    ensures Reachable(s) && s.list == List([a], true, false) && At(s, 0, Returned)
    ensures s.observations[0].from == 0 && s.observations[0].delivered == [a] && s.observations[0].next == 1
  {
    s := OneItemRead(a);
    s := NextIsReachable(s, SendStep(0));
    s := NextIsReachable(s, SentStep(0));
  }

  /** An item appended to an ended list ends it no more, and an observer that has returned nil never gets it. */
  lemma AppendAfterLastIsLost(a: Item, b: Item)
    ensures exists s: System :: Reachable(s) && s.list == List([a, b], false, true) && At(s, 0, Returned)
                                && s.observations[0].from == 0 && s.observations[0].delivered == [a]
                                && s.observations[0].next == 1
  {
    var s := OneItemObserved(a);
    var t := NextIsReachable(s, AppendStep(b, false));
  }
}

/** The same as an object; an observer is sent its items by two methods, one for each way `Observe` reads them. */
module ObservableListObjects {
  import O = ObservableObjects
  import L = ObservableLists

  class ObservableList {
    var items: seq<L.Item>
    var ended: bool
    ghost var reopened: bool
    const observable: O.Observable

    ghost function View(): L.List
      reads this
    {
      L.List(items, ended, reopened)
    }

    constructor ()
      ensures View() == L.List([], false, false) && fresh(observable) && observable.observers == {}
    {
      items, ended, reopened := [], false, false;
      observable := new O.Observable();
    }

    method Append(item: L.Item, lastItem: bool)
      modifies this, observable.observers
      ensures View() == L.Appended(old(View()), item, lastItem)
      ensures observable.observers == old(observable.observers)
      ensures forall o | o in observable.observers :: o.tokens == old(o.tokens) + 1
    {
      reopened := reopened || ended;
      items := items + [item];
      ended := lastItem;
      observable.Emit();
    }

    /** One pass of the loop of `Observe`, on a list that nothing is appended to meanwhile. */
    method ObserveMore(from: nat) returns (sent: seq<L.Item>, next: nat, last: bool)
      ensures sent == L.Unread(View(), from) && next == L.AfterRead(View(), from) && last == ended
    {
      var end := |items|;
      var current: seq<L.Item> := [];
      next, last := from, ended;
      if from <= end {
        current := items[from..end];
        next := end;
      }
      sent := [];
      while |sent| < |current|
        invariant |sent| <= |current| && sent == current[..|sent|]
      {
        sent := sent + [current[|sent|]];
      }
    }

    /** `Observe` on an ended list; false stands for the crash of an index beyond the items. */
    method ObserveEnded(from: nat) returns (ok: bool, sent: seq<L.Item>)
      requires ended
      ensures ok <==> from <= |items|
      ensures ok ==> sent == items[from..]
    {
      sent := [];
      if from > |items| {
        return false, [];
      }
      var current := items[from..];
      while |sent| < |current|
        invariant |sent| <= |current| && sent == current[..|sent|]
      {
        sent := sent + [current[|sent|]];
      }
      ok := true;
    }
  }
}
