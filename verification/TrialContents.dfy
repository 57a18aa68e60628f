/**
 * What the samples hold: for each tick, the observation accepted for it, the actions that stood when it was left, and
 * the actors that were missing when its actions were collected.
 *
 * The record of a tick is history: what was accepted and offered during it, and when its actions were collected.
 */
module TrialContents {
  import opened Common
  import opened TrialEngine
  import opened TrialActions
  import T = TimeoutRunning

  /** The record of a tick: one for every tick there has been. */
  ghost function Record(h: History, tick: nat): TickRecord {
    if tick < |h.past| then h.past[tick] else h.now
  }

  /** What stood for each actor when the actions of the tick were collected. */
  ghost function AtCollection(r: TickRecord, n: nat): seq<Option<Action>>
    requires r.collected.Some? && r.collected.value <= |r.offers|
  {
    Standings(r.offers[..r.collected.value], n)
  }

  ghost predicate ListsHold(actors: seq<ActorConfig>, defaults: seq<nat>, unavailable: seq<nat>, r: TickRecord) {
    match r.collected
    case None => defaults == [] && unavailable == []
    case Some(k) =>
      && k <= |r.offers|
      && defaults == MissingActors(actors, AtCollection(r, |actors|), |actors|, true)
      && unavailable == MissingActors(actors, AtCollection(r, |actors|), |actors|, false)
  }

  /** The sample holds what the record of its tick says. */
  ghost predicate Holds(actors: seq<ActorConfig>, x: Sample, r: TickRecord) {
    && x.observations == r.observed
    && |x.actions| == |actors|
    && (forall i | 0 <= i < |actors| :: Shows(x.actions[i], Standing(r.offers, i), x.tick))
    && ListsHold(actors, x.defaultActors, x.unavailableActors, r)
  }

  /** It holds the record of its tick; once the tick is over, the state is the one it was left in. */
  ghost predicate SampleHolds(actors: seq<ActorConfig>, h: History, x: Sample) {
    && x.tick <= |h.past|
    && Holds(actors, x, Record(h, x.tick))
    && (x.tick < |h.past| ==> x.state == h.past[x.tick].left)
  }

  ghost predicate AllHold(actors: seq<ActorConfig>, h: History, samples: seq<Sample>) {
    forall k | 0 <= k < |samples| && !samples[k].outOfSync :: SampleHolds(actors, h, samples[k])
  }

  /** Of ticks that are over. */
  ghost predicate Over(h: History, samples: seq<Sample>) {
    forall k | 0 <= k < |samples| && !samples[k].outOfSync :: samples[k].tick < |h.past|
  }

  ghost predicate StoreHolds(actors: seq<ActorConfig>, h: History, store: Store) {
    && AllHold(actors, h, store.datalog)
    && AllHold(actors, h, store.stepData)
    && (store.stepData != [] ==>
          && Over(h, store.datalog)
          && Over(h, store.stepData[..|store.stepData| - 1])
          && !store.stepData[|store.stepData| - 1].outOfSync
          && store.stepData[|store.stepData| - 1].tick == |h.past|)
  }

  ghost predicate ContentsOk(s: Trial) {
    |s.hist.past| == s.tick && StoreHolds(s.actors, s.hist, s.store)
  }

  // ---- Each way the engine changes the samples ----

  /** The samples of ticks that are over do not depend on the current tick. */
  lemma OverStays(actors: seq<ActorConfig>, h: History, g: History, samples: seq<Sample>)
    requires AllHold(actors, h, samples) && Over(h, samples) && h.past <= g.past
    ensures AllHold(actors, g, samples) && Over(g, samples)
  {
  }

  /** The current sample and the record of the current tick change together. */
  lemma LastHolds(actors: seq<ActorConfig>, h: History, store: Store, g: History, last: Sample)
    requires StoreHolds(actors, h, store) && store.stepData != [] && g.past == h.past
    requires last.tick == |h.past| && !last.outOfSync && Holds(actors, last, g.now)
    ensures StoreHolds(actors, g, store.(stepData := store.stepData[|store.stepData| - 1 := last]))
  {
    var n := |store.stepData| - 1;
    var front, after := store.stepData[..n], store.stepData[n := last];
    OverStays(actors, h, g, store.datalog);
    assert forall k | 0 <= k < n :: front[k] == store.stepData[k];
    OverStays(actors, h, g, front);
    assert after[..n] == front;
    forall k | 0 <= k < |after| && !after[k].outOfSync ensures SampleHolds(actors, g, after[k]) {
      if k < n {
        assert SampleHolds(actors, g, front[k]);
      }
    }
  }

  /** The histories agree on what was accepted, offered and collected. */
  ghost predicate SameRecords(h: History, g: History) {
    g.past == h.past && g.now == h.now
  }

  lemma SameRecordsHold(actors: seq<ActorConfig>, h: History, g: History, store: Store)
    requires StoreHolds(actors, h, store) && SameRecords(h, g)
    ensures StoreHolds(actors, g, store)
  {
    assert forall t: nat :: Record(g, t) == Record(h, t);
  }

  lemma ClosedOver(actors: seq<ActorConfig>, h: History, g: History, stepData: seq<Sample>, state: LifeState)
    requires AllHold(actors, h, stepData) && stepData != [] && Over(h, stepData[..|stepData| - 1])
    requires stepData[|stepData| - 1].tick == |h.past| && !stepData[|stepData| - 1].outOfSync
    requires g.past == h.past + [h.now.(left := state)]
    ensures AllHold(actors, g, Closed(stepData, state)) && Over(g, Closed(stepData, state))
  {
    var n, closed := |stepData| - 1, Closed(stepData, state);
    var front := stepData[..n];
    assert forall k | 0 <= k < n :: front[k] == stepData[k];
    OverStays(actors, h, g, front);
    forall k | 0 <= k < |closed| && !closed[k].outOfSync
      ensures SampleHolds(actors, g, closed[k]) && closed[k].tick < |g.past|
    {
      if k < n {
        assert SampleHolds(actors, g, front[k]);
      } else {
        assert SampleHolds(actors, h, stepData[n]);
        assert Record(g, closed[n].tick) == h.now.(left := state);
      }
    }
  }

  lemma EmptyHolds(actors: seq<ActorConfig>, tick: nat)
    ensures Holds(actors, EmptySample(tick, |actors|), NO_RECORD)
  {
  }

  lemma NewSampleHolds(s: Trial)
    requires ContentsOk(s) && s.stepData != []
    ensures ContentsOk(WithNewSample(s.(tick := s.tick + 1)))
  {
    var t := WithNewSample(s.(tick := s.tick + 1));
    var closed, fresh_ := Closed(s.stepData, s.state), EmptySample(s.tick + 1, |s.actors|);
    ClosedOver(s.actors, s.hist, t.hist, s.stepData, s.state);
    OverStays(s.actors, s.hist, t.hist, s.datalog);
    EmptyHolds(s.actors, s.tick + 1);
    assert t.stepData == closed + [fresh_];
    assert t.stepData[..|t.stepData| - 1] == closed;
    assert SampleHolds(s.actors, t.hist, fresh_);
  }

  lemma MovedHold(actors: seq<ActorConfig>, h: History, store: Store, k: nat)
    requires StoreHolds(actors, h, store) && k < |store.stepData|
    ensures StoreHolds(actors, h, Store(store.stepData[k..], store.datalog + store.stepData[..k]))
  {
    var kept, moved, n := store.stepData[k..], store.stepData[..k], |store.stepData| - 1;
    var front := store.stepData[..n];
    assert forall i | 0 <= i < k :: moved[i] == store.stepData[i] == front[i];
    assert forall i | 0 <= i < |kept| :: kept[i] == store.stepData[k + i];
    assert kept[..|kept| - 1] == front[k..];
  }

  /** At the end everything goes to the log. */
  lemma FlushedHold(s: Trial)
    requires ContentsOk(s)
    ensures ContentsOk(Flushed(s))
  {
    var closed := Closed(s.stepData, s.state);
    assert forall k | 0 <= k < |closed| :: closed[k] == s.stepData[k].(state := closed[k].state);
    forall k | 0 <= k < |closed| && !closed[k].outOfSync ensures SampleHolds(s.actors, s.hist, closed[k]) {
      assert SampleHolds(s.actors, s.hist, s.stepData[k]);
      if k < |closed| - 1 {
        assert s.stepData[..|closed| - 1][k] == s.stepData[k];
      }
    }
  }

  lemma TerminationKeepsContents(s: Trial)
    requires ContentsOk(s)
    ensures ContentsOk(Terminated(s))
    ensures CanSwitch(s.state, Ended) ==> ContentsOk(Switched(s, Ended))
  {
    FlushedHold(s.(state := Ended));
  }

  /** Nothing that the contents depend on has changed. */
  lemma UntouchedContents(s: Trial, t: Trial)
    requires ContentsOk(s)
    requires t.tick == s.tick && t.actors == s.actors && t.store == s.store && SameRecords(s.hist, t.hist)
    ensures ContentsOk(t)
  {
    SameRecordsHold(s.actors, s.hist, t.hist, s.store);
  }

  // ---- Every step ----

  lemma TickKeepsContents(s: Trial)
    requires ContentsOk(s) && s.stepData != []
    ensures ContentsOk(WithTick(s))
  {
    if s.state.Ran() && s.tick < MAX_TICK {
      NewSampleHolds(s);
    } else {
      UntouchedContents(s, WithTick(s));
    }
  }

  lemma LastSampleHolds(s: Trial)
    requires ContentsOk(s) && s.stepData != []
    ensures Holds(s.actors, LastSample(s), s.hist.now)
    ensures LastSample(s).tick == s.tick == |s.hist.past| && !LastSample(s).outOfSync
  {
    assert SampleHolds(s.actors, s.hist, LastSample(s));
  }

  lemma ObservedKeepsContents(s: Trial, obs: ObservationSet)
    requires Wf(s) && ContentsOk(s) && ObservationVerdict(s, obs).Accepted?
    ensures ContentsOk(Observed(s, obs))
  {
    TickKeepsContents(s);
    TickKeepsWf(s);
    var t := WithTick(s);
    LastSampleHolds(t);
    LastHolds(t.actors, t.hist, t.store, WithObserved(t.hist, obs), LastSample(t).(observations := Some(obs)));
  }

  lemma AcceptedKeepsContents(u: Trial, last: bool, order: seq<T.Entry>)
    requires ContentsOk(u) && u.stepData != [] && u.bufferSize >= MIN_BUFFERED
    requires CanSwitch(u.state, Terminating) && u.state != Ended
    ensures ContentsOk(if last then Finishing(u) else Balanced(RoundStarted(u, order)))
  {
    if last {
      UntouchedContents(u, Finishing(u));
    } else {
      var v := RoundStarted(u, order);
      UntouchedContents(u, v);
      if |v.stepData| >= v.bufferSize {
        MovedHold(v.actors, v.hist, v.store, |v.stepData| - (v.bufferSize - 1));
      }
    }
  }

  lemma ObservationKeepsContents(s: Trial, obs: ObservationSet, last: bool, order: seq<T.Entry>)
    requires Wf(s) && ContentsOk(s)
    ensures ContentsOk(EnvObserved(s, obs, last, order))
  {
    match ObservationVerdict(s, obs) {
      case Dropped =>
      case Rejected => TickKeepsContents(s);
      case Accepted =>
        ObservedKeepsContents(s, obs);
        ObservedKeepsWf(s, obs);
        AcceptedKeepsContents(Observed(s, obs), last, order);
    }
  }

  /** More offers leave what was collected before alone. */
  lemma ListsStay(actors: seq<ActorConfig>, x: Sample, r: TickRecord, offer: Offer)
    requires ListsHold(actors, x.defaultActors, x.unavailableActors, r)
    ensures ListsHold(actors, x.defaultActors, x.unavailableActors, r.(offers := r.offers + [offer]))
  {
    if r.collected.Some? {
      assert (r.offers + [offer])[..r.collected.value] == r.offers[..r.collected.value];
    }
  }

  /** An offer changes the current sample by its slots only, and these show what stands. */
  lemma OfferKeepsContents(s: Trial, t: Trial, offer: Offer)
    requires ContentsOk(s) && s.stepData != [] && t.tick == s.tick && t.actors == s.actors
    requires t.hist.past == s.hist.past && t.hist.now == WithOffer(s.hist, offer).now
    requires t.stepData != [] && SlotsShow(LastSample(t).actions, Current(t), t.tick)
    requires t.store == WithLast(s, LastSample(s).(actions := LastSample(t).actions)).store
    ensures ContentsOk(t)
  {
    LastSampleHolds(s);
    ListsStay(s.actors, LastSample(s), s.hist.now, offer);
    forall i | 0 <= i < |t.actors| ensures Shows(LastSample(t).actions[i], Standing(t.hist.now.offers, i), t.tick) {
      assert Shows(LastSample(t).actions[i], Current(t)[i], t.tick);
    }
    LastHolds(s.actors, s.hist, s.store, t.hist, LastSample(s).(actions := LastSample(t).actions));
  }

  /** What an action or a departure does to the store and the records. */
  ghost predicate OffersOnly(s: Trial, t: Trial) {
    && t.tick == s.tick && t.actors == s.actors && t.hist.past == s.hist.past
    && ((t.store == s.store && t.hist.now == s.hist.now) || OneOffer(s, t))
  }

  ghost predicate OneOffer(s: Trial, t: Trial) {
    && s.stepData != [] && t.stepData != []
    && t.store == WithLast(s, LastSample(s).(actions := LastSample(t).actions)).store
    && exists offer :: t.hist.now == WithOffer(s.hist, offer).now
  }

  lemma ActionOffers(s: Trial, name: string, action: Action)
    requires s.runner.running <= |s.runner.entries|
    requires s.stepData != [] ==> |LastSample(s).actions| == |s.actors|
    ensures OffersOnly(s, ActorActed(s, name, action))
  {
    var t := ActorActed(s, name, action);
    if t.hist.now != s.hist.now {
      assert t.hist.now == WithOffer(s.hist, Offered(IndexOf(s.actors, name).value, action)).now;
      if t.store == s.store {
        assert WithLast(s, LastSample(s)).store == s.store;
      }
    }
  }

  lemma DepartureOffers(s: Trial, index: nat)
    requires index < |s.actors|
    requires s.stepData != [] ==> |LastSample(s).actions| == |s.actors|
    ensures OffersOnly(s, ActorDisengaging(s, index))
  {
    var t := ActorDisengaging(s, index);
    if t.hist.now != s.hist.now {
      assert t.hist.now == WithOffer(s.hist, Withdrawn(index)).now;
    }
  }

  lemma OffersKeepContents(s: Trial, t: Trial)
    requires ContentsOk(s) && OffersOnly(s, t) && ActionsOk(t)
    ensures ContentsOk(t)
  {
    if t.store == s.store && t.hist.now == s.hist.now {
      UntouchedContents(s, t);
    } else {
      var offer :| t.hist.now == WithOffer(s.hist, offer).now;
      OfferKeepsContents(s, t, offer);
    }
  }

  /** The sample notes who is missing as the actions are collected. */
  lemma NotedKeepsContents(s: Trial, c: Collected)
    requires ContentsOk(s) && s.stepData != []
    requires LastSample(s).defaultActors == [] && LastSample(s).unavailableActors == []
    requires c.defaults == MissingActors(s.actors, Current(s), |s.actors|, true)
    requires c.unavailable == MissingActors(s.actors, Current(s), |s.actors|, false)
    ensures ContentsOk(Noted(s, c))
  {
    var x, g := LastSample(s), WithCollected(s.hist);
    var last := x.(defaultActors := x.defaultActors + c.defaults,
                   unavailableActors := x.unavailableActors + c.unavailable);
    LastSampleHolds(s);
    assert s.hist.now.offers[..|s.hist.now.offers|] == s.hist.now.offers;
    assert Holds(s.actors, last, g.now);
    LastHolds(s.actors, s.hist, s.store, g, last);
  }

  lemma SendKeepsContents(s: Trial, last: bool)
    requires ContentsOk(s) && s.stepData != [] && SlotsShow(LastSample(s).actions, Current(s), s.tick)
    requires LastSample(s).defaultActors == [] && LastSample(s).unavailableActors == []
    ensures ContentsOk(Sent(s, CollectedNow(s), last))
  {
    var c := CollectedNow(s);
    CollectCorrect(s.actors, LastSample(s).actions, Current(s), s.tick, |s.actors|);
    NotedKeepsContents(s, c);
    TerminationKeepsContents(Noted(s, c));
    if !c.missingRequired {
      UntouchedContents(Noted(s, c), Sent(s, c, last));
    }
  }

  lemma ProcessKeepsContents(s: Trial)
    requires HasSample(s) && ContentsOk(s) && ActionsOk(s)
    ensures ContentsOk(ProcessActions(s))
  {
    var u := s.(processing := false, lastActionTick := s.tick);
    UntouchedContents(s, u);
    if s.nbActed < s.nbAvailable || s.lastActionTick >= s.tick {
      UntouchedContents(s, ProcessActions(s));
    } else if u.state != Ended {
      if !LastActions(u) {
        SendKeepsContents(u, false);
      } else if CanSwitch(u.state, Terminating) {
        UntouchedContents(u, Switched(u, Terminating));
        SendKeepsContents(Switched(u, Terminating), true);
      } else {
        TerminationKeepsContents(u);
      }
    }
  }

  lemma RewardKeepsContents(s: Trial, reward: Reward)
    requires ContentsOk(s)
    ensures ContentsOk(RewardReceived(s, reward))
  {
    var t := RewardReceived(s, reward);
    RewardedStore(s, reward);
    var a, b := s.stepData, t.stepData;
    forall k | 0 <= k < |b| && !b[k].outOfSync ensures SampleHolds(t.actors, t.hist, b[k]) {
      assert SampleHolds(s.actors, s.hist, a[k]);
    }
    forall k | 0 <= k < |t.datalog| && !t.datalog[k].outOfSync ensures SampleHolds(t.actors, t.hist, t.datalog[k]) {
      assert SampleHolds(s.actors, s.hist, s.datalog[k]);
    }
    if b != [] {
      forall k | 0 <= k < |b| - 1 && !b[k].outOfSync ensures b[..|b| - 1][k].tick < |t.hist.past| {
        assert a[..|a| - 1][k] == a[k];
      }
    }
  }

  /** A reward changes the rewards of a sample, or adds one out of sync to the log. */
  lemma RewardedStore(s: Trial, reward: Reward)
    ensures var t := RewardReceived(s, reward);
            && t.tick == s.tick && t.actors == s.actors && SameRecords(s.hist, t.hist)
            && |t.stepData| == |s.stepData|
            && (forall k | 0 <= k < |s.stepData| ::
                  t.stepData[k] == s.stepData[k].(rewards := t.stepData[k].rewards))
            && s.datalog <= t.datalog
            && (forall k | |s.datalog| <= k < |t.datalog| :: t.datalog[k].outOfSync)
  {
  }

  lemma NextKeepsContents(s: Trial, step: Step)
    requires Wf(s) && ActionsOk(s) && ContentsOk(s) && Enabled(s, step)
    ensures ContentsOk(Next(s, step))
  {
    match step {
      case ObservationStep(obs, last, order) => ObservationKeepsContents(s, obs, last, order);
      case ActionStep(name, action) =>
        ActionOffers(s, name, action);
        ActionKeepsActions(s, name, action);
        OffersKeepContents(s, Next(s, step));
      case RewardStep(reward) => RewardKeepsContents(s, reward);
      case DisengageStep(index) =>
        DepartureOffers(s, index);
        DisengageKeepsActions(s, index);
        OffersKeepContents(s, Next(s, step));
      case ProcessStep => ProcessKeepsContents(s);
      case TerminateStep => TerminationKeepsContents(s);
      case FinishStep =>
        TerminationKeepsContents(s);
        UntouchedContents(Switched(s, Ended), Next(s, step));
      case TimeOutStep => UntouchedContents(s, Next(s, step));
      case _ =>
        QuietStep(s, step);
        UntouchedContents(s, Next(s, step));
    }
  }

  lemma {:induction false} RunKeepsContents(s: Trial, steps: seq<Step>)
    requires Wf(s) && ActionsOk(s) && ContentsOk(s)
    ensures Run(s, steps).Some? ==> ContentsOk(Run(s, steps).value)
    decreases |steps|
  {
    if steps != [] && Enabled(s, steps[0]) {
      NextKeepsWf(s, steps[0]);
      NextKeepsActions(s, steps[0]);
      NextKeepsContents(s, steps[0]);
      RunKeepsContents(Next(s, steps[0]), steps[1..]);
    }
  }

  lemma ReachableContents(s: Trial)
    requires Reachable(s)
    ensures ContentsOk(s)
  {
    var p: Params, steps: seq<Step> :| ReachedBy(s, p, steps);
    StartIsWf(p);
    assert forall i: nat :: Standing([], i).None?;
    EmptyHolds(p.actors, 0);
    RunKeepsContents(Started(p), steps);
  }

  // ---- The theorem ----

  /**
   * Over every run: each in-sync sample, logged or buffered, holds the observation accepted for its tick (none if none
   * was), for each actor the action that stands for the tick, and the actors that were missing when the actions of the
   * tick were collected; once the tick is over it has the state that the tick was left in.
   */
  lemma SamplesHoldTheirTicks(s: Trial, k: nat)
    requires Reachable(s) && k < |s.datalog + s.stepData| && !(s.datalog + s.stepData)[k].outOfSync
    ensures var x, h, actors := (s.datalog + s.stepData)[k], s.hist, s.actors;
            && |h.past| == s.tick && x.tick <= s.tick
            && var r := if x.tick < s.tick then h.past[x.tick] else h.now;
            && x.observations == r.observed
            && |x.actions| == |actors|
            && (forall i | 0 <= i < |actors| ::
                  match Standing(r.offers, i)
                  case Some(action) => x.actions[i] == action
                  case None => x.actions[i].tick == NO_DATA_TICK)
            && (r.collected.None? ==> x.defaultActors == [] && x.unavailableActors == [])
            && (r.collected.Some? ==>
                  && r.collected.value <= |r.offers|
                  && var standing := Standings(r.offers[..r.collected.value], |actors|);
                  && x.defaultActors == MissingActors(actors, standing, |actors|, true)
                  && x.unavailableActors == MissingActors(actors, standing, |actors|, false))
            && (x.tick < s.tick ==> x.state == r.left)
  {
    ReachableContents(s);
    var x := (s.datalog + s.stepData)[k];
    assert SampleHolds(s.actors, s.hist, x) by {
      if k < |s.datalog| {
        assert x == s.datalog[k];
      } else {
        assert x == s.stepData[k - |s.datalog|];
      }
    }
    assert forall i | 0 <= i < |s.actors| :: Shows(x.actions[i], Standing(Record(s.hist, x.tick).offers, i), x.tick);
  }

  // ---- What each call is taken for ----

  /** The tick a call gives is the one it is for, or left to the engine. */
  predicate ForTick(tick: int, current: nat) {
    tick == -1 || tick == current
  }

  /** The tick is over when new observations come. */
  predicate Moves(s: Trial) {
    (s.state == Running || s.state == Terminating) && s.tick < MAX_TICK
  }

  predicate Taken(s: Trial, obs: ObservationSet) {
    (s.state == Pending && ForTick(obs.tick, s.tick)) || (Moves(s) && ForTick(obs.tick, s.tick + 1))
  }

  /** The ticks and their records once observations have come. */
  ghost predicate TickFollows(s: Trial, t: Trial, observed: Option<ObservationSet>) {
    && t.tick == (if Moves(s) then s.tick + 1 else s.tick)
    && t.hist.past == (if Moves(s) then s.hist.past + [s.hist.now.(left := s.state)] else s.hist.past)
    && t.hist.now.observed == (if observed.Some? then observed else if Moves(s) then None else s.hist.now.observed)
    && t.dispatched == s.dispatched
  }

  lemma TickIsOpened(s: Trial)
    requires s.state.Started() && s.state != Ended
    ensures var t := WithTick(s);
            && TickFollows(s, t, None) && t.state == (if s.state == Pending then Running else s.state)
            && t.finishing == s.finishing && t.runner == s.runner
  {
  }

  lemma ObservationIsKept(s: Trial, obs: ObservationSet)
    requires ObservationVerdict(s, obs).Accepted? && WithTick(s).stepData != []
    requires s.state == Pending ==> s.stepData != []
    ensures var t, u := WithTick(s), Observed(s, obs);
            u == t.(store := u.store, hist := WithObserved(t.hist, obs))
  {
  }

  lemma AcceptedIsFollowed(u: Trial, last: bool, order: seq<T.Entry>)
    requires u.bufferSize > 0 && (u.state == Running || u.state == Terminating)
    ensures var t := if last then Finishing(u) else Balanced(RoundStarted(u, order));
            && t.tick == u.tick && SameRecords(u.hist, t.hist) && t.dispatched == u.dispatched
            && t.state == (if last then Terminating else u.state)
            && t.finishing == u.finishing + (if last then 1 else 0)
            && (!last ==> t.hist.started)
            && t.runner == (if last then u.runner else T.Start(u.runner, order))
  {
  }

  lemma VerdictMeans(s: Trial, obs: ObservationSet)
    requires s.state.Started() && s.tick <= MAX_TICK
    ensures s.state in {Pending, Running, Terminating, Ended}
    ensures ObservationVerdict(s, obs) ==
              if s.state == Ended then Dropped else if Taken(s, obs) then Accepted else Rejected
  {
  }

  /** What has become of the round when the observations are taken, or not. */
  ghost predicate RoundFollows(s: Trial, t: Trial, taken: bool, last: bool, order: seq<T.Entry>) {
    && t.state == (if taken && last then Terminating else if s.state == Pending then Running else s.state)
    && t.finishing == s.finishing + (if taken && last then 1 else 0)
    && t.runner == (if taken && !last then T.Start(s.runner, order) else s.runner)
    && (taken && !last ==> t.hist.started)
  }

  lemma TakenIsFollowed(s: Trial, obs: ObservationSet, last: bool, order: seq<T.Entry>)
    requires Wf(s) && Taken(s, obs) && s.state != Ended
    ensures var t := EnvObserved(s, obs, last, order);
            TickFollows(s, t, Some(obs)) && RoundFollows(s, t, true, last, order)
  {
    VerdictMeans(s, obs);
    TickIsOpened(s);
    ObservedKeepsWf(s, obs);
    ObservationIsKept(s, obs);
    AcceptedIsFollowed(Observed(s, obs), last, order);
  }

  /**
   * Observations are taken before the end: the first ones for the current tick, any later ones for the next tick, up to
   * the largest one.  A refused call still starts the trial, or leaves the tick.
   */
  lemma ObservationIsTaken(s: Trial, obs: ObservationSet, last: bool, order: seq<T.Entry>)
    requires Reachable(s) && Wf(s) && Enabled(s, ObservationStep(obs, last, order))
    ensures s.state in {Pending, Running, Terminating, Ended}
    ensures var t := Next(s, ObservationStep(obs, last, order));
            && TickFollows(s, t, if Taken(s, obs) then Some(obs) else None)
            && RoundFollows(s, t, Taken(s, obs), last, order)
  {
    VerdictMeans(s, obs);
    if Taken(s, obs) {
      TakenIsFollowed(s, obs, last, order);
    } else if s.state != Ended {
      TickIsOpened(s);
    }
  }

  /**
   * An action is taken before the end when its actor is one of the trial's and its tick is the current one; it counts
   * for its actor when no other action of the actor stands.
   */
  lemma ActionIsTaken(s: Trial, name: string, action: Action, i: nat)
    requires Reachable(s) && Wf(s) && i < |s.actors| && s.actors[i].name == name
    ensures var t := Next(s, ActionStep(name, action));
            var taken := s.state != Ended && ForTick(action.tick, s.tick);
            && t.hist.now == (if taken then WithOffer(s.hist, Offered(i, action)).now else s.hist.now)
            && t.hist.past == s.hist.past && t.state == s.state && t.tick == s.tick
            && t.hist.counted ==
                 s.hist.counted + (if taken && Standing(s.hist.now.offers, i).None? then [i] else [])
            && t.runner ==
                 (if taken && Standing(s.hist.now.offers, i).None? then T.Signal(s.runner, i).runner else s.runner)
  {
    ReachableActions(s);
    NameIsFound(s.actors, i);
    assert IndexOf(s.actors, name) == Some(i);
    if s.state != Ended {
      assert Shows(LastSample(s).actions[i], Current(s)[i], s.tick);
    }
    assert s.hist.counted + [] == s.hist.counted;
  }

  lemma NameIsFound(actors: seq<ActorConfig>, i: nat)
    requires DistinctNames(actors) && i < |actors|
    ensures IndexOf(actors, actors[i].name) == Some(i)
  {
    var found := IndexOf(actors, actors[i].name);
    assert found.Some?;
  }

  /** An action of a name that no actor has changes nothing. */
  lemma StrangerIsIgnored(s: Trial, name: string, action: Action)
    requires Wf(s) && forall i | 0 <= i < |s.actors| :: s.actors[i].name != name
    ensures Next(s, ActionStep(name, action)) == s
  {
  }

  /** An actor that leaves before the trial is ending has its action withdrawn and is no longer waited for. */
  lemma DepartureIsTaken(s: Trial, index: nat)
    requires Reachable(s) && Wf(s) && Enabled(s, DisengageStep(index))
    ensures var t := Next(s, DisengageStep(index));
            var taken := s.state == Pending || s.state == Running;
            && t.hist.now == (if taken then WithOffer(s.hist, Withdrawn(index)).now else s.hist.now)
            && t.hist.past == s.hist.past && t.state == s.state && t.tick == s.tick
            && t.nbAvailable == s.nbAvailable - (if taken then 1 else 0)
            && t.hist.withdrawn == s.hist.withdrawn + (if taken then {index} else {})
            && t.signalled == (s.signalled || taken)
            && t.runner.toRemove == s.runner.toRemove + (if taken then [index] else [])
            && t.disengaged == s.disengaged + {index}
  {
  }
}
