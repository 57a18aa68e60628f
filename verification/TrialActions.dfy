/** Action sets: one entry per actor, from the first action that still stands, at most one set per tick. */
module TrialActions {
  import opened Common
  import opened TrialEngine
  import opened TrialConservation
  import T = TimeoutRunning

  /** The action of actor `i` that stands after the offers: later ones are ignored, a withdrawal clears it. */
  ghost function Standing(offers: seq<Offer>, i: nat): Option<Action> {
    if offers == [] then None
    else
      var before, last := Standing(offers[..|offers| - 1], i), offers[|offers| - 1];
      if last.index != i then before
      else if last.Withdrawn? then None
      else if before.None? then Some(last.action)
      else before
  }

  /** `offers[k]` is the first action of actor `i` since it last withdrew, and it has not withdrawn since. */
  ghost predicate FirstStanding(offers: seq<Offer>, i: nat, k: nat) {
    && k < |offers| && offers[k].Offered? && offers[k].index == i
    && (forall j | k < j < |offers| :: offers[j] != Withdrawn(i))
    && (forall j | 0 <= j < k && offers[j].Offered? && offers[j].index == i ::
          exists w :: j < w < k && offers[w] == Withdrawn(i))
  }

  /** The action that stands is the first one since the actor's last withdrawal; none stands when all are withdrawn. */
  lemma {:induction false} StandingIsFirst(offers: seq<Offer>, i: nat)
    ensures Standing(offers, i).Some? ==>
              exists k: nat :: FirstStanding(offers, i, k) && Standing(offers, i) == Some(offers[k].action)
    ensures Standing(offers, i).None? ==>
              forall j | 0 <= j < |offers| && offers[j].Offered? && offers[j].index == i ::
                exists w :: j < w < |offers| && offers[w] == Withdrawn(i)
  {
    if offers != [] {
      var front, n := offers[..|offers| - 1], |offers| - 1;
      StandingIsFirst(front, i);
      if Standing(front, i).Some? {
        var k: nat :| FirstStanding(front, i, k) && Standing(front, i) == Some(front[k].action);
        if offers[n] == Withdrawn(i) {
          forall j | 0 <= j < n && offers[j].Offered? && offers[j].index == i
            ensures exists w :: j < w <= n && offers[w] == Withdrawn(i)
          {
            assert j < n && offers[n] == Withdrawn(i);
          }
        } else {
          FirstStays(offers, i, k);
        }
      } else {
        forall j | 0 <= j < n && offers[j].Offered? && offers[j].index == i
          ensures exists w :: j < w < n && offers[w] == Withdrawn(i)
        {
          assert front[j].Offered?;
          var w :| j < w < n && front[w] == Withdrawn(i);
          assert offers[w] == Withdrawn(i);
        }
        if offers[n].Offered? && offers[n].index == i {
          assert FirstStanding(offers, i, n);
        }
      }
    }
  }

  lemma FirstStays(offers: seq<Offer>, i: nat, k: nat)
    requires offers != [] && FirstStanding(offers[..|offers| - 1], i, k)
    requires offers[|offers| - 1] != Withdrawn(i)
    ensures FirstStanding(offers, i, k)
  {
    var front := offers[..|offers| - 1];
    forall j | 0 <= j < k && offers[j].Offered? && offers[j].index == i
      ensures exists w :: j < w < k && offers[w] == Withdrawn(i)
    {
      assert front[j].Offered?;
      var w :| j < w < k && front[w] == Withdrawn(i);
      assert offers[w] == Withdrawn(i);
    }
  }

  /** What stands for each of the `n` actors. */
  ghost function Standings(offers: seq<Offer>, n: nat): (standing: seq<Option<Action>>)
    ensures |standing| == n && forall i | 0 <= i < n :: standing[i] == Standing(offers, i)
  {
    seq(n, i requires 0 <= i < n => Standing(offers, i))
  }

  // ---- The action set built from the slots ----

  /** What an actor contributes to an action set when `standing` is its action. */
  ghost function Contribution(actor: ActorConfig, standing: Option<Action>): bytes {
    if standing.Some? then standing.value.content
    else if actor.defaultAction.Some? then actor.defaultAction.value
    else []
  }

  /** A slot shows what stands: the action itself, or no data. */
  ghost predicate Shows(slot: Action, standing: Option<Action>, tick: nat) {
    match standing
    case None => slot.tick == NO_DATA_TICK
    case Some(action) => slot == action && ActionTickFits(action.tick, tick)
  }

  ghost predicate SlotsShow(slots: seq<Action>, standing: seq<Option<Action>>, tick: nat) {
    |slots| == |standing| && forall i | 0 <= i < |slots| :: Shows(slots[i], standing[i], tick)
  }

  ghost predicate Missing(actor: ActorConfig, standing: Option<Action>, hasDefault: bool) {
    standing.None? && actor.defaultAction.Some? == hasDefault
  }

  /** Those of the first `n` actors that are missing, with or without a default. */
  ghost function MissingActors(
    actors: seq<ActorConfig>, standing: seq<Option<Action>>, n: nat, hasDefault: bool): seq<nat>
    requires n <= |actors| == |standing|
  {
    if n == 0 then []
    else
      MissingActors(actors, standing, n - 1, hasDefault)
      + if Missing(actors[n - 1], standing[n - 1], hasDefault) then [n - 1] else []
  }

  lemma {:induction false} MissingActorsAreExact(
    actors: seq<ActorConfig>, standing: seq<Option<Action>>, n: nat, hasDefault: bool)
    requires n <= |actors| == |standing|
    ensures var list := MissingActors(actors, standing, n, hasDefault);
            && (forall i, j | 0 <= i < j < |list| :: list[i] < list[j])
            && (forall i: nat :: i in list <==> i < n && Missing(actors[i], standing[i], hasDefault))
  {
    if n > 0 {
      MissingActorsAreExact(actors, standing, n - 1, hasDefault);
      var list := MissingActors(actors, standing, n - 1, hasDefault);
      assert forall i | 0 <= i < |list| :: list[i] in list;
    }
  }

  ghost function Contributions(
    actors: seq<ActorConfig>, standing: seq<Option<Action>>, n: nat): (contents: seq<bytes>)
    requires n <= |actors| == |standing|
    ensures |contents| == n && forall i | 0 <= i < n :: contents[i] == Contribution(actors[i], standing[i])
  {
    if n == 0 then []
    else Contributions(actors, standing, n - 1) + [Contribution(actors[n - 1], standing[n - 1])]
  }

  ghost predicate MissingRequired(actors: seq<ActorConfig>, standing: seq<Option<Action>>, n: nat)
    requires n <= |actors| == |standing|
  {
    exists i :: 0 <= i < n && standing[i].None? && !actors[i].isOptional
  }

  lemma SlotAdds(c: Collected, actor: ActorConfig, slot: Action, standing: Option<Action>, tick: nat, i: nat)
    requires Shows(slot, standing, tick)
    ensures AddSlot(c, actor, slot, tick, i) == Collected(
              c.contents + [Contribution(actor, standing)],
              c.defaults + (if Missing(actor, standing, true) then [i] else []),
              c.unavailable + (if Missing(actor, standing, false) then [i] else []),
              c.missingRequired || (standing.None? && !actor.isOptional))
  {
  }

  /** Collecting the slots gives each actor's contribution in actor order, and both lists of missing actors. */
  lemma {:induction false} CollectCorrect(
    actors: seq<ActorConfig>, slots: seq<Action>, standing: seq<Option<Action>>, tick: nat, n: nat)
    requires n <= |actors| == |slots| && SlotsShow(slots, standing, tick)
    ensures Collect(actors, slots, tick, n) == Collected(
              Contributions(actors, standing, n),
              MissingActors(actors, standing, n, true),
              MissingActors(actors, standing, n, false),
              MissingRequired(actors, standing, n))
  {
    if n > 0 {
      var k := n - 1;
      CollectCorrect(actors, slots, standing, tick, k);
      SlotAdds(Collect(actors, slots, tick, k), actors[k], slots[k], standing[k], tick, k);
      assert MissingRequired(actors, standing, n) <==>
               MissingRequired(actors, standing, k) || (standing[k].None? && !actors[k].isOptional);
    }
  }

  // ---- Every step ----

  /** What stands in the current tick. */
  ghost function Current(s: Trial): seq<Option<Action>> {
    Standings(s.hist.offers, |s.actors|)
  }

  ghost predicate SlotsOfTick(s: Trial) {
    && (s.stepData != [] ==> SlotsShow(LastSample(s).actions, Current(s), s.tick))
    && (s.stepData != [] && s.lastActionTick < s.tick ==>
          LastSample(s).defaultActors == [] && LastSample(s).unavailableActors == [])
    && s.lastActionTick <= s.tick
  }

  ghost predicate DispatchesOrdered(dispatched: seq<Dispatch>) {
    forall i, j | 0 <= i < j < |dispatched| ::
      && dispatched[i].actions.tick < dispatched[j].actions.tick
      && (dispatched[i].last ==> dispatched[j].last)
  }

  ghost predicate Dispatches(s: Trial) {
    && DispatchesOrdered(s.dispatched)
    && (forall i | 0 <= i < |s.dispatched| :: s.dispatched[i].actions.tick <= s.lastActionTick)
    && (forall i | 0 <= i < |s.dispatched| && s.dispatched[i].last :: LastActions(s))
  }

  ghost predicate ActionsOk(s: Trial) {
    SlotsOfTick(s) && Dispatches(s)
  }

  lemma TickKeepsActions(s: Trial)
    requires ActionsOk(s) && s.state != Ended && s.stepData != []
    ensures ActionsOk(WithTick(s))
  {
    if s.state.Ran() && s.tick < MAX_TICK {
      assert WithTick(s) == WithNewSample(s.(tick := s.tick + 1));
      assert forall i: nat :: Standing([], i).None?;
    }
  }

  lemma ObservedKeepsActions(s: Trial, obs: ObservationSet)
    requires Wf(s) && ActionsOk(s) && ObservationVerdict(s, obs).Accepted?
    ensures ActionsOk(Observed(s, obs))
  {
    TickKeepsActions(s);
    TickKeepsWf(s);
  }

  lemma BalanceKeepsActions(s: Trial)
    requires s.bufferSize >= MIN_BUFFERED && ActionsOk(s) && s.stepData != []
    ensures ActionsOk(Balanced(s))
  {
    assert LastSample(Balanced(s)) == LastSample(s);
  }

  lemma ObservationKeepsActions(s: Trial, obs: ObservationSet, last: bool, order: seq<T.Entry>)
    requires Wf(s) && ActionsOk(s) && Enabled(s, ObservationStep(obs, last, order))
    ensures ActionsOk(EnvObserved(s, obs, last, order))
  {
    match ObservationVerdict(s, obs) {
      case Dropped =>
      case Rejected => TickKeepsActions(s);
      case Accepted =>
        ObservedKeepsWf(s, obs);
        ObservedKeepsActions(s, obs);
        AfterObserved(Observed(s, obs), last, order);
    }
  }

  lemma AfterObserved(u: Trial, last: bool, order: seq<T.Entry>)
    requires u.bufferSize >= MIN_BUFFERED && ActionsOk(u) && u.stepData != []
    requires CanSwitch(u.state, Terminating) && u.state != Ended
    ensures ActionsOk(if last then Finishing(u) else Balanced(RoundStarted(u, order)))
  {
    if !last {
      BalanceKeepsActions(RoundStarted(u, order));
    }
  }

  lemma OfferStanding(offers: seq<Offer>, offer: Offer, i: nat)
    ensures Standing(offers + [offer], i) ==
              if offer.index != i then Standing(offers, i)
              else if offer.Withdrawn? then None
              else if Standing(offers, i).None? then Some(offer.action)
              else Standing(offers, i)
  {
    assert (offers + [offer])[..|offers|] == offers;
  }

  lemma OfferShows(
    slots: seq<Action>, offers: seq<Offer>, offer: Offer, slot: Action, tick: nat)
    requires SlotsShow(slots, Standings(offers, |slots|), tick) && offer.index < |slots|
    requires Shows(slot, Standing(offers + [offer], offer.index), tick)
    ensures SlotsShow(slots[offer.index := slot], Standings(offers + [offer], |slots|), tick)
  {
    forall i | 0 <= i < |slots|
      ensures Shows(slots[offer.index := slot][i], Standing(offers + [offer], i), tick)
    {
      OfferStanding(offers, offer, i);
      assert Shows(slots[i], Standings(offers, |slots|)[i], tick);
    }
  }

  lemma ActionKeepsActions(s: Trial, name: string, action: Action)
    requires s.runner.running <= |s.runner.entries| && ActionsOk(s)
    requires s.stepData != [] ==> |LastSample(s).actions| == |s.actors|
    ensures ActionsOk(ActorActed(s, name, action))
  {
    var t := ActorActed(s, name, action);
    ActionSets(s, name, action);
    if t.hist.offers != s.hist.offers {
      SlotOffered(s, IndexOf(s.actors, name).value, action);
    }
  }

  /** What an action changes of what the slots depend on. */
  lemma ActionSets(s: Trial, name: string, action: Action)
    requires s.runner.running <= |s.runner.entries|
    requires s.stepData != [] ==> |LastSample(s).actions| == |s.actors|
    ensures var t, index := ActorActed(s, name, action), IndexOf(s.actors, name);
            && t.outbox == s.outbox && t.lastActionTick == s.lastActionTick && t.tick == s.tick && t.config == s.config
            && t.endRequested == s.endRequested && |t.stepData| == |s.stepData|
            && if t.hist.offers == s.hist.offers then t.store == s.store
               else
                 && index.Some? && s.stepData != [] && ActionTickFits(action.tick, s.tick)
                 && t.hist.offers == s.hist.offers + [Offered(index.value, action)]
                 && LastSample(t) == LastSample(s).(actions := SlotsWith(LastSample(s).actions, index.value, action))
  {
  }

  /** The slot takes the action when it is empty. */
  function SlotsWith(slots: seq<Action>, i: nat, action: Action): seq<Action>
    requires i < |slots|
  {
    if slots[i].tick == NO_DATA_TICK then slots[i := action] else slots
  }

  lemma SlotOffered(s: Trial, i: nat, action: Action)
    requires s.stepData != [] && SlotsOfTick(s) && i < |s.actors| == |LastSample(s).actions|
    requires ActionTickFits(action.tick, s.tick)
    ensures SlotsShow(SlotsWith(LastSample(s).actions, i, action),
                      Standings(s.hist.offers + [Offered(i, action)], |s.actors|), s.tick)
  {
    var slots, offer := LastSample(s).actions, Offered(i, action);
    assert Shows(slots[i], Current(s)[i], s.tick);
    OfferStanding(s.hist.offers, offer, i);
    OfferShows(slots, s.hist.offers, offer, if slots[i].tick == NO_DATA_TICK then action else slots[i], s.tick);
    assert slots[i := slots[i]] == slots;
  }

  lemma DisengageKeepsActions(s: Trial, index: nat)
    requires HasSample(s) && ActionsOk(s) && index < |s.actors|
    ensures ActionsOk(ActorDisengaging(s, index))
  {
    var t := ActorDisengaging(s, index);
    if t.hist.offers != s.hist.offers {
      var slots := LastSample(s).actions;
      OfferStanding(s.hist.offers, Withdrawn(index), index);
      OfferShows(slots, s.hist.offers, Withdrawn(index), slots[index].(tick := NO_DATA_TICK), s.tick);
    }
  }

  lemma DispatchMore(s: Trial, d: Dispatch)
    requires Dispatches(s) && d.actions.tick == s.tick == s.lastActionTick && d.last == LastActions(s)
    requires forall i | 0 <= i < |s.dispatched| :: s.dispatched[i].actions.tick < s.tick
    ensures Dispatches(s.(outbox := Outbox(s.dispatched + [d])))
  {
  }

  lemma SendKeepsActions(s: Trial, c: Collected, last: bool)
    requires s.stepData != [] && SlotsOfTick(s) && s.lastActionTick == s.tick
    requires Dispatches(s) && forall i | 0 <= i < |s.dispatched| :: s.dispatched[i].actions.tick < s.tick
    requires last == LastActions(s)
    ensures ActionsOk(Sent(s, c, last))
  {
    var t := Noted(s, c);
    assert SlotsOfTick(t);
    if !c.missingRequired {
      DispatchMore(t, Dispatch(ActionSet(s.tick, c.contents, c.unavailable), last));
    }
  }

  /** The tick is marked as dispatched. */
  ghost function Marked(s: Trial): Trial {
    s.(processing := false, lastActionTick := s.tick)
  }

  lemma MarkedKeepsActions(s: Trial)
    requires ActionsOk(s) && s.lastActionTick < s.tick
    ensures SlotsOfTick(Marked(s)) && Dispatches(Marked(s))
    ensures forall i | 0 <= i < |s.dispatched| :: s.dispatched[i].actions.tick < s.tick
  {
  }

  /** What happens to a tick that is marked, when the trial goes on. */
  lemma DispatchKeepsActions(u: Trial)
    requires HasSample(u) && u.state != Ended && u.lastActionTick == u.tick
    requires SlotsOfTick(u) && Dispatches(u)
    requires forall i | 0 <= i < |u.dispatched| :: u.dispatched[i].actions.tick < u.tick
    ensures !LastActions(u) ==> ActionsOk(Sent(u, CollectedNow(u), false))
    ensures LastActions(u) && CanSwitch(u.state, Terminating) ==>
              ActionsOk(Sent(Switched(u, Terminating), CollectedNow(u), true))
    ensures ActionsOk(Terminated(u))
  {
    if !LastActions(u) {
      SendKeepsActions(u, CollectedNow(u), false);
    } else if CanSwitch(u.state, Terminating) {
      SendKeepsActions(Switched(u, Terminating), CollectedNow(u), true);
    }
  }

  lemma ProcessKeepsActions(s: Trial)
    requires HasSample(s) && ActionsOk(s)
    ensures ActionsOk(ProcessActions(s))
  {
    if s.nbActed >= s.nbAvailable && s.lastActionTick < s.tick {
      MarkedKeepsActions(s);
      if s.state != Ended {
        DispatchKeepsActions(Marked(s));
      }
    } else {
      assert ProcessActions(s) == s.(processing := false);
    }
  }

  lemma RewardKeepsActions(s: Trial, reward: Reward)
    requires ActionsOk(s)
    ensures ActionsOk(RewardReceived(s, reward))
  {
    RewardTouches(s, reward);
  }

  /** A reward changes nothing of what the slots and the dispatches depend on. */
  lemma RewardTouches(s: Trial, reward: Reward)
    ensures var t := RewardReceived(s, reward);
            && t == s.(store := t.store, hist := s.hist.(placed := t.hist.placed))
            && |t.stepData| == |s.stepData|
            && (s.stepData != [] ==> LastSample(t) == LastSample(s).(rewards := LastSample(t).rewards))
  {
  }

  lemma QuietKeepsActions(s: Trial, step: Step)
    requires Wf(s) && ActionsOk(s) && Enabled(s, step) && Quiet(step)
    ensures ActionsOk(Next(s, step))
  {
    QuietStep(s, step);
  }

  lemma TimeOutKeepsActions(s: Trial)
    requires s.runner.running <= |s.runner.entries| && ActionsOk(s)
    ensures ActionsOk(RunnerTimesOut(s))
  {
  }

  lemma EndKeepsActions(s: Trial)
    requires ActionsOk(s)
    ensures ActionsOk(Terminated(s))
    ensures s.finishing > 0 ==> ActionsOk(Switched(s, Ended).(finishing := s.finishing - 1))
  {
  }

  lemma NextKeepsActions(s: Trial, step: Step)
    requires Wf(s) && ActionsOk(s) && Enabled(s, step)
    ensures ActionsOk(Next(s, step))
  {
    match step {
      case ObservationStep(obs, last, order) => ObservationKeepsActions(s, obs, last, order);
      case ActionStep(name, action) => ActionKeepsActions(s, name, action);
      case RewardStep(reward) => RewardKeepsActions(s, reward);
      case DisengageStep(index) => DisengageKeepsActions(s, index);
      case ProcessStep => ProcessKeepsActions(s);
      case TimeOutStep => TimeOutKeepsActions(s);
      case TerminateStep => EndKeepsActions(s);
      case FinishStep => EndKeepsActions(s);
      case _ => QuietKeepsActions(s, step);
    }
  }

  lemma {:induction false} RunKeepsActions(s: Trial, steps: seq<Step>)
    requires Wf(s) && ActionsOk(s)
    ensures Run(s, steps).Some? ==> ActionsOk(Run(s, steps).value)
    decreases |steps|
  {
    if steps != [] && Enabled(s, steps[0]) {
      NextKeepsWf(s, steps[0]);
      NextKeepsActions(s, steps[0]);
      RunKeepsActions(Next(s, steps[0]), steps[1..]);
    }
  }

  lemma ReachableActions(s: Trial)
    requires Reachable(s)
    ensures Wf(s) && ActionsOk(s)
  {
    var p: Params, steps: seq<Step> :| ReachedBy(s, p, steps);
    StartIsWf(p);
    assert forall i: nat :: Standing([], i).None?;
    RunKeepsActions(Started(p), steps);
  }

  // ---- The theorems ----

  /** In every reachable state each actor has one slot in the current sample, empty or with an action for this tick. */
  lemma OneSlotPerActor(s: Trial)
    requires Reachable(s) && s.state != Ended
    ensures |LastSample(s).actions| == |s.actors|
    ensures forall i | 0 <= i < |s.actors| ::
              var tick := LastSample(s).actions[i].tick;
              tick == NO_DATA_TICK || tick == AUTO_TICK || tick == s.tick
  {
    ReachableActions(s);
  }

  /** `t` has sent one action set more than `s`, and it is the right one. */
  ghost predicate SentExactly(s: Trial, t: Trial, last: bool) {
    var actors, standing, n := s.actors, Current(s), |s.actors|;
    && !MissingRequired(actors, standing, n)
    && t.dispatched == s.dispatched + [Dispatch(ActionSet(
         s.tick, Contributions(actors, standing, n), MissingActors(actors, standing, n, false)), last)]
    && t.stepData != []
    && LastSample(t).defaultActors == MissingActors(actors, standing, n, true)
    && LastSample(t).unavailableActors == MissingActors(actors, standing, n, false)
  }

  lemma SendIsExact(s: Trial, c: Collected, last: bool)
    requires s.stepData != []
    requires LastSample(s).defaultActors == [] && LastSample(s).unavailableActors == []
    requires c == Collected(Contributions(s.actors, Current(s), |s.actors|),
                            MissingActors(s.actors, Current(s), |s.actors|, true),
                            MissingActors(s.actors, Current(s), |s.actors|, false),
                            MissingRequired(s.actors, Current(s), |s.actors|))
    ensures if c.missingRequired then Sent(s, c, last).dispatched == s.dispatched
            else SentExactly(s, Sent(s, c, last), last)
  {
  }

  lemma ProcessIsExact(s: Trial)
    requires HasSample(s) && ActionsOk(s) && ProcessActions(s).dispatched != s.dispatched
    ensures SentExactly(s, ProcessActions(s), LastActions(s))
  {
    var t := s.(processing := false);
    var u := t.(lastActionTick := t.tick);
    assert t.nbActed >= t.nbAvailable && t.lastActionTick < t.tick && u.state != Ended;
    CollectCorrect(s.actors, LastSample(s).actions, Current(s), s.tick, |s.actors|);
    var c := CollectedNow(u);
    if !LastActions(u) {
      SendIsExact(u, c, false);
      assert ProcessActions(s) == Sent(u, c, false);
    } else if CanSwitch(u.state, Terminating) {
      SendIsExact(Switched(u, Terminating), c, true);
      assert ProcessActions(s) == Sent(Switched(u, Terminating), c, true);
    }
  }

  /**
   * Every action set sent has exactly one entry per actor, in actor order: the first action that stands,
   * else the default, else nothing; the lists of missing actors are exact, in the set and in the sample,
   * and no required actor is missing.
   */
  lemma DispatchIsExact(s: Trial)
    requires Reachable(s) && Wf(s) && ProcessActions(s).dispatched != s.dispatched
    ensures SentExactly(s, ProcessActions(s), LastActions(s))
  {
    ReachableActions(s);
    ProcessIsExact(s);
  }

  /** Dispatched ticks strictly increase, and once a dispatch is flagged last every later one is too. */
  lemma DispatchesAreOrdered(s: Trial, i: nat, j: nat)
    requires Reachable(s) && i < j < |s.dispatched|
    ensures s.dispatched[i].actions.tick < s.dispatched[j].actions.tick <= s.tick
    ensures s.dispatched[i].last ==> s.dispatched[j].last
  {
    ReachableActions(s);
  }
}
