/**
 * The trial engine of the orchestrator: one specification function per entry point, each
 * entry point being one atomic step.
 *
 * The last field, `hist`, records what happened (rewards accepted, actions offered, actors counted);
 * no step reads it.  It is the abstract side that the theorems compare the engine's own fields with.
 */
module TrialEngine {
  import opened Common
  import T = TimeoutRunning

  const AUTO_TICK: int := -1
  const NO_DATA_TICK: int := -2
  const MAX_TICK: int := 0x7FFF_FFFF_FFFF_FFFF
  const MAX_UINT64: int := 0xFFFF_FFFF_FFFF_FFFF
  const MIN_BUFFERED: nat := 2
  const DEFAULT_BUFFERED: nat := 2

  datatype LifeState = Unknown | Initializing | Pending | Running | Terminating | Ended {
    /** At or after `Pending`. */
    predicate Started() {
      !Unknown? && !Initializing?
    }

    /** At or after `Running`. */
    predicate Ran() {
      Running? || Terminating? || Ended?
    }

    function Rank(): nat {
      match this
      case Unknown => 0
      case Initializing => 1
      case Pending => 2
      case Running => 3
      case Terminating => 4
      case Ended => 5
    }
  }

  datatype Action = Action(tick: int, content: bytes)

  datatype Reward = Reward(tick: int, body: bytes)

  datatype ObservationSet = ObservationSet(tick: int, content: bytes)

  datatype Sample = Sample(
    tick: nat, state: LifeState, outOfSync: bool, observations: Option<ObservationSet>,
    actions: seq<Action>, rewards: seq<Reward>, defaultActors: seq<nat>, unavailableActors: seq<nat>)

  /** `timeout` is 0 when the actor may take any time to respond. */
  datatype ActorConfig = ActorConfig(name: string, isOptional: bool, defaultAction: Option<bytes>, timeout: nat)

  /** `maxSteps` and `bufferedTicks` are 0 when not given. */
  datatype Params = Params(actors: seq<ActorConfig>, maxSteps: nat, bufferedTicks: nat)

  datatype ActionSet = ActionSet(tick: nat, contents: seq<bytes>, unavailable: seq<nat>)

  datatype Dispatch = Dispatch(actions: ActionSet, last: bool)

  /** What reached the action slot of an actor during the current tick. */
  datatype Offer = Offered(index: nat, action: Action) | Withdrawn(index: nat)

  /**
   * What happened during a tick: the observation accepted for it, the offers, how many there were when the actions were
   * collected (if they were), and the state the tick was left in.
   */
  datatype TickRecord = TickRecord(
    observed: Option<ObservationSet>, offers: seq<Offer>, collected: Option<nat>, left: LifeState)

  const NO_RECORD := TickRecord(None, [], None, Unknown)

  datatype History = History(
    placed: seq<(nat, Reward)>,  // every reward accepted, with its effective tick
    past: seq<TickRecord>,       // of the ticks before the current one
    now: TickRecord,             // of the current tick
    counted: seq<nat>,           // every call of the runner that counts an actor, during the current tick
    answered: set<nat>,          // actors counted for an action during the current tick
    timedOut: set<nat>,          // actors counted for a timeout during the current tick
    withdrawn: set<nat>,         // actors that lowered the number of available actors
    withdrawal: bool,            // one of them did so during the current tick
    started: bool)               // the current tick has an accepted observation that is not the last
  {
    const offers := now.offers
  }

  datatype Config = Config(actors: seq<ActorConfig>, bufferSize: nat, maxSteps: nat)

  /** The samples still in memory, and those sent to the datalog. */
  datatype Store = Store(stepData: seq<Sample>, datalog: seq<Sample>)

  /** What the environment has been sent. */
  datatype Outbox = Outbox(dispatched: seq<Dispatch>)

  datatype Trial = Trial(
    config: Config,
    state: LifeState, tick: nat, endRequested: bool, finishing: nat,
    store: Store,
    nbActed: int, nbAvailable: int, lastActionTick: int,
    runner: T.Runner, signalled: bool, processing: bool,
    disengaged: set<nat>, outbox: Outbox,
    hist: History)
  {
    const actors := config.actors
    const bufferSize := config.bufferSize
    const maxSteps := config.maxSteps
    const stepData := store.stepData
    const datalog := store.datalog
    const dispatched := outbox.dispatched
  }

  // ---- State ----

  /** `set_state` accepts the switch; any state may be ended at once. */
  predicate CanSwitch(from: LifeState, to: LifeState) {
    to == Ended || match from
      case Unknown => to == Initializing
      case Initializing => to == Pending
      case Pending => to == Running
      case Running => to == Terminating
      case Terminating => to == Terminating
      case Ended => false
  }

  /** The samples with the state they are left in written on the last one. */
  function Closed(stepData: seq<Sample>, state: LifeState): seq<Sample> {
    if stepData == [] then [] else stepData[|stepData| - 1 := stepData[|stepData| - 1].(state := state)]
  }

  function Flushed(s: Trial): Trial {
    s.(store := Store([], s.datalog + Closed(s.stepData, s.state)))
  }

  function Switched(s: Trial, to: LifeState): Trial
    requires CanSwitch(s.state, to)
  {
    if s.state == to then s
    else if to == Ended then Flushed(s.(state := Ended))
    else s.(state := to)
  }

  /** A hard termination: whatever the state, the trial ends at once. */
  function Terminated(s: Trial): Trial {
    if s.state == Ended then s else Flushed(s.(state := Ended))
  }

  // ---- Samples ----

  function NullActions(n: nat): seq<Action> {
    seq(n, _ => Action(NO_DATA_TICK, []))
  }

  function EmptySample(tick: nat, nbActors: nat): Sample {
    Sample(tick, Unknown, false, None, NullActions(nbActors), [], [], [])
  }

  function WithNewSample(s: Trial): Trial {
    s.(store := Store(Closed(s.stepData, s.state) + [EmptySample(s.tick, |s.actors|)], s.datalog),
       nbActed := 0,
       hist := s.hist.(past := s.hist.past + [s.hist.now.(left := s.state)], now := NO_RECORD,
                       counted := [], answered := {}, timedOut := {}, withdrawal := false, started := false))
  }

  /** The buffer after its overflow has gone to the log. */
  function Balanced(s: Trial): Trial
    requires s.bufferSize > 0
  {
    if |s.stepData| < s.bufferSize then s
    else
      var excess := |s.stepData| - (s.bufferSize - 1);
      s.(store := Store(s.stepData[excess..], s.datalog + s.stepData[..excess]))
  }

  function WithLast(s: Trial, last: Sample): Trial
    requires s.stepData != []
  {
    s.(store := Store(s.stepData[|s.stepData| - 1 := last], s.datalog))
  }

  function LastSample(s: Trial): Sample
    requires s.stepData != []
  {
    s.stepData[|s.stepData| - 1]
  }

  // ---- Start ----

  predicate DistinctNames(actors: seq<ActorConfig>) {
    forall i, j | 0 <= i < j < |actors| :: actors[i].name != actors[j].name
  }

  /** The response timeouts are added in actor order. */
  function WithTimeouts(actors: seq<ActorConfig>, n: nat): T.Runner
    requires n <= |actors|
  {
    if n == 0 then T.NewRunner()
    else
      var r := WithTimeouts(actors, n - 1);
      if actors[n - 1].timeout > 0 then T.Add(r, actors[n - 1].timeout, n - 1) else r
  }

  /** The trial once `start` has returned: pending, with its first sample. */
  function Started(p: Params): Trial {
    Trial(Config(p.actors,
                 if p.bufferedTicks >= MIN_BUFFERED then p.bufferedTicks else DEFAULT_BUFFERED,
                 if p.maxSteps > 0 then p.maxSteps else MAX_UINT64),
          Pending, 0, false, 0,
          Store([EmptySample(0, |p.actors|)], []),
          0, |p.actors|, -1,
          WithTimeouts(p.actors, |p.actors|), false, false,
          {}, Outbox([]),
          History([], [], NO_RECORD, [], {}, {}, {}, false, false))
  }

  // ---- Observations ----

  datatype Verdict = Dropped | Rejected | Accepted

  predicate ObservationTickFits(tick: int, current: nat) {
    tick == AUTO_TICK || (0 <= tick <= MAX_TICK && tick == current)
  }

  function ObservationVerdict(s: Trial, obs: ObservationSet): Verdict {
    if !s.state.Started() || s.state == Ended then Dropped
    else if s.state.Ran() then
      if s.tick >= MAX_TICK || !ObservationTickFits(obs.tick, s.tick + 1) then Rejected else Accepted
    else if ObservationTickFits(obs.tick, s.tick) then Accepted else Rejected
  }

  /** The tick the observation is for.  It has advanced even when the observation is then rejected. */
  function WithTick(s: Trial): Trial {
    if s.state.Ran() then
      if s.tick >= MAX_TICK then s else WithNewSample(s.(tick := s.tick + 1))
    else
      s.(state := Running)
  }

  /** The observation becomes part of the sample of its tick. */
  function Observed(s: Trial, obs: ObservationSet): Trial
    requires ObservationVerdict(s, obs).Accepted? && s.state == Pending ==> s.stepData != []
    requires ObservationVerdict(s, obs).Accepted?
  {
    var t := WithTick(s);
    WithLast(t, LastSample(t).(observations := Some(obs))).(hist := WithObserved(t.hist, obs))
  }

  function WithObserved(h: History, obs: ObservationSet): History {
    h.(now := h.now.(observed := Some(obs)))
  }

  function WithOffer(h: History, offer: Offer): History {
    h.(now := h.now.(offers := h.now.offers + [offer]))
  }

  /** The actions are collected from what has been offered so far. */
  function WithCollected(h: History): History {
    h.(now := h.now.(collected := Some(|h.now.offers|)))
  }

  function RoundStarted(s: Trial, order: seq<T.Entry>): Trial {
    s.(runner := T.Start(s.runner, order), hist := s.hist.(started := true))
  }

  /** The environment has ended the trial: a thread is started that will end it. */
  function Finishing(s: Trial): Trial
    requires CanSwitch(s.state, Terminating)
  {
    Switched(s, Terminating).(finishing := s.finishing + 1)
  }

  /** `order` is the order in which the runner's entries come out of its sort. */
  function EnvObserved(s: Trial, obs: ObservationSet, last: bool, order: seq<T.Entry>): Trial
    requires s.bufferSize > 0
    requires ObservationVerdict(s, obs).Accepted? && s.state == Pending ==> s.stepData != []
  {
    match ObservationVerdict(s, obs)
    case Dropped => s
    case Rejected => WithTick(s)
    case Accepted =>
      if last then Finishing(Observed(s, obs))
      else Balanced(RoundStarted(Observed(s, obs), order))
  }

  // ---- Actions ----

  function IndexOf(actors: seq<ActorConfig>, name: string): (i: Option<nat>)
    ensures i.Some? ==> i.value < |actors| && actors[i.value].name == name
    ensures i.None? ==> forall k | 0 <= k < |actors| :: actors[k].name != name
  {
    if actors == [] then None
    else if actors[|actors| - 1].name == name then Some(|actors| - 1)
    else IndexOf(actors[..|actors| - 1], name)
  }

  predicate ActionTickFits(tick: int, current: nat) {
    tick == AUTO_TICK || tick == current
  }

  function WithEffect(s: Trial, e: T.Effect): Trial {
    s.(runner := e.runner, nbActed := s.nbActed + |e.counted|, signalled := s.signalled || e.term,
       hist := s.hist.(counted := s.hist.counted + e.counted))
  }

  function ActorActed(s: Trial, name: string, action: Action): Trial
    requires s.runner.running <= |s.runner.entries|
    requires s.stepData != [] ==> |LastSample(s).actions| == |s.actors|
  {
    var index := IndexOf(s.actors, name);
    if !s.state.Started() || s.state == Ended || index.None? || s.stepData == [] then s
    else if !ActionTickFits(action.tick, s.tick) then s
    else
      var sample, i := LastSample(s), index.value;
      var t := s.(hist := WithOffer(s.hist, Offered(i, action)));
      if sample.actions[i].tick != NO_DATA_TICK then t
      else Answered(WithLast(t, sample.(actions := sample.actions[i := action])), i)
  }

  /** The actor has answered: the runner is told so. */
  function Answered(s: Trial, i: nat): Trial
    requires s.runner.running <= |s.runner.entries|
  {
    WithEffect(s.(hist := s.hist.(answered := s.hist.answered + {i})), T.Signal(s.runner, i))
  }

  /** The action set built from the first `n` slots, and what the sample remembers about it. */
  datatype Collected = Collected(
    contents: seq<bytes>, defaults: seq<nat>, unavailable: seq<nat>, missingRequired: bool)

  /** What the slot of actor `i` adds; an action of another tick adds nothing. */
  function AddSlot(c: Collected, actor: ActorConfig, slot: Action, tick: nat, i: nat): Collected {
    if ActionTickFits(slot.tick, tick) then
      c.(contents := c.contents + [slot.content])
    else if slot.tick == NO_DATA_TICK then
      var missing := c.missingRequired || !actor.isOptional;
      if actor.defaultAction.Some? then
        Collected(c.contents + [actor.defaultAction.value], c.defaults + [i], c.unavailable, missing)
      else
        Collected(c.contents + [[]], c.defaults, c.unavailable + [i], missing)
    else c
  }

  function Collect(actors: seq<ActorConfig>, slots: seq<Action>, tick: nat, n: nat): Collected
    requires n <= |actors| && n <= |slots|
  {
    if n == 0 then Collected([], [], [], false)
    else AddSlot(Collect(actors, slots, tick, n - 1), actors[n - 1], slots[n - 1], tick, n - 1)
  }

  /** The sample remembers which actors were missing. */
  function Noted(s: Trial, c: Collected): Trial
    requires s.stepData != []
  {
    var sample := LastSample(s);
    WithLast(s, sample.(defaultActors := sample.defaultActors + c.defaults,
                        unavailableActors := sample.unavailableActors + c.unavailable)).(hist := WithCollected(s.hist))
  }

  /** The action set goes to the environment, unless a required actor is missing: that ends the trial. */
  function Sent(s: Trial, c: Collected, last: bool): Trial
    requires s.stepData != []
  {
    if c.missingRequired then Terminated(Noted(s, c))
    else
      var t := Noted(s, c);
      t.(outbox := Outbox(t.dispatched + [Dispatch(ActionSet(s.tick, c.contents, c.unavailable), last)]))
  }

  function CollectedNow(s: Trial): Collected
    requires s.stepData != [] && |LastSample(s).actions| == |s.actors|
  {
    Collect(s.actors, LastSample(s).actions, s.tick, |s.actors|)
  }

  /** The action thread's wait returns. */
  function TakeSignal(s: Trial): Trial {
    s.(signalled := false, processing := true)
  }

  predicate LastActions(s: Trial) {
    s.tick >= s.maxSteps || s.endRequested
  }

  function ProcessActions(s: Trial): Trial
    requires s.state != Ended ==> s.stepData != [] && |LastSample(s).actions| == |s.actors|
  {
    var t := s.(processing := false);
    if t.nbActed < t.nbAvailable || t.lastActionTick >= t.tick then t
    else
      var u := t.(lastActionTick := t.tick);
      if u.state == Ended then u
      else if LastActions(u) then
        if CanSwitch(u.state, Terminating) then Sent(Switched(u, Terminating), CollectedNow(u), true)
        else Terminated(u)
      else Sent(u, CollectedNow(u), false)
  }

  /** An actor leaves; its flag is raised by the caller, so this happens at most once per actor. */
  function ActorDisengaging(s: Trial, index: nat): Trial
    requires index < |s.actors|
    requires s.stepData != [] ==> |LastSample(s).actions| == |s.actors|
  {
    var t := s.(disengaged := s.disengaged + {index});
    if t.state.Terminating? || t.state.Ended? || t.stepData == [] then t
    else
      var sample := LastSample(t);
      var u := WithLast(t, sample.(actions := sample.actions[index := sample.actions[index].(tick := NO_DATA_TICK)]));
      u.(runner := T.Remove(u.runner, index), nbAvailable := u.nbAvailable - 1, signalled := true,
         hist := WithOffer(u.hist, Withdrawn(index)).(withdrawn := u.hist.withdrawn + {index}, withdrawal := true))
  }

  // ---- The runner's thread ----

  function RunnerWakes(s: Trial): Trial {
    WithEffect(s, T.Wake(s.runner))
  }

  function RunnerTimesOut(s: Trial): Trial
    requires s.runner.running <= |s.runner.entries|
  {
    var e := T.TimeOut(s.runner);
    WithEffect(s.(hist := s.hist.(timedOut := s.hist.timedOut + set x | x in e.counted)), e)
  }

  // ---- Rewards ----

  /** The tick an acceptable reward is for; nothing once the trial has no sample left to hold it. */
  function EffectiveTick(s: Trial, reward: Reward): Option<nat> {
    var tick := if reward.tick == AUTO_TICK then s.tick else reward.tick;
    if !s.state.Started() || tick < 0 || tick > s.tick || s.stepData == [] then None
    else Some(tick)
  }

  /** Direct lookup: the buffered samples are of consecutive ticks. */
  function FindDirect(samples: seq<Sample>, tick: nat): (i: Option<nat>)
    requires samples != []
  {
    var index := tick - samples[0].tick;
    if 0 <= index < |samples| && samples[index].tick == tick then Some(index) else None
  }

  /** Search from the most recent sample. */
  function FindReverse(samples: seq<Sample>, tick: nat): (i: Option<nat>)
    ensures i.Some? ==> i.value < |samples| && samples[i.value].tick == tick
    ensures i.Some? ==> forall k | i.value < k < |samples| :: samples[k].tick != tick
    ensures i.None? ==> forall k | 0 <= k < |samples| :: samples[k].tick != tick
  {
    if samples == [] then None
    else if samples[|samples| - 1].tick == tick then Some(|samples| - 1)
    else FindReverse(samples[..|samples| - 1], tick)
  }

  function FindSample(samples: seq<Sample>, tick: nat): (i: Option<nat>)
    requires samples != []
    ensures i.Some? ==> i.value < |samples| && samples[i.value].tick == tick
  {
    if tick < samples[0].tick then None
    else if FindDirect(samples, tick).Some? then FindDirect(samples, tick)
    else FindReverse(samples, tick)
  }

  function OutOfSyncSample(tick: nat, reward: Reward): Sample {
    Sample(tick, Unknown, true, None, [], [reward], [], [])
  }

  function WithReward(samples: seq<Sample>, i: nat, reward: Reward): seq<Sample>
    requires i < |samples|
  {
    samples[i := samples[i].(rewards := samples[i].rewards + [reward])]
  }

  function RewardReceived(s: Trial, reward: Reward): Trial {
    var tick := EffectiveTick(s, reward);
    if tick.None? then s
    else
      var t := s.(hist := s.hist.(placed := s.hist.placed + [(tick.value, reward)]));
      var i := FindSample(t.stepData, tick.value);
      if i.Some? then
        t.(store := Store(WithReward(t.stepData, i.value, reward), t.datalog))
      else
        t.(store := Store(t.stepData, t.datalog + [OutOfSyncSample(tick.value, reward)]))
  }

  // ---- The transition system ----

  datatype Step =
    | ObservationStep(obs: ObservationSet, last: bool, order: seq<T.Entry>)
    | ActionStep(name: string, action: Action)
    | RewardStep(reward: Reward)
    | DisengageStep(index: nat)
    | TakeStep
    | ProcessStep
    | WaitStep
    | WakeStep
    | TimeOutStep
    | RequestEndStep
    | TerminateStep
    | FinishStep

  ghost predicate RunnerOk(r: T.Runner, nbActors: nat) {
    T.Inv(r) && forall i | 0 <= i < |r.entries| :: r.entries[i].id < nbActors
  }

  ghost predicate SlotsOk(samples: seq<Sample>, nbActors: nat) {
    forall k | 0 <= k < |samples| :: |samples[k].actions| == nbActors
  }

  /** What the step functions rely on; every step keeps it. */
  ghost predicate Wf(s: Trial) {
    && s.bufferSize >= MIN_BUFFERED
    && DistinctNames(s.actors)
    && RunnerOk(s.runner, |s.actors|)
    && s.state.Started()
    && (s.state == Ended <==> s.stepData == [])
    && SlotsOk(s.stepData, |s.actors|)
    && s.tick <= MAX_TICK
    && (s.state == Pending ==> s.finishing == 0)
  }

  /** The part of `Wf` about the current sample. */
  ghost predicate HasSample(s: Trial) {
    && s.bufferSize >= MIN_BUFFERED
    && s.state.Started()
    && (s.state == Ended <==> s.stepData == [])
    && (s.stepData != [] ==> |LastSample(s).actions| == |s.actors|)
  }

  ghost predicate Enabled(s: Trial, step: Step) {
    match step
    case ObservationStep(obs, last, order) =>
      // The order matters only when a round is started.
      ObservationVerdict(s, obs).Accepted? && !last ==> T.StartOrder(s.runner, order)
    case DisengageStep(index) => index < |s.actors| && index !in s.disengaged
    case TakeStep => s.signalled && !s.processing
    case ProcessStep => s.processing
    case WaitStep => s.runner.pc.Outside?
    case WakeStep => s.runner.pc.Waiting? && s.runner.wake
    case TimeOutStep => s.runner.pc == T.Waiting(true) && !s.runner.wake
    case FinishStep => s.finishing > 0
    case _ => true
  }

  ghost function Next(s: Trial, step: Step): Trial
    requires Wf(s) && Enabled(s, step)
  {
    match step
    case ObservationStep(obs, last, order) => EnvObserved(s, obs, last, order)
    case ActionStep(name, action) => ActorActed(s, name, action)
    case RewardStep(reward) => RewardReceived(s, reward)
    case DisengageStep(index) => ActorDisengaging(s, index)
    case TakeStep => TakeSignal(s)
    case ProcessStep => ProcessActions(s)
    case WaitStep => s.(runner := T.Wait(s.runner))
    case WakeStep => RunnerWakes(s)
    case TimeOutStep => RunnerTimesOut(s)
    case RequestEndStep => s.(endRequested := true)
    case TerminateStep => Terminated(s)
    case FinishStep => Switched(s, Ended).(finishing := s.finishing - 1)
  }

  /** The steps that touch neither the samples nor the counts: those of the threads that wait, and a request to end. */
  predicate Quiet(step: Step) {
    step.TakeStep? || step.WaitStep? || step.WakeStep? || step.RequestEndStep?
  }

  lemma QuietStep(s: Trial, step: Step)
    requires Wf(s) && Enabled(s, step) && Quiet(step)
    ensures var t := Next(s, step);
            && t == s.(endRequested := t.endRequested, runner := t.runner, signalled := t.signalled,
                       processing := t.processing)
            && t.runner == s.runner.(wake := t.runner.wake, pc := t.runner.pc)
  {
    if step.WakeStep? {
      assert s.hist.counted + [] == s.hist.counted;
    }
  }

  lemma {:induction false} AddedTimeouts(actors: seq<ActorConfig>, n: nat)
    requires n <= |actors|
    ensures var r := WithTimeouts(actors, n);
            && T.DistinctIds(r.entries)
            && (forall i | 0 <= i < |r.entries| :: r.entries[i].id < n)
            && r.running == 0 && !r.wake && r.pc.Outside? && r.toRemove == [] && !r.sorted
  {
    if n > 0 {
      AddedTimeouts(actors, n - 1);
    }
  }

  /** The runner has an entry for exactly the actors with a timeout. */
  lemma {:induction false} TimersAreThose(actors: seq<ActorConfig>, n: nat)
    requires n <= |actors|
    ensures forall e :: e in WithTimeouts(actors, n).entries <==>
              e.id < n && e == T.Entry(actors[e.id].timeout, e.id, false) && e.timeout > 0
  {
    if n > 0 {
      TimersAreThose(actors, n - 1);
    }
  }

  /** How a trial starts: at tick 0, with nothing counted, sent or logged, and at least two buffered samples. */
  lemma StartIs(p: Params)
    ensures var s := Started(p);
            && s.state == Pending && s.tick == 0 && s.actors == p.actors
            && s.bufferSize == (if p.bufferedTicks > 2 then p.bufferedTicks else 2)
            && s.maxSteps == (if p.maxSteps > 0 then p.maxSteps else 0xFFFF_FFFF_FFFF_FFFF)
            && s.nbActed == 0 && s.nbAvailable == |p.actors| && s.disengaged == {} && !s.endRequested
            && s.dispatched == [] && s.datalog == [] && s.stepData == [EmptySample(0, |p.actors|)]
            && forall e :: e in s.runner.entries <==>
                 e.id < |p.actors| && e == T.Entry(p.actors[e.id].timeout, e.id, false) && e.timeout > 0
  {
    TimersAreThose(p.actors, |p.actors|);
  }

  lemma StartIsWf(p: Params)
    requires DistinctNames(p.actors)
    ensures Wf(Started(p))
  {
    AddedTimeouts(p.actors, |p.actors|);
  }

  lemma RoundStartOk(r: T.Runner, order: seq<T.Entry>, nbActors: nat)
    requires RunnerOk(r, nbActors) && T.StartOrder(r, order)
    ensures RunnerOk(T.Start(r, order), nbActors)
  {
    T.StartEntries(r, order);
    forall i | 0 <= i < |order| ensures order[i].id < nbActors {
      assert T.Ids(order)[i] in T.Ids(order);
      var k :| 0 <= k < |r.entries| && T.Ids(r.entries)[k] == order[i].id;
    }
  }

  lemma SignalOk(r: T.Runner, id: nat, nbActors: nat)
    requires RunnerOk(r, nbActors)
    ensures RunnerOk(T.Signal(r, id).runner, nbActors)
  {
    T.SignalChanges(r, id);
  }

  lemma TickKeepsWf(s: Trial)
    requires Wf(s) && s.state != Ended
    ensures Wf(WithTick(s)) && WithTick(s).runner == s.runner && WithTick(s).actors == s.actors
    ensures WithTick(s).state.Ran() && WithTick(s).state != Ended
  {
  }

  lemma LastKeepsWf(s: Trial, last: Sample)
    requires Wf(s) && s.stepData != [] && |last.actions| == |s.actors|
    ensures Wf(WithLast(s, last))
  {
  }

  lemma BalanceKeepsWf(s: Trial)
    requires Wf(s)
    ensures Wf(Balanced(s))
  {
  }

  lemma TerminationKeepsWf(s: Trial)
    requires Wf(s)
    ensures Wf(Terminated(s))
  {
  }

  lemma ObservedKeepsWf(s: Trial, obs: ObservationSet)
    requires Wf(s) && ObservationVerdict(s, obs).Accepted?
    ensures Wf(Observed(s, obs)) && Observed(s, obs).runner == s.runner
    ensures Observed(s, obs).actors == s.actors
    ensures Observed(s, obs).state.Ran() && Observed(s, obs).state != Ended
  {
    TickKeepsWf(s);
    var t := WithTick(s);
    LastKeepsWf(t, LastSample(t).(observations := Some(obs)));
  }

  lemma ObservationKeepsWf(s: Trial, obs: ObservationSet, last: bool, order: seq<T.Entry>)
    requires Wf(s) && Enabled(s, ObservationStep(obs, last, order))
    ensures Wf(EnvObserved(s, obs, last, order))
  {
    match ObservationVerdict(s, obs) {
      case Dropped =>
      case Rejected => TickKeepsWf(s);
      case Accepted =>
        ObservedKeepsWf(s, obs);
        if !last {
          RoundStartOk(s.runner, order, |s.actors|);
          BalanceKeepsWf(RoundStarted(Observed(s, obs), order));
        }
    }
  }

  lemma SentKeepsWf(s: Trial, c: Collected, last: bool)
    requires Wf(s) && s.stepData != []
    ensures Wf(Sent(s, c, last))
  {
    var sample := LastSample(s);
    LastKeepsWf(s, sample.(defaultActors := sample.defaultActors + c.defaults,
                           unavailableActors := sample.unavailableActors + c.unavailable));
    TerminationKeepsWf(Noted(s, c));
  }

  lemma ProcessKeepsWf(s: Trial)
    requires Wf(s)
    ensures Wf(ProcessActions(s))
  {
    var u := s.(processing := false, lastActionTick := s.tick);
    if u.state != Ended {
      if !LastActions(u) {
        SentKeepsWf(u, CollectedNow(u), false);
      } else if CanSwitch(u.state, Terminating) {
        SentKeepsWf(Switched(u, Terminating), CollectedNow(u), true);
      } else {
        TerminationKeepsWf(u);
      }
    }
  }

  lemma RewardKeepsWf(s: Trial, reward: Reward)
    requires Wf(s)
    ensures Wf(RewardReceived(s, reward))
  {
  }

  lemma DisengageKeepsWf(s: Trial, index: nat)
    requires Wf(s) && index < |s.actors|
    ensures Wf(ActorDisengaging(s, index))
  {
  }

  lemma ActionKeepsWf(s: Trial, name: string, action: Action)
    requires Wf(s)
    ensures Wf(ActorActed(s, name, action))
  {
    var index := IndexOf(s.actors, name);
    if index.Some? {
      SignalOk(s.runner, index.value, |s.actors|);
    }
  }

  lemma NextKeepsWf(s: Trial, step: Step)
    requires Wf(s) && Enabled(s, step)
    ensures Wf(Next(s, step))
  {
    match step {
      case ObservationStep(obs, last, order) => ObservationKeepsWf(s, obs, last, order);
      case ActionStep(name, action) => ActionKeepsWf(s, name, action);
      case RewardStep(reward) => RewardKeepsWf(s, reward);
      case DisengageStep(index) => DisengageKeepsWf(s, index);
      case ProcessStep => ProcessKeepsWf(s);
      case TerminateStep => TerminationKeepsWf(s);
      case _ =>
    }
  }

  /** The state after the steps, when each is enabled in turn. */
  ghost function Run(s: Trial, steps: seq<Step>): (end: Option<Trial>)
    requires Wf(s)
    ensures end.Some? ==> Wf(end.value)
    decreases |steps|
  {
    if steps == [] then Some(s)
    else if !Enabled(s, steps[0]) then None
    else
      NextKeepsWf(s, steps[0]);
      Run(Next(s, steps[0]), steps[1..])
  }

  ghost predicate ReachedBy(s: Trial, p: Params, steps: seq<Step>) {
    && DistinctNames(p.actors)
    && (StartIsWf(p); Run(Started(p), steps) == Some(s))
  }

  /** A state some run of a started trial reaches. */
  ghost predicate Reachable(s: Trial) {
    exists p: Params, steps: seq<Step> :: ReachedBy(s, p, steps)
  }

  lemma {:induction false} RunOneMore(s: Trial, steps: seq<Step>, step: Step)
    requires Wf(s) && Run(s, steps).Some? && Enabled(Run(s, steps).value, step)
    ensures Run(s, steps + [step]) == Some(Next(Run(s, steps).value, step))
    decreases |steps|
  {
    if steps == [] {
      NextKeepsWf(s, step);
      assert [step][1..] == [];
    } else {
      NextKeepsWf(s, steps[0]);
      RunOneMore(Next(s, steps[0]), steps[1..], step);
      assert (steps + [step])[1..] == steps[1..] + [step];
    }
  }

  lemma StartIsReachable(p: Params)
    requires DistinctNames(p.actors)
    ensures Wf(Started(p)) && Reachable(Started(p))
  {
    StartIsWf(p);
    assert ReachedBy(Started(p), p, []);
  }

  lemma NextIsReachable(s: Trial, step: Step)
    requires Reachable(s) && Wf(s) && Enabled(s, step)
    ensures Wf(Next(s, step)) && Reachable(Next(s, step))
  {
    var p: Params, steps: seq<Step> :| ReachedBy(s, p, steps);
    NextKeepsWf(s, step);
    StartIsWf(p);
    RunOneMore(Started(p), steps, step);
    assert ReachedBy(Next(s, step), p, steps + [step]);
  }
}
