/** Sample conservation: over every run each tick is sampled once, in order, and logged once. */
module TrialConservation {
  import opened Common
  import opened TrialEngine
  import T = TimeoutRunning

  /** The ticks of the first `n` samples that are not out-of-sync, in order. */
  ghost function InSyncUpTo(samples: seq<Sample>, n: nat): seq<nat>
    requires n <= |samples|
  {
    if n == 0 then []
    else InSyncUpTo(samples, n - 1) + if samples[n - 1].outOfSync then [] else [samples[n - 1].tick]
  }

  /** The ticks of the samples that are not out-of-sync, in order. */
  ghost function InSyncTicks(samples: seq<Sample>): seq<nat> {
    InSyncUpTo(samples, |samples|)
  }

  ghost function Ticks(samples: seq<Sample>): (ticks: seq<nat>)
    ensures |ticks| == |samples| && forall i | 0 <= i < |ticks| :: ticks[i] == samples[i].tick
  {
    seq(|samples|, i requires 0 <= i < |samples| => samples[i].tick)
  }

  /** The log followed by the buffer holds every tick up to the current one, once and in order. */
  ghost predicate Tiles(datalog: seq<Sample>, buffer: seq<Sample>, tick: nat) {
    && (forall k | 0 <= k < |buffer| :: !buffer[k].outOfSync)
    && InSyncTicks(datalog) + Ticks(buffer) == Upto(tick + 1)
  }

  /** Only the end marks a sample ENDED, and then only the last one logged. */
  ghost predicate EndMarked(state: LifeState, datalog: seq<Sample>, buffer: seq<Sample>) {
    if state == Ended then
      && datalog != [] && buffer == []
      && datalog[|datalog| - 1].state == Ended && !datalog[|datalog| - 1].outOfSync
      && forall k | 0 <= k < |datalog| - 1 :: datalog[k].outOfSync || Left(datalog[k].state)
    else
      && (forall k | 0 <= k < |datalog| :: datalog[k].outOfSync || Left(datalog[k].state))
      && (forall k | 0 <= k < |buffer| - 1 :: Left(buffer[k].state))
  }

  /** The states a tick other than the last one can end in. */
  ghost predicate Left(state: LifeState) {
    state == Running || state == Terminating
  }

  ghost predicate OutOfSyncUnmarked(samples: seq<Sample>) {
    forall k | 0 <= k < |samples| && samples[k].outOfSync :: samples[k].state == Unknown
  }

  ghost predicate StoreConserved(state: LifeState, store: Store, tick: nat) {
    && Tiles(store.datalog, store.stepData, tick)
    && EndMarked(state, store.datalog, store.stepData)
    && OutOfSyncUnmarked(store.datalog)
  }

  ghost predicate Conserved(s: Trial) {
    StoreConserved(s.state, s.store, s.tick)
  }

  // ---- The log as a sequence of ticks ----

  lemma {:induction false} InSyncOfAll(samples: seq<Sample>, n: nat)
    requires n <= |samples| && forall k | 0 <= k < |samples| :: !samples[k].outOfSync
    ensures InSyncUpTo(samples, n) == Ticks(samples)[..n]
  {
    if n > 0 {
      InSyncOfAll(samples, n - 1);
    }
  }

  lemma {:induction false} InSyncPrefix(a: seq<Sample>, b: seq<Sample>, n: nat)
    requires n <= |a|
    ensures InSyncUpTo(a + b, n) == InSyncUpTo(a, n)
  {
    if n > 0 {
      InSyncPrefix(a, b, n - 1);
    }
  }

  lemma {:induction false} InSyncConcat(a: seq<Sample>, b: seq<Sample>, n: nat)
    requires n <= |b|
    ensures InSyncUpTo(a + b, |a| + n) == InSyncTicks(a) + InSyncUpTo(b, n)
  {
    if n == 0 {
      InSyncPrefix(a, b, |a|);
    } else {
      InSyncConcat(a, b, n - 1);
    }
  }

  // ---- Each way the engine changes the log or the buffer ----

  lemma NewSampleTiles(s: Trial)
    requires Tiles(s.datalog, s.stepData, s.tick)
    ensures var t := WithNewSample(s.(tick := s.tick + 1)); Tiles(t.datalog, t.stepData, t.tick)
  {
    var t := WithNewSample(s.(tick := s.tick + 1));
    assert Ticks(t.stepData) == Ticks(s.stepData) + [s.tick + 1];
    assert Upto(s.tick + 2) == Upto(s.tick + 1) + [s.tick + 1];
  }

  lemma MoveTiles(datalog: seq<Sample>, buffer: seq<Sample>, k: nat, tick: nat)
    requires k <= |buffer| && Tiles(datalog, buffer, tick)
    ensures Tiles(datalog + buffer[..k], buffer[k..], tick)
  {
    var moved, kept := buffer[..k], buffer[k..];
    InSyncConcat(datalog, moved, k);
    InSyncOfAll(moved, k);
    calc {
      InSyncTicks(datalog + moved) + Ticks(kept);
      (InSyncTicks(datalog) + Ticks(moved)) + Ticks(kept);
      InSyncTicks(datalog) + (Ticks(moved) + Ticks(kept));
      { assert Ticks(buffer) == Ticks(moved) + Ticks(kept); }
      InSyncTicks(datalog) + Ticks(buffer);
    }
  }

  lemma SameTicksTile(datalog: seq<Sample>, buffer: seq<Sample>, buffer': seq<Sample>, tick: nat)
    requires Tiles(datalog, buffer, tick) && |buffer'| == |buffer|
    requires forall k | 0 <= k < |buffer| ::
               buffer'[k].tick == buffer[k].tick && buffer'[k].outOfSync == buffer[k].outOfSync
    ensures Tiles(datalog, buffer', tick)
  {
    assert Ticks(buffer') == Ticks(buffer);
  }

  lemma FlushTiles(s: Trial, state: LifeState)
    requires Tiles(s.datalog, s.stepData, s.tick)
    ensures var t := Flushed(s.(state := state)); Tiles(t.datalog, t.stepData, t.tick)
  {
    ClosedTiles(s.datalog, s.stepData, state, s.tick);
  }

  lemma ClosedTiles(datalog: seq<Sample>, buffer: seq<Sample>, state: LifeState, tick: nat)
    requires Tiles(datalog, buffer, tick)
    ensures Tiles(datalog + Closed(buffer, state), [], tick)
  {
    var closed := Closed(buffer, state);
    SameTicksTile(datalog, buffer, closed, tick);
    MoveTiles(datalog, closed, |closed|, tick);
    assert closed[..|closed|] == closed && closed[|closed|..] == [];
  }

  lemma OutOfSyncTiles(datalog: seq<Sample>, buffer: seq<Sample>, sample: Sample, tick: nat)
    requires Tiles(datalog, buffer, tick) && sample.outOfSync
    ensures Tiles(datalog + [sample], buffer, tick)
  {
    InSyncPrefix(datalog, [sample], |datalog|);
  }

  // ---- Every step ----

  lemma LastKeepsConserved(s: Trial, last: Sample)
    requires Conserved(s) && s.stepData != []
    requires last.tick == LastSample(s).tick && !last.outOfSync
    ensures Conserved(WithLast(s, last))
  {
    SameTicksTile(s.datalog, s.stepData, WithLast(s, last).stepData, s.tick);
  }

  lemma EndKeepsConserved(s: Trial)
    requires Conserved(s) && s.state != Ended && s.stepData != []
    ensures Conserved(Switched(s, Ended))
  {
    FlushTiles(s, Ended);
  }

  lemma TerminationKeepsConserved(s: Trial)
    requires Conserved(s) && (s.state != Ended ==> s.stepData != [])
    ensures Conserved(Terminated(s))
  {
    if s.state != Ended {
      EndKeepsConserved(s);
    }
  }

  lemma TickKeepsConserved(s: Trial)
    requires HasSample(s) && Conserved(s) && s.state != Ended
    ensures Conserved(WithTick(s))
  {
    NewSampleTiles(s);
  }

  lemma MoveMarked(state: LifeState, datalog: seq<Sample>, buffer: seq<Sample>, k: nat)
    requires k < |buffer| && state != Ended && EndMarked(state, datalog, buffer)
    ensures EndMarked(state, datalog + buffer[..k], buffer[k..])
  {
  }

  lemma BalanceKeepsConserved(s: Trial)
    requires HasSample(s) && Conserved(s) && s.state != Ended
    ensures Conserved(Balanced(s))
  {
    if |s.stepData| >= s.bufferSize {
      var excess := |s.stepData| - (s.bufferSize - 1);
      MoveKeepsConserved(s.state, s.store, excess, s.tick);
    }
  }

  lemma MoveKeepsConserved(state: LifeState, store: Store, k: nat, tick: nat)
    requires StoreConserved(state, store, tick) && state != Ended && k < |store.stepData|
    ensures StoreConserved(state, Store(store.stepData[k..], store.datalog + store.stepData[..k]), tick)
  {
    MoveTiles(store.datalog, store.stepData, k, tick);
    MoveMarked(state, store.datalog, store.stepData, k);
    MoveUnmarked(store.datalog, store.stepData, k);
  }

  lemma MoveUnmarked(datalog: seq<Sample>, buffer: seq<Sample>, k: nat)
    requires k <= |buffer| && OutOfSyncUnmarked(datalog) && forall i | 0 <= i < |buffer| :: !buffer[i].outOfSync
    ensures OutOfSyncUnmarked(datalog + buffer[..k])
  {
  }

  lemma ObservationKeepsConserved(s: Trial, obs: ObservationSet, last: bool, order: seq<T.Entry>)
    requires Wf(s) && Conserved(s) && Enabled(s, ObservationStep(obs, last, order))
    ensures Conserved(EnvObserved(s, obs, last, order))
  {
    if !ObservationVerdict(s, obs).Dropped? {
      var t := WithTick(s);
      TickKeepsWf(s);
      TickKeepsConserved(s);
      if ObservationVerdict(s, obs).Accepted? {
        LastKeepsConserved(t, LastSample(t).(observations := Some(obs)));
        ObservedKeepsWf(s, obs);
        if !last {
          var u := RoundStarted(Observed(s, obs), order);
          RoundStartOk(s.runner, order, |s.actors|);
          BalanceKeepsConserved(u);
        }
      }
    }
  }

  lemma ActionKeepsConserved(s: Trial, name: string, action: Action)
    requires s.runner.running <= |s.runner.entries| && Conserved(s)
    requires s.stepData != [] ==> |LastSample(s).actions| == |s.actors|
    ensures Conserved(ActorActed(s, name, action))
  {
    var index := IndexOf(s.actors, name);
    if index.Some? && s.stepData != [] {
      var sample := LastSample(s);
      var answered := sample.(actions := sample.actions[index.value := action]);
      LastKeepsConserved(s, answered);
      var t := ActorActed(s, name, action);
      assert t.stepData == s.stepData || t.stepData == WithLast(s, answered).stepData;
      assert t.datalog == s.datalog && t.tick == s.tick && t.state == s.state;
    }
  }

  lemma RewardKeepsConserved(s: Trial, reward: Reward)
    requires HasSample(s) && Conserved(s)
    ensures Conserved(RewardReceived(s, reward))
  {
    var tick := EffectiveTick(s, reward);
    if tick.Some? {
      var t := RewardReceived(s, reward);
      if FindSample(s.stepData, tick.value).Some? {
        SameTicksTile(s.datalog, s.stepData, t.stepData, s.tick);
      } else {
        OutOfSyncTiles(s.datalog, s.stepData, OutOfSyncSample(tick.value, reward), s.tick);
      }
    }
  }

  lemma DisengageKeepsConserved(s: Trial, index: nat)
    requires HasSample(s) && Conserved(s) && index < |s.actors|
    ensures Conserved(ActorDisengaging(s, index))
  {
    if s.stepData != [] {
      var sample := LastSample(s);
      LastKeepsConserved(s, sample.(actions := sample.actions[index := sample.actions[index].(tick := NO_DATA_TICK)]));
    }
  }

  lemma SendKeepsConserved(s: Trial, c: Collected, last: bool)
    requires Conserved(s) && s.stepData != []
    ensures Conserved(Sent(s, c, last))
  {
    var sample := LastSample(s);
    var noted := sample.(defaultActors := sample.defaultActors + c.defaults,
                         unavailableActors := sample.unavailableActors + c.unavailable);
    LastKeepsConserved(s, noted);
    TerminationKeepsConserved(Noted(s, c));
  }

  lemma ProcessKeepsConserved(s: Trial)
    requires HasSample(s) && Conserved(s)
    ensures Conserved(ProcessActions(s))
  {
    var t := s.(processing := false);
    var u := t.(lastActionTick := t.tick);
    if t.nbActed >= t.nbAvailable && t.lastActionTick < t.tick && u.state != Ended {
      if !LastActions(u) {
        SendKeepsConserved(u, CollectedNow(u), false);
      } else if CanSwitch(u.state, Terminating) {
        SendKeepsConserved(Switched(u, Terminating), CollectedNow(u), true);
      } else {
        TerminationKeepsConserved(u);
      }
    }
  }

  lemma NextKeepsConserved(s: Trial, step: Step)
    requires Wf(s) && Conserved(s) && Enabled(s, step)
    ensures Conserved(Next(s, step))
  {
    match step {
      case ObservationStep(obs, last, order) => ObservationKeepsConserved(s, obs, last, order);
      case ActionStep(name, action) => ActionKeepsConserved(s, name, action);
      case RewardStep(reward) => RewardKeepsConserved(s, reward);
      case DisengageStep(index) => DisengageKeepsConserved(s, index);
      case ProcessStep => ProcessKeepsConserved(s);
      case TerminateStep => TerminationKeepsConserved(s);
      case FinishStep =>
        if s.state != Ended {
          EndKeepsConserved(s);
        }
      case _ =>
    }
  }

  lemma {:induction false} RunKeepsConserved(s: Trial, steps: seq<Step>)
    requires Wf(s) && Conserved(s)
    ensures Run(s, steps).Some? ==> Conserved(Run(s, steps).value)
    decreases |steps|
  {
    if steps != [] && Enabled(s, steps[0]) {
      NextKeepsWf(s, steps[0]);
      NextKeepsConserved(s, steps[0]);
      RunKeepsConserved(Next(s, steps[0]), steps[1..]);
    }
  }

  lemma StartIsConserved(p: Params)
    requires DistinctNames(p.actors)
    ensures Conserved(Started(p))
  {
    var s := Started(p);
    assert Ticks(s.stepData) == Upto(1);
  }

  lemma ReachableIsConserved(s: Trial)
    requires Reachable(s)
    ensures Wf(s) && Conserved(s)
  {
    var p: Params, steps: seq<Step> :| ReachedBy(s, p, steps);
    StartIsWf(p);
    StartIsConserved(p);
    RunKeepsConserved(Started(p), steps);
  }

  // ---- The theorems ----

  /** In every reachable state the log followed by the buffer is exactly the ticks 0, 1, .., current. */
  lemma EveryTickOnceInOrder(s: Trial)
    requires Reachable(s)
    ensures InSyncTicks(s.datalog) + Ticks(s.stepData) == Upto(s.tick + 1)
    ensures s.state != Ended ==> s.stepData != []
    ensures s.state == Ended ==> s.stepData == [] && InSyncTicks(s.datalog) == Upto(s.tick + 1)
  {
    ReachableIsConserved(s);
    if s.state == Ended {
      assert InSyncTicks(s.datalog) + Ticks(s.stepData) == InSyncTicks(s.datalog);
    }
  }

  /**
   * The sample marked ENDED is the very last one logged, out-of-sync
   * samples included; there is none before the end.
   */
  lemma OnlyTheLastSampleIsEnded(s: Trial)
    requires Reachable(s)
    ensures s.state != Ended ==> forall k | 0 <= k < |s.datalog| :: s.datalog[k].state != Ended
    ensures s.state == Ended ==> s.datalog != []
    ensures s.state == Ended ==>
              forall k | 0 <= k < |s.datalog| :: s.datalog[k].state == Ended <==> k == |s.datalog| - 1
    ensures forall k | 0 <= k < |s.datalog| && s.datalog[k].state != Ended && !s.datalog[k].outOfSync ::
              s.datalog[k].state == Running || s.datalog[k].state == Terminating
  {
    ReachableIsConserved(s);
  }

  /** An accepted observation that is not the last leaves at least one sample buffered, and room for the next. */
  lemma BufferBound(s: Trial, obs: ObservationSet, order: seq<T.Entry>)
    requires Wf(s) && ObservationVerdict(s, obs).Accepted?
    ensures 1 <= |EnvObserved(s, obs, false, order).stepData| <= s.bufferSize - 1
    ensures LastSample(EnvObserved(s, obs, false, order)).observations == Some(obs)
  {
    ObservedKeepsWf(s, obs);
    var u := RoundStarted(Observed(s, obs), order);
    assert LastSample(u).observations == Some(obs);
    assert LastSample(Balanced(u)) == LastSample(u);
  }

  /** The end is final: nothing is logged or dispatched after it. */
  lemma EndedIsFinal(s: Trial, step: Step)
    requires Wf(s) && Enabled(s, step) && s.state == Ended
    ensures var t := Next(s, step);
            && t.state == Ended && t.tick == s.tick && t.stepData == []
            && t.datalog == s.datalog && t.dispatched == s.dispatched
  {
  }

  /** The life of a trial only moves forward, and what is logged or dispatched stays so. */
  lemma OnlyForward(s: Trial, step: Step)
    requires Wf(s) && Enabled(s, step)
    ensures Forward(s, Next(s, step))
  {
    match step {
      case ObservationStep(obs, last, order) => ObservationIsForward(s, obs, last, order);
      case ActionStep(name, action) => ActionIsForward(s, name, action);
      case ProcessStep => ProcessIsForward(s);
      case _ =>
    }
  }

  lemma BalanceIsForward(s: Trial)
    requires s.bufferSize > 0
    ensures Forward(s, Balanced(s)) && Balanced(s).tick == s.tick
  {
  }

  lemma TickIsForward(s: Trial)
    ensures Forward(s, WithTick(s)) && WithTick(s).datalog == s.datalog
  {
  }

  lemma ObservationIsForward(s: Trial, obs: ObservationSet, last: bool, order: seq<T.Entry>)
    requires Wf(s)
    ensures Forward(s, EnvObserved(s, obs, last, order))
  {
    TickIsForward(s);
    if ObservationVerdict(s, obs).Accepted? {
      ObservedKeepsWf(s, obs);
      var u := Observed(s, obs);
      if last {
        assert EnvObserved(s, obs, last, order) == Finishing(u);
      } else {
        BalanceIsForward(RoundStarted(u, order));
        assert EnvObserved(s, obs, last, order) == Balanced(RoundStarted(u, order));
      }
    }
  }

  lemma ActionIsForward(s: Trial, name: string, action: Action)
    requires s.runner.running <= |s.runner.entries|
    requires s.stepData != [] ==> |LastSample(s).actions| == |s.actors|
    ensures Forward(s, ActorActed(s, name, action))
  {
  }

  lemma ProcessIsForward(s: Trial)
    requires HasSample(s)
    ensures Forward(s, ProcessActions(s))
  {
    var t := s.(processing := false);
    var u := t.(lastActionTick := t.tick);
    if t.nbActed >= t.nbAvailable && t.lastActionTick < t.tick && u.state != Ended {
      if !LastActions(u) {
        SendIsForward(u, CollectedNow(u), false);
      } else if CanSwitch(u.state, Terminating) {
        SendIsForward(Switched(u, Terminating), CollectedNow(u), true);
      } else {
        assert ProcessActions(s) == Terminated(u);
      }
    }
  }

  ghost predicate Forward(s: Trial, t: Trial) {
    && s.state.Rank() <= t.state.Rank()
    && s.tick <= t.tick <= s.tick + 1
    && s.datalog <= t.datalog
    && s.dispatched <= t.dispatched
  }

  lemma SendIsForward(s: Trial, c: Collected, last: bool)
    requires s.stepData != [] && s.state != Ended
    ensures Forward(s, Sent(s, c, last))
  {
    var t := Noted(s, c);
    assert t.datalog == s.datalog && t.dispatched == s.dispatched;
    if c.missingRequired {
      assert Terminated(t).dispatched == s.dispatched;
    }
  }
}
