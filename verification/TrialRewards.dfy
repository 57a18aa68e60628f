/** Reward placement: the fast lookup agrees with the search, and no accepted reward is lost or duplicated. */
module TrialRewards {
  import opened Common
  import opened TrialEngine
  import opened TrialConservation

  ghost predicate Consecutive(samples: seq<Sample>) {
    forall k | 0 <= k < |samples| :: samples[k].tick == samples[0].tick + k
  }

  /** The direct lookup finds a sample exactly when the search from the back does, and then the same one. */
  lemma {:induction false} DirectLookupAgrees(samples: seq<Sample>, tick: nat)
    requires samples != [] && Consecutive(samples)
    ensures FindDirect(samples, tick) == FindReverse(samples, tick)
    ensures FindSample(samples, tick) == FindReverse(samples, tick)
    ensures FindReverse(samples, tick).Some? <==> samples[0].tick <= tick < samples[0].tick + |samples|
  {
    var found := FindReverse(samples, tick);
    var index := tick - samples[0].tick;
    if found.Some? {
      assert samples[found.value].tick == samples[0].tick + found.value;
    }
    assert 0 <= index < |samples| ==> samples[index].tick == samples[0].tick + index;
  }

  /** The buffered samples of every reachable state are those of the last ticks, the current one included. */
  lemma BufferIsConsecutive(s: Trial)
    requires Wf(s) && Conserved(s)
    ensures Consecutive(s.stepData)
    ensures s.stepData != [] ==> LastSample(s).tick == s.tick && s.stepData[0].tick == s.tick + 1 - |s.stepData|
    ensures |InSyncTicks(s.datalog)| == s.tick + 1 - |s.stepData|
    ensures forall tick: nat :: tick in InSyncTicks(s.datalog) <==> tick < s.tick + 1 - |s.stepData|
  {
    var logged, buffered := InSyncTicks(s.datalog), Ticks(s.stepData);
    var all := logged + buffered;
    assert all == Upto(s.tick + 1);
    forall k | 0 <= k < |s.stepData| ensures s.stepData[k].tick == |logged| + k {
      assert all[|logged| + k] == buffered[k];
    }
    forall tick: nat ensures tick in logged <==> tick < |logged| {
      if tick < |logged| {
        assert all[tick] == logged[tick];
      }
      if tick in logged {
        var i :| 0 <= i < |logged| && logged[i] == tick;
        assert all[i] == tick;
      }
    }
  }

  // ---- What the samples hold ----

  /** How many times the reward is in those of the first `n` samples that are of the given tick. */
  ghost function HeldUpTo(samples: seq<Sample>, n: nat, tick: nat, reward: Reward): nat
    requires n <= |samples|
  {
    if n == 0 then 0 else HeldUpTo(samples, n - 1, tick, reward) + HeldBy(samples[n - 1], tick, reward)
  }

  ghost function HeldBy(sample: Sample, tick: nat, reward: Reward): nat {
    if sample.tick == tick then multiset(sample.rewards)[reward] else 0
  }

  ghost function Held(samples: seq<Sample>, tick: nat, reward: Reward): nat {
    HeldUpTo(samples, |samples|, tick, reward)
  }

  lemma {:induction false} HeldPrefix(a: seq<Sample>, b: seq<Sample>, n: nat, tick: nat, reward: Reward)
    requires n <= |a| && n <= |b| && forall k | 0 <= k < n :: a[k] == b[k]
    ensures HeldUpTo(a, n, tick, reward) == HeldUpTo(b, n, tick, reward)
  {
    if n > 0 {
      HeldPrefix(a, b, n - 1, tick, reward);
    }
  }

  lemma {:induction false} HeldConcatUpTo(a: seq<Sample>, b: seq<Sample>, n: nat, tick: nat, reward: Reward)
    requires n <= |b|
    ensures HeldUpTo(a + b, |a| + n, tick, reward) == Held(a, tick, reward) + HeldUpTo(b, n, tick, reward)
  {
    if n == 0 {
      HeldPrefix(a, a + b, |a|, tick, reward);
    } else {
      HeldConcatUpTo(a, b, n - 1, tick, reward);
    }
  }

  lemma HeldConcat(a: seq<Sample>, b: seq<Sample>, tick: nat, reward: Reward)
    ensures Held(a + b, tick, reward) == Held(a, tick, reward) + Held(b, tick, reward)
  {
    HeldConcatUpTo(a, b, |b|, tick, reward);
  }

  lemma HeldOne(sample: Sample, tick: nat, reward: Reward)
    ensures Held([sample], tick, reward) == HeldBy(sample, tick, reward)
  {
    assert HeldUpTo([sample], 0, tick, reward) == 0;
  }

  lemma {:induction false} HeldUpdateUpTo(
    samples: seq<Sample>, i: nat, sample: Sample, n: nat, tick: nat, reward: Reward)
    requires i < |samples| && n <= |samples|
    ensures HeldUpTo(samples[i := sample], n, tick, reward) == HeldUpTo(samples, n, tick, reward)
              + if i < n then HeldBy(sample, tick, reward) - HeldBy(samples[i], tick, reward) else 0
  {
    if n > 0 {
      HeldUpdateUpTo(samples, i, sample, n - 1, tick, reward);
    }
  }

  lemma HeldUpdate(samples: seq<Sample>, i: nat, sample: Sample, tick: nat, reward: Reward)
    requires i < |samples|
    ensures Held(samples[i := sample], tick, reward)
         == Held(samples, tick, reward) - HeldBy(samples[i], tick, reward) + HeldBy(sample, tick, reward)
  {
    HeldUpdateUpTo(samples, i, sample, |samples|, tick, reward);
  }

  // ---- Every step ----

  /**
   * The reward was accepted for the tick exactly as often as it is in the samples of that tick,
   * logged or buffered.
   */
  ghost predicate Placed(s: Trial, tick: nat, reward: Reward) {
    multiset(s.hist.placed)[(tick, reward)] == Held(s.datalog, tick, reward) + Held(s.stepData, tick, reward)
  }

  lemma ClosedHolds(samples: seq<Sample>, state: LifeState, tick: nat, reward: Reward)
    ensures Held(Closed(samples, state), tick, reward) == Held(samples, tick, reward)
  {
    if samples != [] {
      HeldUpdate(samples, |samples| - 1, samples[|samples| - 1].(state := state), tick, reward);
    }
  }

  lemma LastKeepsPlaced(s: Trial, last: Sample, tick: nat, reward: Reward)
    requires Placed(s, tick, reward) && s.stepData != []
    requires last.tick == LastSample(s).tick && last.rewards == LastSample(s).rewards
    ensures Placed(WithLast(s, last), tick, reward)
  {
    HeldUpdate(s.stepData, |s.stepData| - 1, last, tick, reward);
  }

  lemma EndKeepsPlaced(s: Trial, tick: nat, reward: Reward)
    requires Placed(s, tick, reward)
    ensures Placed(Switched(s, Ended), tick, reward)
  {
    ClosedHolds(s.stepData, Ended, tick, reward);
    HeldConcat(s.datalog, Closed(s.stepData, Ended), tick, reward);
  }

  lemma TerminationKeepsPlaced(s: Trial, tick: nat, reward: Reward)
    requires Placed(s, tick, reward)
    ensures Placed(Terminated(s), tick, reward)
  {
    if s.state != Ended {
      EndKeepsPlaced(s, tick, reward);
    }
  }

  lemma NewSampleKeepsPlaced(s: Trial, tick: nat, reward: Reward)
    requires Placed(s, tick, reward)
    ensures Placed(WithNewSample(s), tick, reward)
  {
    var closed, added := Closed(s.stepData, s.state), EmptySample(s.tick, |s.actors|);
    ClosedHolds(s.stepData, s.state, tick, reward);
    HeldConcat(closed, [added], tick, reward);
    HeldOne(added, tick, reward);
  }

  lemma TickKeepsPlaced(s: Trial, tick: nat, reward: Reward)
    requires Placed(s, tick, reward)
    ensures Placed(WithTick(s), tick, reward)
  {
    if s.state.Ran() && s.tick < MAX_TICK {
      var t := s.(tick := s.tick + 1);
      assert Placed(t, tick, reward);
      NewSampleKeepsPlaced(t, tick, reward);
      assert WithTick(s) == WithNewSample(t);
    }
  }

  lemma BalanceKeepsPlaced(s: Trial, tick: nat, reward: Reward)
    requires Placed(s, tick, reward) && s.bufferSize > 0
    ensures Placed(Balanced(s), tick, reward)
  {
    if |s.stepData| >= s.bufferSize {
      var excess := |s.stepData| - (s.bufferSize - 1);
      HeldConcat(s.datalog, s.stepData[..excess], tick, reward);
      HeldConcat(s.stepData[..excess], s.stepData[excess..], tick, reward);
      assert s.stepData == s.stepData[..excess] + s.stepData[excess..];
    }
  }

  lemma ObservedKeepsPlaced(s: Trial, obs: ObservationSet, tick: nat, reward: Reward)
    requires Wf(s) && Placed(s, tick, reward) && ObservationVerdict(s, obs).Accepted?
    ensures Placed(Observed(s, obs), tick, reward)
  {
    TickKeepsPlaced(s, tick, reward);
    TickKeepsWf(s);
    var t := WithTick(s);
    LastKeepsPlaced(t, LastSample(t).(observations := Some(obs)), tick, reward);
  }

  lemma ObservationKeepsPlaced(s: Trial, step: Step, tick: nat, reward: Reward)
    requires Wf(s) && Placed(s, tick, reward) && step.ObservationStep? && Enabled(s, step)
    ensures Placed(Next(s, step), tick, reward)
  {
    match ObservationVerdict(s, step.obs) {
      case Dropped =>
      case Rejected => TickKeepsPlaced(s, tick, reward);
      case Accepted =>
        ObservedKeepsPlaced(s, step.obs, tick, reward);
        ObservedKeepsWf(s, step.obs);
        if !step.last {
          BalanceKeepsPlaced(RoundStarted(Observed(s, step.obs), step.order), tick, reward);
        }
    }
  }

  lemma ActionKeepsPlaced(s: Trial, name: string, action: Action, tick: nat, reward: Reward)
    requires s.runner.running <= |s.runner.entries| && Placed(s, tick, reward)
    requires s.stepData != [] ==> |LastSample(s).actions| == |s.actors|
    ensures Placed(ActorActed(s, name, action), tick, reward)
  {
    var index := IndexOf(s.actors, name);
    if index.Some? && s.stepData != [] {
      var sample := LastSample(s);
      var answered := sample.(actions := sample.actions[index.value := action]);
      LastKeepsPlaced(s, answered, tick, reward);
      var t := ActorActed(s, name, action);
      assert t.stepData == s.stepData || t.stepData == WithLast(s, answered).stepData;
      assert t.datalog == s.datalog && t.hist.placed == s.hist.placed;
    }
  }

  lemma RewardKeepsPlaced(s: Trial, received: Reward, tick: nat, reward: Reward)
    requires Placed(s, tick, reward)
    ensures Placed(RewardReceived(s, received), tick, reward)
  {
    var effective := EffectiveTick(s, received);
    if effective.Some? {
      assert multiset(s.hist.placed + [(effective.value, received)])
          == multiset(s.hist.placed) + multiset{(effective.value, received)};
      var i := FindSample(s.stepData, effective.value);
      if i.Some? {
        var sample := s.stepData[i.value];
        assert multiset(sample.rewards + [received]) == multiset(sample.rewards) + multiset{received};
        HeldUpdate(s.stepData, i.value, sample.(rewards := sample.rewards + [received]), tick, reward);
      } else {
        var late := OutOfSyncSample(effective.value, received);
        HeldConcat(s.datalog, [late], tick, reward);
        HeldOne(late, tick, reward);
      }
    }
  }

  lemma DisengageKeepsPlaced(s: Trial, index: nat, tick: nat, reward: Reward)
    requires HasSample(s) && Placed(s, tick, reward) && index < |s.actors|
    ensures Placed(ActorDisengaging(s, index), tick, reward)
  {
    if s.stepData != [] {
      var sample := LastSample(s);
      var cleared := sample.(actions := sample.actions[index := sample.actions[index].(tick := NO_DATA_TICK)]);
      LastKeepsPlaced(s, cleared, tick, reward);
    }
  }

  lemma SendKeepsPlaced(s: Trial, c: Collected, last: bool, tick: nat, reward: Reward)
    requires Placed(s, tick, reward) && s.stepData != []
    ensures Placed(Sent(s, c, last), tick, reward)
  {
    var sample := LastSample(s);
    var noted := sample.(defaultActors := sample.defaultActors + c.defaults,
                         unavailableActors := sample.unavailableActors + c.unavailable);
    LastKeepsPlaced(s, noted, tick, reward);
    TerminationKeepsPlaced(Noted(s, c), tick, reward);
  }

  lemma ProcessKeepsPlaced(s: Trial, tick: nat, reward: Reward)
    requires HasSample(s) && Placed(s, tick, reward)
    ensures Placed(ProcessActions(s), tick, reward)
  {
    var t := s.(processing := false);
    var u := t.(lastActionTick := t.tick);
    if t.nbActed >= t.nbAvailable && t.lastActionTick < t.tick && u.state != Ended {
      if !LastActions(u) {
        SendKeepsPlaced(u, CollectedNow(u), false, tick, reward);
      } else if CanSwitch(u.state, Terminating) {
        SendKeepsPlaced(Switched(u, Terminating), CollectedNow(u), true, tick, reward);
      } else {
        TerminationKeepsPlaced(u, tick, reward);
      }
    }
  }

  lemma NextKeepsPlaced(s: Trial, step: Step, tick: nat, reward: Reward)
    requires Wf(s) && Placed(s, tick, reward) && Enabled(s, step)
    ensures Placed(Next(s, step), tick, reward)
  {
    match step {
      case ObservationStep(_, _, _) => ObservationKeepsPlaced(s, step, tick, reward);
      case ActionStep(name, action) => ActionKeepsPlaced(s, name, action, tick, reward);
      case RewardStep(received) => RewardKeepsPlaced(s, received, tick, reward);
      case DisengageStep(index) => DisengageKeepsPlaced(s, index, tick, reward);
      case ProcessStep => ProcessKeepsPlaced(s, tick, reward);
      case TerminateStep => TerminationKeepsPlaced(s, tick, reward);
      case FinishStep => EndKeepsPlaced(s, tick, reward);
      case _ =>
    }
  }

  lemma {:induction false} RunKeepsPlaced(s: Trial, steps: seq<Step>, tick: nat, reward: Reward)
    requires Wf(s) && Placed(s, tick, reward)
    ensures Run(s, steps).Some? ==> Placed(Run(s, steps).value, tick, reward)
    decreases |steps|
  {
    if steps != [] && Enabled(s, steps[0]) {
      NextKeepsWf(s, steps[0]);
      NextKeepsPlaced(s, steps[0], tick, reward);
      RunKeepsPlaced(Next(s, steps[0]), steps[1..], tick, reward);
    }
  }

  // ---- The theorems ----

  /**
   * No accepted reward is lost or duplicated: over every run, a reward is in the samples of a tick, logged
   * or buffered, exactly as often as it was accepted for that tick.
   */
  lemma EveryRewardPlacedOnce(s: Trial, tick: nat, reward: Reward)
    requires Reachable(s)
    ensures multiset(s.hist.placed)[(tick, reward)] == Held(s.datalog + s.stepData, tick, reward)
  {
    var p: Params, steps: seq<Step> :| ReachedBy(s, p, steps);
    StartIsWf(p);
    HeldOne(Started(p).stepData[0], tick, reward);
    RunKeepsPlaced(Started(p), steps, tick, reward);
    HeldConcat(s.datalog, s.stepData, tick, reward);
  }

  /** A reward is accepted exactly when it comes before the end with no tick or one that has been reached. */
  lemma AcceptedRewards(s: Trial, reward: Reward)
    requires Reachable(s)
    ensures RewardReceived(s, reward).hist.placed != s.hist.placed <==>
              s.state != Ended && (reward.tick == AUTO_TICK || 0 <= reward.tick <= s.tick)
  {
    ReachableIsConserved(s);
    var placed := s.hist.placed;
    var tick := EffectiveTick(s, reward);
    assert tick.Some? ==> |placed + [(tick.value, reward)]| == |placed| + 1;
  }

  /**
   * Where an accepted reward goes: into the one buffered sample of its tick, or, exactly when the sample of
   * that tick is already in the log, into an out-of-sync sample of that tick.
   */
  lemma RewardDestination(s: Trial, reward: Reward)
    requires Reachable(s) && s.state != Ended
    requires reward.tick == AUTO_TICK || 0 <= reward.tick <= s.tick
    ensures var tick: nat := if reward.tick == AUTO_TICK then s.tick else reward.tick;
            var t := RewardReceived(s, reward);
            if tick in InSyncTicks(s.datalog) then
              && t.stepData == s.stepData
              && t.datalog == s.datalog + [OutOfSyncSample(tick, reward)]
            else
              && t.datalog == s.datalog
              && exists i :: 0 <= i < |s.stepData| && s.stepData[i].tick == tick
                   && (forall k | 0 <= k < |s.stepData| && k != i :: s.stepData[k].tick != tick)
                   && t.stepData == s.stepData[i := s.stepData[i].(rewards := s.stepData[i].rewards + [reward])]
  {
    ReachableIsConserved(s);
    BufferIsConsecutive(s);
    var tick: nat := if reward.tick == AUTO_TICK then s.tick else reward.tick;
    DirectLookupAgrees(s.stepData, tick);
  }
}
