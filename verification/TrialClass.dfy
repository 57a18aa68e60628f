/**
 * The trial as the object the orchestrator keeps: its fields are updated in place by the entry points.
 *
 * Every method is tied to the specification step of the same name, so all that is proved of the steps and of
 * their runs holds of the object.
 */
module TrialObject {
  import opened Common
  import opened E = TrialEngine
  import T = TimeoutRunning
  import R = TimeoutRunnerObject

  /** The outcome of building an action set: the set, or an exception that names no actor. */
  datatype ActionSetResult = Built(actions: ActionSet) | RequiredUnavailable

  class LiveTrial {
    const actors: seq<ActorConfig>
    const nbBufferedSamples: nat
    const maxSteps: nat

    var state: LifeState
    var tickId: nat
    var endRequested: bool
    var finishing: nat
    var stepData: seq<Sample>
    var datalog: seq<Sample>
    var nbActorsActed: int
    var nbAvailableActors: int
    var lastActionTick: int
    const responseTimeouts: R.TimeoutRunner
    const actionSignal: R.SimpleSignal
    var processing: bool
    var disengaged: set<nat>
    var dispatched: seq<Dispatch>
    ghost var hist: History

    ghost function View(): Trial
      reads this, responseTimeouts, actionSignal
    {
      Trial(Config(actors, nbBufferedSamples, maxSteps), state, tickId, endRequested, finishing,
            Store(stepData, datalog), nbActorsActed, nbAvailableActors, lastActionTick,
            responseTimeouts.View(), actionSignal.signalled, processing, disengaged, Outbox(dispatched), hist)
    }

    /** The trial as `start` leaves it. */
    constructor (p: Params)
      requires DistinctNames(p.actors)
      ensures View() == Started(p)
      ensures fresh(Footprint())
    {
      actors := p.actors;
      nbBufferedSamples := if p.bufferedTicks >= MIN_BUFFERED then p.bufferedTicks else DEFAULT_BUFFERED;
      maxSteps := if p.maxSteps > 0 then p.maxSteps else MAX_UINT64;
      state, tickId, endRequested, finishing := Initializing, 0, false, 0;
      stepData, datalog, dispatched, disengaged := [], [], [], {};
      nbActorsActed, nbAvailableActors, lastActionTick, processing := 0, |p.actors|, -1, false;
      responseTimeouts := new R.TimeoutRunner();
      actionSignal := new R.SimpleSignal();
      hist := History([], [], NO_RECORD, [], {}, {}, {}, false, false);
      new;
      PrepareTimeouts();
      MakeNewSample();
      hist := hist.(past := [], now := NO_RECORD);
      var _ := SetState(Pending);
    }

    /** The part of `prepare_actors` about response timeouts. */
    method PrepareTimeouts()
      requires responseTimeouts.View() == T.NewRunner()
      modifies responseTimeouts
      ensures responseTimeouts.View() == WithTimeouts(actors, |actors|)
    {
      var index := 0;
      while index < |actors|
        invariant 0 <= index <= |actors|
        invariant responseTimeouts.View() == WithTimeouts(actors, index)
        modifies responseTimeouts
      {
        if actors[index].timeout > 0 {
          responseTimeouts.Add(actors[index].timeout, index);
        }
        index := index + 1;
      }
    }

    ghost function Footprint(): set<object> {
      {this, responseTimeouts, actionSignal}
    }

    /** `set_state`, all but the notification of the watchers; false for an exception. */
    method SetState(newState: LifeState) returns (ok: bool)
      modifies this
      ensures ok == CanSwitch(old(state), newState)
      ensures View() == if ok then Switched(old(View()), newState) else old(View())
    {
      var invalid := match state {
        case Unknown => newState != Initializing
        case Initializing => newState != Pending
        case Pending => newState != Running
        case Running => newState != Terminating
        case Terminating => newState != Ended && newState != Terminating
        case Ended => newState != Ended
      };
      if invalid && newState != Ended {
        return false;
      }
      if state != newState {
        state := newState;
        if newState == Ended {
          FlushSamples();
        }
      }
      ok := true;
    }

    method FlushSamples()
      modifies this`stepData, this`datalog
      ensures View() == Flushed(old(View()))
    {
      CloseLast();
      var i := 0;
      while i < |stepData|
        invariant 0 <= i <= |stepData|
        invariant stepData == Closed(old(stepData), state)
        invariant datalog == old(datalog) + stepData[..i]
      {
        datalog := datalog + [stepData[i]];
        i := i + 1;
      }
      assert stepData[..i] == stepData;
      stepData := [];
    }

    method CloseLast()
      modifies this`stepData
      ensures stepData == Closed(old(stepData), state)
    {
      if stepData != [] {
        var last := |stepData| - 1;
        stepData := stepData[last := stepData[last].(state := state)];
      }
    }

    /** False for the exception thrown when the tick has reached its limit. */
    method AdvanceTick() returns (ok: bool)
      modifies this`tickId
      ensures ok == (old(tickId) < MAX_TICK)
      ensures tickId == if ok then old(tickId) + 1 else old(tickId)
    {
      ok := tickId < MAX_TICK;
      if ok {
        tickId := tickId + 1;
      }
    }

    method MakeNewSample()
      modifies this
      ensures View() == WithNewSample(old(View()))
    {
      CloseLast();
      var actions: seq<Action> := [];
      while |actions| < |actors|
        invariant |actions| <= |actors|
        invariant actions == NullActions(|actions|)
      {
        actions := actions + [Action(NO_DATA_TICK, [])];
      }
      stepData := stepData + [Sample(tickId, Unknown, false, None, actions, [], [], [])];
      nbActorsActed := 0;
      hist := hist.(past := hist.past + [hist.now.(left := state)], now := NO_RECORD,
                    counted := [], answered := {}, timedOut := {}, withdrawal := false, started := false);
    }

    /** Stores the observations in the current sample; false for an exception. */
    method NewObs(obs: ObservationSet) returns (ok: bool)
      requires tickId <= MAX_TICK
      modifies this`stepData
      ensures ok == ObservationTickFits(obs.tick, tickId)
      ensures stepData == if ok && old(stepData) != []
                          then old(stepData)[|old(stepData)| - 1 :=
                                 old(stepData)[|old(stepData)| - 1].(observations := Some(obs))]
                          else old(stepData)
    {
      if obs.tick == AUTO_TICK {
      } else if obs.tick < 0 {
        return false;
      } else if obs.tick < tickId {
        return false;
      } else if obs.tick > MAX_TICK {
        return false;
      } else if obs.tick > tickId {
        return false;
      }
      if stepData != [] {
        var last := |stepData| - 1;
        stepData := stepData[last := stepData[last].(observations := Some(obs))];
      }
      ok := true;
    }

    method BalanceSampleBuffer()
      requires nbBufferedSamples > 0
      modifies this`stepData, this`datalog
      ensures View() == Balanced(old(View()))
    {
      ghost var n := 0;
      while |stepData| >= nbBufferedSamples
        invariant 0 <= n <= |old(stepData)|
        invariant n > 0 ==> |old(stepData)| - n >= nbBufferedSamples - 1
        invariant stepData == old(stepData)[n..]
        invariant datalog == old(datalog) + old(stepData)[..n]
        decreases |stepData|
      {
        assert old(stepData)[..n + 1] == old(stepData)[..n] + [stepData[0]];
        datalog := datalog + [stepData[0]];
        stepData := stepData[1..];
        n := n + 1;
      }
    }

    /** The first half of `env_observed`: the tick advances, or the trial starts to run.  False for an exception. */
    method OpenTick() returns (ok: bool)
      requires Wf(View()) && state != Ended
      modifies this
      ensures View() == WithTick(old(View()))
      ensures ok <==> !(old(state).Ran() && old(tickId) >= MAX_TICK)
    {
      if state.Ran() {
        ok := AdvanceTick();
        if ok {
          MakeNewSample();
        }
      } else {
        ok := SetState(Running);
      }
    }

    /** Up to and including `new_obs`; false for an exception. */
    method TakeObservation(obs: ObservationSet) returns (ok: bool)
      requires Wf(View()) && state != Ended
      modifies this
      ensures ok == ObservationVerdict(old(View()), obs).Accepted?
      ensures View() == if ok then Observed(old(View()), obs) else WithTick(old(View()))
    {
      ok := OpenTick();
      if ok {
        TickKeepsWf(old(View()));
        ok := NewObs(obs);
        if ok {
          hist := WithObserved(hist, obs);
        }
      }
    }

    /** What follows an accepted observation that is not the last. */
    method StartRound() returns (ghost order: seq<T.Entry>)
      requires nbBufferedSamples > 0
      modifies Footprint()
      ensures T.StartOrder(old(responseTimeouts.View()), order)
      ensures View() == Balanced(RoundStarted(old(View()), order))
    {
      order := responseTimeouts.Start();
      hist := hist.(started := true);
      BalanceSampleBuffer();
    }

    /** What follows the last observation. */
    method EnvironmentEnded()
      requires CanSwitch(state, Terminating)
      modifies this
      ensures View() == Finishing(old(View()))
    {
      var _ := SetState(Terminating);
      finishing := finishing + 1;
    }

    /** `order` is the order given by the sort at the start of a round. */
    method EnvObserved(obs: ObservationSet, last: bool) returns (verdict: Verdict, ghost order: seq<T.Entry>)
      requires Wf(View())
      modifies Footprint()
      ensures verdict == ObservationVerdict(old(View()), obs)
      ensures E.Enabled(old(View()), ObservationStep(obs, last, order))
      ensures View() == E.EnvObserved(old(View()), obs, last, order)
    {
      order := [];
      if !state.Started() || state == Ended {
        return Dropped, [];
      }
      var ok := TakeObservation(obs);
      if !ok {
        return Rejected, [];
      }
      verdict := Accepted;
      ObservedKeepsWf(old(View()), obs);
      if !last {
        order := StartRound();
      } else {
        EnvironmentEnded();
      }
    }

    /** The index of an actor, from the table filled when the actors were prepared. */
    method FindActor(name: string) returns (index: Option<nat>)
      ensures index == IndexOf(actors, name)
    {
      var i := |actors|;
      assert actors[..i] == actors;
      while i > 0
        invariant 0 <= i <= |actors|
        invariant IndexOf(actors, name) == IndexOf(actors[..i], name)
      {
        assert actors[..i][..i - 1] == actors[..i - 1];
        if actors[i - 1].name == name {
          return Some(i - 1);
        }
        i := i - 1;
      }
      index := None;
    }

    method ActorActed(name: string, action: Action)
      requires Wf(View())
      modifies Footprint()
      ensures View() == E.ActorActed(old(View()), name, action)
    {
      if !state.Started() || state == Ended {
        return;
      }
      var index := FindActor(name);
      if index.None? || stepData == [] || (action.tick != AUTO_TICK && action.tick != tickId) {
        return;
      }
      hist := WithOffer(hist, Offered(index.value, action));
      var last := |stepData| - 1;
      var sample := stepData[last];
      if sample.actions[index.value].tick != NO_DATA_TICK {
        return;
      }
      stepData := stepData[last := sample.(actions := sample.actions[index.value := action])];
      hist := hist.(answered := hist.answered + {index.value});
      SignalAnswer(index.value);
    }

    method SignalAnswer(index: nat)
      requires responseTimeouts.runningSize <= |responseTimeouts.timeouts|
      modifies this`nbActorsActed, this`hist, responseTimeouts, actionSignal
      ensures View() == WithEffect(old(View()), T.Signal(old(responseTimeouts.View()), index))
    {
      var counted, term := responseTimeouts.Signal(index);
      CallBack(counted, term);
    }

    /** What the functions given to the runner do. */
    method CallBack(counted: seq<nat>, term: bool)
      modifies this`nbActorsActed, this`hist, actionSignal
      ensures nbActorsActed == old(nbActorsActed) + |counted|
      ensures hist == old(hist).(counted := old(hist).counted + counted)
      ensures actionSignal.signalled == (old(actionSignal.signalled) || term)
    {
      nbActorsActed := nbActorsActed + |counted|;
      hist := hist.(counted := hist.counted + counted);
      if term {
        actionSignal.Signal();
      }
    }

    method MakeActionSet() returns (result: ActionSetResult)
      requires stepData != [] && |stepData[|stepData| - 1].actions| == |actors|
      modifies this`stepData, this`hist
      ensures var c := CollectedNow(old(View()));
              && View() == Noted(old(View()), c)
              && result == if c.missingRequired then RequiredUnavailable
                           else Built(ActionSet(tickId, c.contents, c.unavailable))
    {
      var last := |stepData| - 1;
      var sample := stepData[last];
      ghost var first := sample;
      var contents: seq<bytes>, unavailable: seq<nat>, missing := [], [], false;
      var index := 0;
      while index < |actors|
        invariant 0 <= index <= |actors|
        invariant var c := Collect(actors, first.actions, tickId, index);
                  && contents == c.contents && unavailable == c.unavailable && missing == c.missingRequired
                  && sample == first.(defaultActors := first.defaultActors + c.defaults,
                                      unavailableActors := first.unavailableActors + c.unavailable)
      {
        var act := sample.actions[index];
        if act.tick == AUTO_TICK || act.tick == tickId {
          contents := contents + [act.content];
        } else if act.tick == NO_DATA_TICK {
          if !actors[index].isOptional {
            missing := true;
          }
          if actors[index].defaultAction.Some? {
            contents := contents + [actors[index].defaultAction.value];
            sample := sample.(defaultActors := sample.defaultActors + [index]);
          } else {
            contents := contents + [[]];
            unavailable := unavailable + [index];
            sample := sample.(unavailableActors := sample.unavailableActors + [index]);
          }
        }
        index := index + 1;
      }
      stepData := stepData[last := sample];
      hist := WithCollected(hist);
      result := if missing then RequiredUnavailable else Built(ActionSet(tickId, contents, unavailable));
    }

    method DispatchActions(last: bool)
      requires stepData != [] && |stepData[|stepData| - 1].actions| == |actors|
      modifies this
      ensures View() == Sent(old(View()), CollectedNow(old(View())), last)
    {
      var result := MakeActionSet();
      match result
      case Built(actions) => dispatched := dispatched + [Dispatch(actions, last)];
      case RequiredUnavailable => Terminate();  // the action thread's handler of exceptions
    }

    method TakeSignal()
      requires actionSignal.signalled && !processing
      modifies Footprint()
      ensures View() == E.TakeSignal(old(View()))
    {
      actionSignal.Wait();
      processing := true;
    }

    method ProcessActions()
      requires HasSample(View())
      modifies this
      ensures View() == E.ProcessActions(old(View()))
    {
      processing := false;
      if nbActorsActed < nbAvailableActors || lastActionTick >= tickId {
        return;
      }
      lastActionTick := tickId;
      if state != Ended {
        DispatchDue();
      }
    }

    /** The last part of `process_actions`: the actions go to the environment, and the trial ends when that is due. */
    method DispatchDue()
      requires stepData != [] && |stepData[|stepData| - 1].actions| == |actors|
      modifies this
      ensures var s := old(View());
              View() == if !LastActions(s) then Sent(s, CollectedNow(s), false)
                        else if CanSwitch(s.state, Terminating) then
                          Sent(Switched(s, Terminating), CollectedNow(s), true)
                        else Terminated(s)
    {
      if tickId < maxSteps && !endRequested {
        DispatchActions(false);
      } else {
        var ok := SetState(Terminating);
        if ok {
          DispatchActions(true);
        } else {
          Terminate();
        }
      }
    }

    method Terminate()
      modifies this
      ensures View() == Terminated(old(View()))
    {
      if state == Ended {
        return;
      }
      var _ := SetState(Terminating);
      var _ := SetState(Ended);
    }

    /** The thread started by the environment's last observation ends the trial. */
    method Finish()
      requires finishing > 0
      modifies this
      ensures View() == Switched(old(View()), Ended).(finishing := old(finishing) - 1)
    {
      finishing := finishing - 1;
      var _ := SetState(Ended);
    }

    method RequestEnd()
      modifies this`endRequested
      ensures View() == old(View()).(endRequested := true)
    {
      endRequested := true;
    }

    method EmptySlot(index: nat)
      requires stepData != [] && index < |LastSample(View()).actions|
      modifies this`stepData
      ensures var sample := LastSample(old(View()));
              View() == WithLast(old(View()), sample.(actions :=
                sample.actions[index := sample.actions[index].(tick := NO_DATA_TICK)]))
    {
      var last := |stepData| - 1;
      var sample := stepData[last];
      var actions := sample.actions[index := sample.actions[index].(tick := NO_DATA_TICK)];
      stepData := stepData[last := sample.(actions := actions)];
    }

    method ActorDisengaging(index: nat)
      requires HasSample(View()) && index < |actors|
      modifies Footprint()
      ensures View() == E.ActorDisengaging(old(View()), index)
    {
      disengaged := disengaged + {index};
      if state.Terminating? || state.Ended? || stepData == [] {
        return;
      }
      EmptySlot(index);
      responseTimeouts.Remove(index);
      nbAvailableActors := nbAvailableActors - 1;
      actionSignal.Signal();
      hist := WithOffer(hist, Withdrawn(index)).(withdrawn := hist.withdrawn + {index}, withdrawal := true);
    }

    // ---- The runner's thread ----

    method RunnerWaits()
      modifies responseTimeouts
      ensures View() == old(View()).(runner := T.Wait(old(View()).runner))
    {
      var _ := responseTimeouts.StartWaiting();
    }

    method RunnerWakes()
      requires responseTimeouts.runningSize <= |responseTimeouts.timeouts|
      modifies Footprint()
      ensures View() == E.RunnerWakes(old(View()))
    {
      var counted, term := responseTimeouts.EndWaiting(true);
      CallBack(counted, term);
    }

    method RunnerTimesOut()
      requires responseTimeouts.runningSize <= |responseTimeouts.timeouts|
      modifies Footprint()
      ensures View() == E.RunnerTimesOut(old(View()))
    {
      var counted, term := responseTimeouts.EndWaiting(false);
      hist := hist.(timedOut := hist.timedOut + set x | x in counted);
      CallBack(counted, term);
    }

    // ---- Rewards ----

    method SearchBack(tick: nat) returns (i: Option<nat>)
      ensures i == FindReverse(stepData, tick)
    {
      var k := |stepData|;
      assert stepData[..k] == stepData;
      while k > 0
        invariant 0 <= k <= |stepData|
        invariant FindReverse(stepData, tick) == FindReverse(stepData[..k], tick)
      {
        assert stepData[..k][..k - 1] == stepData[..k - 1];
        if stepData[k - 1].tick == tick {
          return Some(k - 1);
        }
        k := k - 1;
      }
      i := None;
    }

    method FindBuffered(tick: nat) returns (i: Option<nat>)
      requires stepData != [] && tick <= tickId
      ensures i == FindSample(stepData, tick)
    {
      i := None;
      if tick >= stepData[0].tick {
        var index := tick - stepData[0].tick;
        if index < |stepData| && stepData[index].tick == tick {
          i := Some(index);
        }
        if i.None? {
          i := SearchBack(tick);
        }
      }
    }

    method RewardReceived(reward: Reward)
      modifies this
      ensures View() == E.RewardReceived(old(View()), reward)
    {
      if !state.Started() {
        return;
      }
      var tick := reward.tick;
      if tick == AUTO_TICK || tick == tickId {
        tick := tickId;
      }
      if tick < 0 || tick > tickId || stepData == [] {
        return;
      }
      hist := hist.(placed := hist.placed + [(tick, reward)]);
      var i := FindBuffered(tick);
      if i.Some? {
        stepData := stepData[i.value := stepData[i.value].(rewards := stepData[i.value].rewards + [reward])];
      } else {
        datalog := datalog + [OutOfSyncSample(tick, reward)];
      }
    }
  }
}
