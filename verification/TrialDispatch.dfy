/**
 * No lost dispatch: the count of answers is spread over three threads, yet once enough actors are
 * counted the tick is always dispatched, within a bounded number of steps of the two internal threads.
 */
module TrialDispatch {
  import opened Common
  import opened TrialEngine
  import T = TimeoutRunning
  import A = TrialActions
  import C = TrialCounting

  /** The tick has an observation, enough actors are counted, and its actions have not been sent. */
  ghost predicate Due(s: Trial) {
    s.hist.started && s.state != Ended && s.nbActed >= s.nbAvailable && s.lastActionTick < s.tick
  }

  ghost predicate Covered(s: Trial) {
    s.signalled || s.processing || s.runner.wake || s.runner.running > 0
  }

  /** A tick that has been processed without ending the trial is the last one dispatched. */
  ghost predicate Recorded(s: Trial) {
    s.state != Ended && s.lastActionTick >= 0 ==>
      s.dispatched != [] && s.dispatched[|s.dispatched| - 1].actions.tick == s.lastActionTick
  }

  ghost predicate DispatchOk(s: Trial) {
    (Due(s) ==> Covered(s)) && Recorded(s)
  }

  lemma ActionKeepsDispatch(s: Trial, name: string, action: Action)
    requires T.Inv(s.runner) && DispatchOk(s)
    requires s.stepData != [] ==> |LastSample(s).actions| == |s.actors|
    ensures DispatchOk(ActorActed(s, name, action))
  {
    var t := ActorActed(s, name, action);
    assert t.dispatched == s.dispatched && t.lastActionTick == s.lastActionTick;
    if t.hist.answered != s.hist.answered {
      var e := T.Signal(s.runner, IndexOf(s.actors, name).value);
      assert t.runner == e.runner && t.signalled == (s.signalled || e.term);
      assert e.term || e.runner.wake || e.runner.running > 0;
    }
  }

  lemma ObservationKeepsDispatch(s: Trial, obs: ObservationSet, last: bool, order: seq<T.Entry>)
    requires Wf(s) && DispatchOk(s)
    ensures DispatchOk(EnvObserved(s, obs, last, order))
  {
    match ObservationVerdict(s, obs) {
      case Dropped =>
      case Rejected =>
      case Accepted =>
        ObservedKeepsWf(s, obs);
        AfterObserved(Observed(s, obs), last, order);
    }
  }

  lemma AfterObserved(u: Trial, last: bool, order: seq<T.Entry>)
    requires u.bufferSize > 0 && Recorded(u) && CanSwitch(u.state, Terminating) && u.state != Ended
    requires Due(u) ==> Covered(u)
    ensures DispatchOk(if last then Finishing(u) else Balanced(RoundStarted(u, order)))
  {
  }

  lemma SendRecords(s: Trial, c: Collected, last: bool)
    requires s.stepData != [] && s.lastActionTick == s.tick
    ensures DispatchOk(Sent(s, c, last))
  {
  }

  lemma ProcessKeepsDispatch(s: Trial)
    requires HasSample(s) && DispatchOk(s)
    ensures DispatchOk(ProcessActions(s)) && !Due(ProcessActions(s))
  {
    var t := s.(processing := false);
    var u := t.(lastActionTick := t.tick);
    if t.nbActed >= t.nbAvailable && t.lastActionTick < t.tick && u.state != Ended {
      if !LastActions(u) {
        SendRecords(u, CollectedNow(u), false);
      } else if CanSwitch(u.state, Terminating) {
        SendRecords(Switched(u, Terminating), CollectedNow(u), true);
      }
    }
  }

  lemma NextKeepsDispatch(s: Trial, step: Step)
    requires Wf(s) && DispatchOk(s) && Enabled(s, step)
    ensures DispatchOk(Next(s, step))
  {
    match step {
      case ObservationStep(obs, last, order) => ObservationKeepsDispatch(s, obs, last, order);
      case ActionStep(name, action) => ActionKeepsDispatch(s, name, action);
      case ProcessStep => ProcessKeepsDispatch(s);
      case DisengageStep(index) => DisengageKeepsDispatch(s, index);
      case TimeOutStep => TimeOutKeepsDispatch(s);
      case _ => OthersKeepDispatch(s, step);
    }
  }

  lemma DisengageKeepsDispatch(s: Trial, index: nat)
    requires index < |s.actors| && DispatchOk(s)
    requires s.stepData != [] ==> |LastSample(s).actions| == |s.actors|
    ensures DispatchOk(ActorDisengaging(s, index))
  {
  }

  lemma TimeOutKeepsDispatch(s: Trial)
    requires s.runner.running <= |s.runner.entries| && DispatchOk(s)
    ensures DispatchOk(RunnerTimesOut(s))
  {
  }

  lemma OthersKeepDispatch(s: Trial, step: Step)
    requires Wf(s) && DispatchOk(s) && Enabled(s, step)
    requires step.RewardStep? || step.TerminateStep? || step.FinishStep? || Quiet(step)
    ensures DispatchOk(Next(s, step))
  {
    match step {
      case RewardStep(reward) => A.RewardTouches(s, reward);
      case _ =>
    }
  }

  lemma {:induction false} RunKeepsDispatch(s: Trial, steps: seq<Step>)
    requires Wf(s) && DispatchOk(s)
    ensures Run(s, steps).Some? ==> DispatchOk(Run(s, steps).value)
    decreases |steps|
  {
    if steps != [] && Enabled(s, steps[0]) {
      NextKeepsWf(s, steps[0]);
      NextKeepsDispatch(s, steps[0]);
      RunKeepsDispatch(Next(s, steps[0]), steps[1..]);
    }
  }

  lemma ReachableDispatch(s: Trial)
    requires Reachable(s)
    ensures Wf(s) && DispatchOk(s)
  {
    var p: Params, steps: seq<Step> :| ReachedBy(s, p, steps);
    StartIsWf(p);
    RunKeepsDispatch(Started(p), steps);
  }

  /**
   * In every reachable state where a dispatch is due: the action signal is raised or being processed, or
   * a wake of the runner is pending on an empty round, or an entry remains and the runner's thread has its
   * timer armed, is about to be woken, or is about to wait.
   */
  lemma NoLostDispatch(s: Trial)
    requires Reachable(s) && Due(s)
    ensures || s.signalled || s.processing
            || (s.runner.running == 0 && s.runner.wake)
            || (s.runner.running > 0 &&
                (s.runner.pc == T.Waiting(true) || s.runner.wake || s.runner.pc.Outside?))
  {
    ReachableDispatch(s);
  }

  // ---- The two internal threads ----

  /** A step of the action thread or of the runner's thread. */
  predicate Internal(step: Step) {
    step.TakeStep? || step.ProcessStep? || step.WaitStep? || step.WakeStep? || step.TimeOutStep?
  }

  /** How many steps the two threads can still take before a due dispatch must have happened. */
  ghost function Patience(s: Trial): nat {
    var runner := (if s.runner.running > 0 then 2 else 0)
                + (if s.runner.wake then 2 else 0)
                + (if s.runner.pc.Outside? then 1 else 0);
    3 * runner + (if s.signalled then 2 else 0) + (if s.processing then 1 else 0)
  }

  /** While a dispatch is due the internal threads are never both blocked. */
  lemma DueIsNeverStuck(s: Trial)
    requires Wf(s) && DispatchOk(s) && Due(s)
    ensures exists step :: Internal(step) && Enabled(s, step)
  {
    if s.processing {
      assert Enabled(s, ProcessStep);
    } else if s.signalled {
      assert Enabled(s, TakeStep);
    } else if s.runner.pc.Outside? {
      assert Enabled(s, WaitStep);
    } else if s.runner.wake {
      assert Enabled(s, WakeStep);
    } else {
      assert Enabled(s, TimeOutStep);
    }
  }

  // ---- What the processing of actions does ----

  /** No action set has been sent for the current tick. */
  ghost predicate NoneSent(s: Trial) {
    forall i | 0 <= i < |s.dispatched| :: s.dispatched[i].actions.tick != s.tick
  }

  /** No action stands for a required actor. */
  ghost predicate RequiredMissing(s: Trial) {
    A.MissingRequired(s.actors, A.Current(s), |s.actors|)
  }

  lemma NoneSentMeans(s: Trial)
    requires A.ActionsOk(s) && Recorded(s) && s.state != Ended
    ensures NoneSent(s) <==> s.lastActionTick < s.tick
  {
    if s.lastActionTick >= s.tick {
      assert s.dispatched[|s.dispatched| - 1].actions.tick == s.tick;
    }
  }

  /** The dispatch of a tick, sent or given up because a required actor is missing. */
  lemma SendOrEnd(u: Trial, last: bool)
    requires u.stepData != [] && A.SlotsShow(LastSample(u).actions, A.Current(u), u.tick) && u.state != Ended
    ensures var t := Sent(u, CollectedNow(u), last);
            if RequiredMissing(u) then t.state == Ended && t.dispatched == u.dispatched
            else
              && t.state == u.state
              && |t.dispatched| == |u.dispatched| + 1 && t.dispatched[..|u.dispatched|] == u.dispatched
              && t.dispatched[|u.dispatched|].actions.tick == u.tick && t.dispatched[|u.dispatched|].last == last
  {
    A.CollectCorrect(u.actors, LastSample(u).actions, A.Current(u), u.tick, |u.actors|);
  }

  /** What processing does to a tick that is due. */
  ghost predicate SendsOrEnds(s: Trial, t: Trial) {
    var end := s.tick >= s.maxSteps || s.endRequested;
    if RequiredMissing(s) || (end && s.state == Pending) then t.state == Ended && t.dispatched == s.dispatched
    else
      && t.state == (if end then Terminating else s.state)
      && |t.dispatched| == |s.dispatched| + 1 && t.dispatched[..|s.dispatched|] == s.dispatched
      && t.dispatched[|s.dispatched|].actions.tick == s.tick && t.dispatched[|s.dispatched|].last == end
  }

  lemma ProcessSends(s: Trial)
    requires HasSample(s) && A.ActionsOk(s) && s.state != Ended
    requires s.nbActed >= s.nbAvailable && s.lastActionTick < s.tick
    ensures SendsOrEnds(s, ProcessActions(s))
  {
    var u := s.(processing := false, lastActionTick := s.tick);
    assert A.Current(u) == A.Current(s);
    if !LastActions(u) {
      SendOrEnd(u, false);
    } else if CanSwitch(u.state, Terminating) {
      SendOrEnd(Switched(u, Terminating), true);
    }
  }

  /**
   * In every reachable state before the end in which no set was sent for the tick and as many actors are counted as are
   * in the trial, processing sends exactly one set, of that tick, flagged last exactly when the number of steps is
   * reached or the end was requested; but it ends the trial when a required actor is missing, or when the end is due
   * before the trial runs.  In every other state it sends nothing and ends nothing.
   */
  lemma DueIsSent(s: Trial)
    requires Reachable(s) && Wf(s) && Enabled(s, ProcessStep)
    ensures var t := Next(s, ProcessStep);
            && t.tick == s.tick
            && if s.state != Ended && NoneSent(s) && s.nbActed >= s.nbAvailable then SendsOrEnds(s, t)
               else t.state == s.state && t.dispatched == s.dispatched
  {
    ReachableDispatch(s);
    A.ReachableActions(s);
    if s.state != Ended {
      NoneSentMeans(s);
      if NoneSent(s) && s.nbActed >= s.nbAvailable {
        ProcessSends(s);
      }
    }
  }

  /** What ends a trial: a termination, the end that the environment asked for, or a dispatch that is not possible. */
  lemma EndsOnlyBy(s: Trial, step: Step)
    requires Reachable(s) && Wf(s) && Enabled(s, step) && s.state != Ended
    ensures Next(s, step).state == Ended <==>
            || step.TerminateStep? || step.FinishStep?
            || (step.ProcessStep? && NoneSent(s) && s.nbActed >= s.nbAvailable
                && (RequiredMissing(s) || ((s.tick >= s.maxSteps || s.endRequested) && s.state == Pending)))
    ensures Next(s, step).endRequested <==> s.endRequested || step.RequestEndStep?
  {
    match step {
      case ObservationStep(obs, last, order) => ObservationDoesNotEnd(s, obs, last, order);
      case ProcessStep =>
        DueIsSent(s);
        ProcessKeepsRequest(s);
      case TerminateStep =>
      case FinishStep =>
      case _ => OthersDoNotEnd(s, step);
    }
  }

  lemma OthersDoNotEnd(s: Trial, step: Step)
    requires Wf(s) && Enabled(s, step)
    requires step.ActionStep? || step.RewardStep? || step.DisengageStep? || step.TimeOutStep? || Quiet(step)
    ensures Next(s, step).state == s.state
    ensures Next(s, step).endRequested <==> s.endRequested || step.RequestEndStep?
  {
    match step {
      case ActionStep(name, action) =>
      case RewardStep(reward) => A.RewardTouches(s, reward);
      case DisengageStep(index) =>
      case TimeOutStep =>
      case _ => QuietStep(s, step);
    }
  }

  lemma ObservationDoesNotEnd(s: Trial, obs: ObservationSet, last: bool, order: seq<T.Entry>)
    requires Wf(s) && s.state != Ended
    ensures var t := EnvObserved(s, obs, last, order); t.state != Ended && t.endRequested == s.endRequested
  {
    TickKeepsWf(s);
    if ObservationVerdict(s, obs).Accepted? {
      ObservedKeepsWf(s, obs);
    }
  }

  lemma ProcessKeepsRequest(s: Trial)
    requires HasSample(s)
    ensures ProcessActions(s).endRequested == s.endRequested
  {
  }

  // ---- The dispatch comes ----

  /** The tick is dispatched, or the trial has ended because a required actor is missing. */
  ghost predicate Done(s: Trial, missing: bool) {
    if missing then s.state == Ended
    else
      && s.state != Ended && s.lastActionTick == s.tick
      && s.dispatched != [] && s.dispatched[|s.dispatched| - 1].actions.tick == s.tick
  }

  lemma ProcessedByStep(s: Trial)
    requires HasSample(s)
    ensures var t := ProcessActions(s);
            t.tick == s.tick && t.actors == s.actors && t.hist.offers == s.hist.offers
  {
  }

  lemma StateAfterProcessing(s: Trial)
    requires HasSample(s)
    ensures ProcessActions(s).state == Pending ==> s.state == Pending
    ensures s.state == Ended ==> ProcessActions(s).state == Ended
  {
  }

  lemma ProcessedOnce(s: Trial)
    requires HasSample(s)
    ensures s.lastActionTick >= s.tick ==> ProcessActions(s) == s.(processing := false)
    ensures s.nbActed >= s.nbAvailable ==> ProcessActions(s).lastActionTick >= s.tick
  {
  }

  /** The internal steps leave the tick and what stands alone. */
  lemma InternalKeeps(s: Trial, step: Step)
    requires Wf(s) && Internal(step) && Enabled(s, step)
    ensures var t := Next(s, step);
            && t.tick == s.tick && RequiredMissing(t) == RequiredMissing(s)
            && (s.state != Pending ==> t.state != Pending)
            && (Done(s, RequiredMissing(s)) ==> Done(t, RequiredMissing(s)))
  {
    if step.ProcessStep? {
      ProcessedByStep(s);
      StateAfterProcessing(s);
      ProcessedOnce(s);
    } else if !step.TimeOutStep? {
      QuietStep(s, step);
    }
  }

  lemma InternalProgress(s: Trial, step: Step)
    requires Wf(s) && DispatchOk(s) && A.ActionsOk(s) && Internal(step) && Enabled(s, step)
    requires Due(s) && s.state != Pending
    ensures var t := Next(s, step);
            Done(t, RequiredMissing(s)) || (Due(t) && Patience(t) < Patience(s))
  {
    if step.ProcessStep? {
      ProcessSends(s);
      ProcessedByStep(s);
      ProcessedOnce(s);
    }
  }

  lemma {:induction false} InternalStepsSettle(s: Trial, steps: seq<Step>)
    requires Wf(s) && DispatchOk(s) && A.ActionsOk(s) && s.state != Pending
    requires forall i | 0 <= i < |steps| :: Internal(steps[i])
    requires Run(s, steps).Some?
    requires Done(s, RequiredMissing(s)) || (Due(s) && |steps| > Patience(s))
    ensures Run(s, steps).value.tick == s.tick
    ensures Done(Run(s, steps).value, RequiredMissing(s))
    decreases |steps|
  {
    if steps != [] {
      NextKeepsWf(s, steps[0]);
      NextKeepsDispatch(s, steps[0]);
      A.NextKeepsActions(s, steps[0]);
      InternalKeeps(s, steps[0]);
      if Due(s) && !Done(s, RequiredMissing(s)) {
        InternalProgress(s, steps[0]);
      }
      InternalStepsSettle(Next(s, steps[0]), steps[1..]);
    }
  }

  /**
   * Whatever the order in which the two internal threads run, within 19 of their steps a due dispatch has happened,
   * or the trial has ended, which it does exactly when a required actor is missing; and until then they are never
   * both blocked.
   */
  lemma DueIsDispatched(s: Trial, steps: seq<Step>)
    requires Reachable(s) && Wf(s) && Due(s)
    requires forall i | 0 <= i < |steps| :: Internal(steps[i])
    requires Run(s, steps).Some?
    ensures var t := Run(s, steps).value;
            |steps| >= 19 ==>
              && t.tick == s.tick
              && (t.state == Ended <==> RequiredMissing(s))
              && (t.state != Ended ==>
                    t.dispatched != [] && t.dispatched[|t.dispatched| - 1].actions.tick == s.tick)
    ensures Due(Run(s, steps).value) ==> exists step :: Internal(step) && Enabled(Run(s, steps).value, step)
  {
    ReachableDispatch(s);
    A.ReachableActions(s);
    C.ReachableIsCounted(s);
    if |steps| >= 19 {
      InternalStepsSettle(s, steps);
    }
    RunKeepsDispatch(s, steps);
    if Due(Run(s, steps).value) {
      DueIsNeverStuck(Run(s, steps).value);
    }
  }
}
