/**
 * The count of answers: what the test "counted >= available" of the action thread really tells.
 *
 * The count is the number of times that an actor was counted during the tick.  An actor counted again, or one
 * that has left, makes up for an actor still awaited: these are the only ways the test can pass too early.
 */
module TrialCounting {
  import opened Common
  import opened TrialEngine
  import T = TimeoutRunning

  ghost predicate SlotsAnswered(slots: seq<Action>, answered: set<nat>) {
    forall i: nat :: i in answered <==> i < |slots| && slots[i].tick != NO_DATA_TICK
  }

  /** Timed entries of departed actors are waiting to be removed; a `settled` round has none. */
  ghost predicate EntriesCurrent(r: T.Runner, withdrawn: set<nat>, settled: bool) {
    && (forall i | 0 <= i < |r.entries| && r.entries[i].id in withdrawn :: r.entries[i].id in r.toRemove)
    && (settled ==> forall i | 0 <= i < |r.entries| :: r.entries[i].id !in withdrawn)
  }

  /** Every id is that of an entry. */
  ghost predicate HaveEntries(r: T.Runner, ids: set<nat>) {
    forall id | id in ids :: id in T.Ids(r.entries)
  }

  ghost predicate TimersOk(s: Trial) {
    && EntriesCurrent(s.runner, s.hist.withdrawn, s.hist.started && !s.hist.withdrawal)
    && (s.hist.started ==> HaveEntries(s.runner, s.hist.timedOut))
    && (s.state == Pending ==> s.runner.running == 0 && s.hist.timedOut == {} && !s.hist.started)
    && (s.hist.timedOut != {} ==> s.runner.running == 0)
  }

  ghost predicate CountsOk(s: Trial) {
    && s.hist.withdrawn <= s.disengaged
    && (forall i | i in s.hist.withdrawn :: i < |s.actors|)
    && s.nbAvailable == |s.actors| - |s.hist.withdrawn|
    && s.nbActed == |s.hist.counted|
    && (!s.hist.withdrawal && s.stepData != [] ==> SlotsAnswered(LastSample(s).actions, s.hist.answered))
  }

  /** The actors counted are those that answered or timed out, and each was counted once for each of the two. */
  ghost predicate TallyOk(h: History) {
    && Elements(h.counted) == h.answered + h.timedOut
    && (!h.withdrawal ==> |h.counted| == |h.answered| + |h.timedOut|)
  }

  // ---- Every step keeps the timers ----

  lemma RoundKeepsTimers(s: Trial, order: seq<T.Entry>)
    requires TimersOk(s) && RunnerOk(s.runner, |s.actors|) && T.StartOrder(s.runner, order)
    requires s.hist.timedOut == {} && s.state != Pending
    ensures TimersOk(RoundStarted(s, order))
  {
    var r := s.runner;
    T.StartEntries(r, order);
    forall i | 0 <= i < |order| ensures order[i].id !in s.hist.withdrawn {
      assert T.Ids(order)[i] in T.Ids(order);
      var k :| 0 <= k < |r.entries| && T.Ids(r.entries)[k] == order[i].id;
    }
  }

  lemma TickKeepsTimers(s: Trial)
    requires TimersOk(s) && s.state.Started() && s.state != Ended
    ensures TimersOk(WithTick(s))
    ensures s.tick < MAX_TICK ==> WithTick(s).hist.timedOut == {}
  {
  }

  lemma ObservationKeepsTimers(s: Trial, obs: ObservationSet, last: bool, order: seq<T.Entry>)
    requires Wf(s) && TimersOk(s) && Enabled(s, ObservationStep(obs, last, order))
    ensures TimersOk(EnvObserved(s, obs, last, order))
  {
    match ObservationVerdict(s, obs) {
      case Dropped =>
      case Rejected => TickKeepsTimers(s);
      case Accepted =>
        TickKeepsTimers(s);
        ObservedKeepsWf(s, obs);
        var u := Observed(s, obs);
        assert u.hist == WithObserved(WithTick(s).hist, obs) && u.runner == s.runner;
        assert u.hist.timedOut == {};
        if !last {
          RoundKeepsTimers(u, order);
        }
    }
  }

  lemma SignalKeepsEntries(r: T.Runner, id: nat, withdrawn: set<nat>, settled: bool, timedOut: set<nat>)
    requires T.Inv(r) && EntriesCurrent(r, withdrawn, settled)
    ensures EntriesCurrent(T.Signal(r, id).runner, withdrawn, settled)
    ensures HaveEntries(r, timedOut) ==> HaveEntries(T.Signal(r, id).runner, timedOut)
    ensures T.Signal(r, id).runner.running <= r.running
  {
    T.SignalChanges(r, id);
    assert T.Ids(T.Signal(r, id).runner.entries) == T.Ids(r.entries);
  }

  /** The part of the history that the timers depend on. */
  ghost predicate SameTimeouts(h: History, k: History) {
    k.withdrawn == h.withdrawn && k.withdrawal == h.withdrawal && k.started == h.started && k.timedOut == h.timedOut
  }

  lemma ActionTouches(s: Trial, name: string, action: Action)
    requires s.runner.running <= |s.runner.entries|
    requires s.stepData != [] ==> |LastSample(s).actions| == |s.actors|
    ensures SameTimeouts(s.hist, ActorActed(s, name, action).hist)
    ensures ActorActed(s, name, action).state == s.state
  {
    forall u: Trial, i | u.runner == s.runner
      ensures SameTimeouts(u.hist, Answered(u, i).hist) && Answered(u, i).state == u.state
    {
    }
  }

  lemma ActionSignals(s: Trial, name: string, action: Action)
    requires s.runner.running <= |s.runner.entries|
    requires s.stepData != [] ==> |LastSample(s).actions| == |s.actors|
    ensures var t, index := ActorActed(s, name, action), IndexOf(s.actors, name);
            t.runner == s.runner || (index.Some? && t.runner == T.Signal(s.runner, index.value).runner)
  {
  }

  lemma ActionKeepsTimers(s: Trial, name: string, action: Action)
    requires T.Inv(s.runner) && TimersOk(s)
    requires s.stepData != [] ==> |LastSample(s).actions| == |s.actors|
    ensures TimersOk(ActorActed(s, name, action))
  {
    var t := ActorActed(s, name, action);
    ActionTouches(s, name, action);
    ActionSignals(s, name, action);
    if t.runner != s.runner {
      var i := IndexOf(s.actors, name).value;
      SignalKeepsEntries(s.runner, i, s.hist.withdrawn, s.hist.started && !s.hist.withdrawal, s.hist.timedOut);
    }
  }

  lemma RewardKeepsTimers(s: Trial, reward: Reward)
    requires TimersOk(s)
    ensures TimersOk(RewardReceived(s, reward))
  {
    var t := RewardReceived(s, reward);
    assert SameTimeouts(s.hist, t.hist) && t.state == s.state && t.runner == s.runner;
  }

  lemma TerminationKeepsTimers(s: Trial)
    requires TimersOk(s)
    ensures TimersOk(Terminated(s))
    ensures CanSwitch(s.state, Ended) ==> TimersOk(Switched(s, Ended))
  {
  }

  lemma DisengageKeepsTimers(s: Trial, index: nat)
    requires index < |s.actors| && TimersOk(s)
    requires s.stepData != [] ==> |LastSample(s).actions| == |s.actors|
    ensures TimersOk(ActorDisengaging(s, index))
  {
  }

  lemma TimeOutKeepsTimers(s: Trial)
    requires T.Inv(s.runner) && TimersOk(s)
    ensures TimersOk(RunnerTimesOut(s))
  {
    var r := s.runner;
    forall x | x in T.Unanswered(r.entries, r.running) ensures x in T.Ids(r.entries) {
      var i :| 0 <= i < r.running && r.entries[i].id == x && !r.entries[i].signaled;
      assert T.Ids(r.entries)[i] == x;
    }
  }

  lemma ProcessTouches(s: Trial)
    requires HasSample(s)
    ensures ProcessActions(s).runner == s.runner
    ensures ProcessActions(s).hist == s.hist.(now := ProcessActions(s).hist.now)
  {
  }

  lemma ProcessStarts(s: Trial)
    requires HasSample(s)
    ensures ProcessActions(s).state == Pending ==> s.state == Pending
  {
  }

  lemma ProcessKeepsTimers(s: Trial)
    requires HasSample(s) && TimersOk(s)
    ensures TimersOk(ProcessActions(s))
  {
    ProcessTouches(s);
    ProcessStarts(s);
  }

  lemma NextKeepsTimers(s: Trial, step: Step)
    requires Wf(s) && TimersOk(s) && Enabled(s, step)
    ensures TimersOk(Next(s, step))
  {
    match step {
      case ObservationStep(obs, last, order) => ObservationKeepsTimers(s, obs, last, order);
      case ActionStep(name, action) => ActionKeepsTimers(s, name, action);
      case RewardStep(reward) => RewardKeepsTimers(s, reward);
      case TerminateStep => TerminationKeepsTimers(s);
      case FinishStep => TerminationKeepsTimers(s);
      case DisengageStep(index) => DisengageKeepsTimers(s, index);
      case ProcessStep => ProcessKeepsTimers(s);
      case TimeOutStep => TimeOutKeepsTimers(s);
      case _ => QuietKeepsTimers(s, step);
    }
  }

  lemma QuietKeepsTimers(s: Trial, step: Step)
    requires Wf(s) && TimersOk(s) && Enabled(s, step) && Quiet(step)
    ensures TimersOk(Next(s, step))
  {
    QuietStep(s, step);
  }

  // ---- Every step keeps the counts ----

  lemma TickKeepsCounts(s: Trial)
    requires CountsOk(s) && s.state != Ended
    ensures CountsOk(WithTick(s))
  {
  }

  lemma AfterObserved(u: Trial, last: bool, order: seq<T.Entry>)
    requires CountsOk(u) && u.bufferSize >= MIN_BUFFERED && u.stepData != []
    requires CanSwitch(u.state, Terminating) && u.state != Ended
    ensures CountsOk(if last then Finishing(u) else Balanced(RoundStarted(u, order)))
  {
    if !last {
      var v := RoundStarted(u, order);
      assert LastSample(Balanced(v)) == LastSample(v);
    }
  }

  lemma ObservationKeepsCounts(s: Trial, obs: ObservationSet, last: bool, order: seq<T.Entry>)
    requires Wf(s) && CountsOk(s)
    ensures CountsOk(EnvObserved(s, obs, last, order))
  {
    match ObservationVerdict(s, obs) {
      case Dropped =>
      case Rejected => TickKeepsCounts(s);
      case Accepted =>
        TickKeepsCounts(s);
        ObservedKeepsWf(s, obs);
        AfterObserved(Observed(s, obs), last, order);
    }
  }

  lemma ActionKeepsCounts(s: Trial, name: string, action: Action)
    requires s.runner.running <= |s.runner.entries| && CountsOk(s)
    requires s.stepData != [] ==> |LastSample(s).actions| == |s.actors|
    ensures CountsOk(ActorActed(s, name, action))
  {
    var t := ActorActed(s, name, action);
    if t.hist.answered != s.hist.answered {
      var i, slots := IndexOf(s.actors, name).value, LastSample(s).actions;
      assert LastSample(t).actions == slots[i := action];
      assert t.nbActed == s.nbActed + 1;
    }
  }

  lemma DisengageKeepsCounts(s: Trial, index: nat)
    requires CountsOk(s) && index < |s.actors| && index !in s.disengaged
    requires s.stepData != [] ==> |LastSample(s).actions| == |s.actors|
    ensures CountsOk(ActorDisengaging(s, index))
  {
  }

  lemma TimeOutKeepsCounts(s: Trial)
    requires T.Inv(s.runner) && CountsOk(s)
    ensures CountsOk(RunnerTimesOut(s))
  {
  }

  lemma SentKeepsCounts(s: Trial, c: Collected, last: bool)
    requires CountsOk(s) && s.stepData != []
    ensures CountsOk(Sent(s, c, last))
  {
  }

  lemma ProcessKeepsCounts(s: Trial)
    requires HasSample(s) && CountsOk(s)
    ensures CountsOk(ProcessActions(s))
  {
    var t := s.(processing := false);
    var u := t.(lastActionTick := t.tick);
    assert CountsOk(u);
    if t.nbActed >= t.nbAvailable && t.lastActionTick < t.tick && u.state != Ended {
      if !LastActions(u) {
        SentKeepsCounts(u, CollectedNow(u), false);
      } else if CanSwitch(u.state, Terminating) {
        SentKeepsCounts(Switched(u, Terminating), CollectedNow(u), true);
      }
    }
  }

  lemma RewardKeepsCounts(s: Trial, reward: Reward)
    requires CountsOk(s)
    ensures CountsOk(RewardReceived(s, reward))
  {
    var t := RewardReceived(s, reward);
    assert |t.stepData| == |s.stepData|;
    assert forall k | 0 <= k < |s.stepData| :: t.stepData[k].actions == s.stepData[k].actions;
    assert t.hist == s.hist.(placed := t.hist.placed) && t.nbActed == s.nbActed;
  }

  lemma NextKeepsCounts(s: Trial, step: Step)
    requires Wf(s) && TimersOk(s) && CountsOk(s) && Enabled(s, step)
    ensures CountsOk(Next(s, step))
  {
    match step {
      case ObservationStep(obs, last, order) => ObservationKeepsCounts(s, obs, last, order);
      case ActionStep(name, action) => ActionKeepsCounts(s, name, action);
      case RewardStep(reward) => RewardKeepsCounts(s, reward);
      case DisengageStep(index) => DisengageKeepsCounts(s, index);
      case ProcessStep => ProcessKeepsCounts(s);
      case TimeOutStep => TimeOutKeepsCounts(s);
      case _ => if Quiet(step) { QuietStep(s, step); }
    }
  }

  // ---- Every step keeps the tally ----

  /** The part of the history that the tally depends on. */
  ghost predicate SameTally(h: History, k: History) {
    k.counted == h.counted && k.answered == h.answered && k.timedOut == h.timedOut && k.withdrawal == h.withdrawal
  }

  ghost predicate NoTally(h: History) {
    h.counted == [] && h.answered == {} && h.timedOut == {} && !h.withdrawal
  }

  lemma TickTallies(s: Trial)
    ensures SameTally(s.hist, WithTick(s).hist) || NoTally(WithTick(s).hist)
  {
  }

  lemma AcceptedTallies(u: Trial, last: bool, order: seq<T.Entry>)
    requires u.bufferSize > 0 && CanSwitch(u.state, Terminating)
    ensures SameTally(u.hist, (if last then Finishing(u) else Balanced(RoundStarted(u, order))).hist)
  {
  }

  lemma ObservationTallies(s: Trial, obs: ObservationSet, last: bool, order: seq<T.Entry>)
    requires Wf(s)
    ensures var k := EnvObserved(s, obs, last, order).hist; SameTally(s.hist, k) || NoTally(k)
  {
    TickTallies(s);
    if ObservationVerdict(s, obs).Accepted? {
      ObservedKeepsWf(s, obs);
      var u := Observed(s, obs);
      assert u.hist == WithObserved(WithTick(s).hist, obs);
      AcceptedTallies(u, last, order);
    }
  }

  lemma AnswerTallies(h: History, k: History, id: nat)
    requires TallyOk(h) && (!h.withdrawal ==> id !in h.answered)
    requires k.counted == h.counted + [id] && k.answered == h.answered + {id}
    requires k.timedOut == h.timedOut && k.withdrawal == h.withdrawal
    ensures TallyOk(k)
  {
    ElementsAppend(h.counted, [id]);
  }

  lemma ActionTallies(s: Trial, name: string, action: Action)
    requires s.runner.running <= |s.runner.entries|
    requires s.stepData != [] ==> |LastSample(s).actions| == |s.actors|
    ensures var h, k := s.hist, ActorActed(s, name, action).hist;
            || SameTally(h, k)
            || (&& IndexOf(s.actors, name).Some? && s.stepData != []
                && var i := IndexOf(s.actors, name).value;
                && LastSample(s).actions[i].tick == NO_DATA_TICK
                && k.counted == h.counted + [i] && k.answered == h.answered + {i}
                && k.timedOut == h.timedOut && k.withdrawal == h.withdrawal)
  {
  }

  lemma ActionKeepsTally(s: Trial, name: string, action: Action)
    requires s.runner.running <= |s.runner.entries| && CountsOk(s) && TallyOk(s.hist)
    requires s.stepData != [] ==> |LastSample(s).actions| == |s.actors|
    ensures TallyOk(ActorActed(s, name, action).hist)
  {
    var h, k := s.hist, ActorActed(s, name, action).hist;
    ActionTallies(s, name, action);
    if !SameTally(h, k) {
      AnswerTallies(h, k, IndexOf(s.actors, name).value);
    }
  }

  lemma TimeOutKeepsTally(s: Trial)
    requires T.Inv(s.runner) && TallyOk(s.hist) && (s.runner.running > 0 ==> s.hist.timedOut == {})
    ensures TallyOk(RunnerTimesOut(s).hist)
  {
    var ids := T.Unanswered(s.runner.entries, s.runner.running);
    T.UnansweredDistinct(s.runner.entries, s.runner.running);
    assert s.runner.running == 0 ==> ids == [];
    TimeOutTallies(s.hist, ids);
  }

  lemma TimeOutTallies(h: History, ids: seq<nat>)
    requires TallyOk(h) && NoDup(ids) && (ids == [] || h.timedOut == {})
    ensures TallyOk(h.(counted := h.counted + ids, timedOut := h.timedOut + set x | x in ids))
  {
    NoDupSize(ids);
    ElementsAppend(h.counted, ids);
    assert (set x | x in ids) == Elements(ids);
  }

  /** The steps other than observations, actions and timeouts: only a departure touches the tally. */
  lemma OthersTally(s: Trial, step: Step)
    requires Wf(s) && HasSample(s) && Enabled(s, step)
    requires !step.ObservationStep? && !step.ActionStep? && !step.TimeOutStep?
    ensures var h, k := s.hist, Next(s, step).hist;
            && k.counted == h.counted && k.answered == h.answered && k.timedOut == h.timedOut
            && (h.withdrawal ==> k.withdrawal) && (k.withdrawal != h.withdrawal ==> step.DisengageStep?)
  {
    match step {
      case ProcessStep => ProcessTouches(s);
      case _ => if Quiet(step) { QuietStep(s, step); }
    }
  }

  lemma NextKeepsTally(s: Trial, step: Step)
    requires Wf(s) && TimersOk(s) && CountsOk(s) && TallyOk(s.hist) && Enabled(s, step)
    ensures TallyOk(Next(s, step).hist)
  {
    match step {
      case ObservationStep(obs, last, order) => ObservationTallies(s, obs, last, order);
      case ActionStep(name, action) => ActionKeepsTally(s, name, action);
      case TimeOutStep => TimeOutKeepsTally(s);
      case _ => OthersTally(s, step);
    }
  }

  // ---- Runs ----

  ghost predicate Counted(s: Trial) {
    Wf(s) && TimersOk(s) && CountsOk(s) && TallyOk(s.hist)
  }

  lemma NextKeepsCounted(s: Trial, step: Step)
    requires Counted(s) && Enabled(s, step)
    ensures Counted(Next(s, step))
  {
    NextKeepsWf(s, step);
    NextKeepsTimers(s, step);
    NextKeepsCounts(s, step);
    NextKeepsTally(s, step);
  }

  lemma {:induction false} RunKeepsCounted(s: Trial, steps: seq<Step>)
    requires Counted(s)
    ensures Wf(s) && (Run(s, steps).Some? ==> Counted(Run(s, steps).value))
    decreases |steps|
  {
    if steps != [] && Enabled(s, steps[0]) {
      NextKeepsCounted(s, steps[0]);
      RunKeepsCounted(Next(s, steps[0]), steps[1..]);
    }
  }

  lemma ReachableIsCounted(s: Trial)
    requires Reachable(s)
    ensures Counted(s)
  {
    var p: Params, steps: seq<Step> :| ReachedBy(s, p, steps);
    StartIsWf(p);
    AddedTimeouts(p.actors, |p.actors|);
    RunKeepsCounted(Started(p), steps);
  }

  // ---- The theorems ----

  /** The actors still in the trial. */
  ghost function Present(s: Trial): set<nat> {
    Below(|s.actors|) - s.hist.withdrawn
  }

  /** The actors that have been counted during the tick. */
  ghost function CountedActors(s: Trial): set<nat> {
    Elements(s.hist.counted)
  }

  /** The actors the tick is still waiting for. */
  ghost function Awaited(s: Trial): set<nat> {
    Present(s) - CountedActors(s)
  }

  /** How often an actor was counted beyond once for each actor that was counted and is still in the trial. */
  ghost function Spare(s: Trial): int {
    |s.hist.counted| - |CountedActors(s) * Present(s)|
  }

  lemma PresentSize(s: Trial)
    requires CountsOk(s)
    ensures |Present(s)| == s.nbAvailable
  {
    assert Below(|s.actors|) == Present(s) + s.hist.withdrawn;
    assert |Below(|s.actors|)| == |Present(s)| + |s.hist.withdrawn|;
  }

  lemma SizeOfParts<T>(s: set<T>, t: set<T>)
    ensures |s| == |s * t| + |s - t|
    ensures s - t == {} <==> |s - t| == 0
  {
    assert s == (s * t) + (s - t);
  }

  /** The spare counts are repeated ones and those of actors that have left. */
  lemma SpareCounts(s: Trial)
    ensures Spare(s) == (|s.hist.counted| - |CountedActors(s)|) + |CountedActors(s) - Present(s)|
    ensures Spare(s) >= 0
    ensures Spare(s) == 0 <==> NoDup(s.hist.counted) && CountedActors(s) <= Present(s)
  {
    NoDupSize(s.hist.counted);
    SizeOfParts(CountedActors(s), Present(s));
  }

  /** The test of the action thread: as many counted as are in the trial. */
  predicate EnoughCounted(s: Trial) {
    s.nbActed >= s.nbAvailable
  }

  ghost predicate PassesEarly(s: Trial) {
    EnoughCounted(s) && Awaited(s) != {}
  }

  /**
   * In every reachable state the test passes exactly when no more actors are awaited than there are spare counts.
   * So it never fails with no actor awaited; it passes with an actor awaited exactly when the spare counts
   * make up for all that are; and it is right when no actor was counted twice and none that was counted has left.
   */
  lemma CountTestIsExact(s: Trial)
    requires Reachable(s)
    ensures EnoughCounted(s) <==> |Awaited(s)| <= Spare(s)
    ensures Awaited(s) == {} ==> EnoughCounted(s)
    ensures PassesEarly(s) <==> 0 < |Awaited(s)| <= Spare(s)
    ensures NoDup(s.hist.counted) && CountedActors(s) <= Present(s) ==> (EnoughCounted(s) <==> Awaited(s) == {})
  {
    ReachableIsCounted(s);
    PresentSize(s);
    SizeOfParts(Present(s), CountedActors(s));
    assert CountedActors(s) * Present(s) == Present(s) * CountedActors(s);
    SpareCounts(s);
  }

  lemma TimedOutArePresent(s: Trial)
    requires Counted(s) && s.hist.started && !s.hist.withdrawal
    ensures s.hist.timedOut <= Present(s)
  {
    forall i | i in s.hist.timedOut ensures i in Present(s) {
      var k :| 0 <= k < |s.runner.entries| && T.Ids(s.runner.entries)[k] == i;
      assert s.runner.entries[k].id == i;
    }
  }

  lemma SpareWithoutDeparture(present: set<nat>, answered: set<nat>, timedOut: set<nat>)
    requires timedOut <= present
    ensures |answered| + |timedOut| - |(answered + timedOut) * present| == |answered * timedOut| + |answered - present|
  {
    var both := answered + timedOut;
    assert both == answered + (timedOut - answered) && answered * (timedOut - answered) == {};
    assert |both| == |answered| + |timedOut - answered|;
    SizeOfParts(timedOut, answered);
    assert timedOut * answered == answered * timedOut;
    SizeOfParts(both, present);
    assert both - present == answered - present;
  }

  /**
   * In a started round that no actor has left, the spare counts are of actors that answered and also timed out,
   * and of actors that answered though they had left in an earlier tick.
   */
  lemma CountWithoutDeparture(s: Trial)
    requires Reachable(s) && s.hist.started && !s.hist.withdrawal
    ensures Awaited(s) == Present(s) - s.hist.answered - s.hist.timedOut
    ensures EnoughCounted(s) <==>
            |Awaited(s)| <= |s.hist.answered * s.hist.timedOut| + |s.hist.answered - Present(s)|
  {
    TallyOfRound(s);
    SpareOfTally(s);
    CountTestIsExact(s);
  }

  lemma TallyOfRound(s: Trial)
    requires Reachable(s) && s.hist.started && !s.hist.withdrawal
    ensures TallyOk(s.hist) && s.hist.timedOut <= Present(s)
  {
    ReachableIsCounted(s);
    TimedOutArePresent(s);
  }

  lemma SpareOfTally(s: Trial)
    requires TallyOk(s.hist) && !s.hist.withdrawal && s.hist.timedOut <= Present(s)
    ensures CountedActors(s) == s.hist.answered + s.hist.timedOut
    ensures Spare(s) == |s.hist.answered * s.hist.timedOut| + |s.hist.answered - Present(s)|
  {
    SpareWithoutDeparture(Present(s), s.hist.answered, s.hist.timedOut);
  }

  // ---- Where the test passes too early ----

  // One reachable step at a time.

  lemma Observe(s: Trial, obs: ObservationSet, order: seq<T.Entry>) returns (t: Trial)
    requires Reachable(s) && s.bufferSize > 0
    requires ObservationVerdict(s, obs).Accepted? && s.stepData != [] && T.StartOrder(s.runner, order)
    ensures Reachable(t) && t == EnvObserved(s, obs, false, order)
  {
    ReachableIsCounted(s);
    var step := ObservationStep(obs, false, order);
    NextIsReachable(s, step);
    t := Next(s, step);
  }

  lemma Act(s: Trial, name: string, action: Action) returns (t: Trial)
    requires Reachable(s)
    ensures Wf(s) && Reachable(t) && t == ActorActed(s, name, action)
  {
    ReachableIsCounted(s);
    var step := ActionStep(name, action);
    NextIsReachable(s, step);
    t := Next(s, step);
  }

  lemma Leave(s: Trial, index: nat) returns (t: Trial)
    requires Reachable(s) && index < |s.actors| && index !in s.disengaged
    ensures Wf(s) && Reachable(t) && t == ActorDisengaging(s, index)
  {
    ReachableIsCounted(s);
    NextIsReachable(s, DisengageStep(index));
    t := Next(s, DisengageStep(index));
  }

  lemma StartToWait(s: Trial) returns (t: Trial)
    requires Reachable(s) && s.runner.pc.Outside?
    ensures Reachable(t) && t == s.(runner := T.Wait(s.runner))
  {
    ReachableIsCounted(s);
    NextIsReachable(s, WaitStep);
    t := Next(s, WaitStep);
  }

  lemma WakeUp(s: Trial) returns (t: Trial)
    requires Reachable(s) && s.runner.pc.Waiting? && s.runner.wake
    ensures Reachable(t) && t == RunnerWakes(s)
  {
    ReachableIsCounted(s);
    NextIsReachable(s, WakeStep);
    t := Next(s, WakeStep);
  }

  lemma RunOut(s: Trial) returns (t: Trial)
    requires Reachable(s) && s.runner.pc == T.Waiting(true) && !s.runner.wake
    ensures s.runner.running <= |s.runner.entries| && Reachable(t) && t == RunnerTimesOut(s)
  {
    ReachableIsCounted(s);
    NextIsReachable(s, TimeOutStep);
    t := Next(s, TimeOutStep);
  }

  /** The trial of the witnesses: the first of its two actors may time out. */
  function TwoActors(): Params {
    Params([ActorConfig("a", true, None, 5), ActorConfig("b", true, None, 0)], 0, 0)
  }

  function FirstTimer(): T.Entry {
    T.Entry(5, 0, false)
  }

  lemma FirstTimers(actors: seq<ActorConfig>)
    requires |actors| == 2 && actors[0].timeout == 5 && actors[1].timeout == 0
    ensures WithTimeouts(actors, 2) == T.Runner([FirstTimer()], [], false, 0, false, T.Outside)
  {
    assert WithTimeouts(actors, 0) == T.NewRunner();
    assert WithTimeouts(actors, 1).entries == [FirstTimer()];
  }

  lemma TwoNames()
    ensures DistinctNames(TwoActors().actors) && IndexOf(TwoActors().actors, "a") == Some(0)
  {
    var actors := TwoActors().actors;
    assert actors[0].name == "a" && actors[1].name == "b" && "a"[0] != "b"[0];
    var found := IndexOf(actors, "a");
    assert found == Some(0);
  }

  /** The first round of that trial, before any action. */
  ghost predicate Unacted(s: Trial) {
    && Reachable(s) && s.state == Running && s.hist.started
    && s.actors == TwoActors().actors && s.disengaged == {} && s.hist.withdrawn == {}
    && s.stepData != [] && LastSample(s).actions == NullActions(2)
  }

  /** The first observation starts the first round. */
  lemma FirstObservation(s: Trial, obs: ObservationSet, order: seq<T.Entry>)
    requires s.state == Pending && s.bufferSize >= MIN_BUFFERED && |s.stepData| == 1 && obs.tick == AUTO_TICK
    ensures var t := EnvObserved(s, obs, false, order);
            && t == s.(state := Running, runner := T.Start(s.runner, order),
                       hist := WithObserved(s.hist, obs).(started := true),
                       store := Store([s.stepData[0].(observations := Some(obs))], s.datalog))
  {
    assert Observed(s, obs).stepData == [s.stepData[0].(observations := Some(obs))];
  }

  lemma FirstRound() returns (s: Trial)
    ensures Unacted(s) && s.hist.counted == []
    ensures s.runner == T.Runner([FirstTimer()], [], true, 1, true, T.Outside)
  {
    var p, obs, order := TwoActors(), ObservationSet(AUTO_TICK, []), [FirstTimer()];
    TwoNames();
    FirstTimers(p.actors);
    StartIsReachable(p);
    var start := Started(p);
    assert T.EraseAll(order, []) == order && T.Cleared(order) == order;
    FirstObservation(start, obs, order);
    s := Observe(start, obs, order);
  }

  /** The runner's thread notices the round, and waits with its timer armed. */
  lemma ArmTimer(s: Trial) returns (t: Trial)
    requires Reachable(s) && s.runner.running > 0 && s.runner.wake && s.runner.pc.Outside?
    ensures Reachable(t) && t == s.(runner := s.runner.(wake := false, pc := T.Waiting(true)))
  {
    var waiting := StartToWait(s);
    var awake := WakeUp(waiting);
    assert s.hist.counted + [] == s.hist.counted;
    t := StartToWait(awake);
  }

  lemma FirstTimeout(r: T.Runner)
    requires r.running == 1 && r.entries == [FirstTimer()]
    ensures T.TimeOut(r).counted == [0]
  {
    assert T.Unanswered(r.entries, 1) == [0] + T.Unanswered(r.entries, 0);
  }

  lemma FirstActorTimedOut() returns (s: Trial)
    ensures Unacted(s) && s.hist.counted == [0]
  {
    var s1 := FirstRound();
    var s2 := ArmTimer(s1);
    FirstTimeout(s2.runner);
    TimeOutAdds(s2);
    s := RunOut(s2);
    assert [] + [0] == [0];
  }

  lemma TimeOutAdds(s: Trial)
    requires s.runner.running <= |s.runner.entries|
    ensures var t := RunnerTimesOut(s);
            && t.hist == s.hist.(counted := s.hist.counted + T.TimeOut(s.runner).counted, timedOut := t.hist.timedOut)
            && t == s.(runner := t.runner, nbActed := t.nbActed, signalled := t.signalled, hist := t.hist)
  {
  }

  /** What the first answer of an actor in a tick changes. */
  lemma AnswerAdds(s: Trial, name: string, i: nat)
    requires s.runner.running <= |s.runner.entries| && IndexOf(s.actors, name) == Some(i)
    requires s.state == Running && s.stepData != [] && |LastSample(s).actions| == |s.actors|
    requires LastSample(s).actions[i].tick == NO_DATA_TICK
    ensures var t := ActorActed(s, name, Action(AUTO_TICK, []));
            && t.hist.counted == s.hist.counted + [i] && t.hist.withdrawn == s.hist.withdrawn
            && t.hist.started == s.hist.started
            && t.state == s.state && t.config == s.config && t.disengaged == s.disengaged
            && |t.stepData| == |s.stepData|
  {
  }

  lemma LeavingTouches(s: Trial, index: nat)
    requires index < |s.actors| && s.state == Running && s.stepData != [] && |LastSample(s).actions| == |s.actors|
    ensures var t := ActorDisengaging(s, index);
            && t.hist.counted == s.hist.counted && t.hist.withdrawn == s.hist.withdrawn + {index}
            && t.hist.started == s.hist.started && t.state == s.state && t.config == s.config
  {
  }

  /** A running trial whose tick awaits its second actor only. */
  ghost predicate SecondAwaited(s: Trial, counted: seq<nat>, withdrawn: set<nat>) {
    && Reachable(s) && s.hist.started && s.state == Running
    && |s.actors| == 2 && s.hist.counted == counted && s.hist.withdrawn == withdrawn
  }

  lemma SpareMakesUp(s: Trial, counted: seq<nat>, withdrawn: set<nat>)
    requires SecondAwaited(s, counted, withdrawn) && Elements(counted) == {0} && withdrawn <= {0}
    requires |counted| == if withdrawn == {} then 2 else 1
    ensures PassesEarly(s)
  {
    FirstAndSecond(Present(s), withdrawn);
    CountTestIsExact(s);
  }

  lemma FirstAndSecond(present: set<nat>, withdrawn: set<nat>)
    requires present == Below(2) - withdrawn && withdrawn <= {0}
    ensures present - {0} == {1} && {0} * present == if withdrawn == {} then {0} else {}
  {
  }

  lemma FirstAnswer(s: Trial) returns (t: Trial)
    requires Unacted(s)
    ensures SecondAwaited(t, s.hist.counted + [0], {})
    ensures t.disengaged == {} && t.stepData != [] && |LastSample(t).actions| == 2
  {
    TwoNames();
    ReachableIsCounted(s);
    AnswerAdds(s, "a", 0);
    t := Act(s, "a", Action(AUTO_TICK, []));
    ReachableIsCounted(t);
  }

  lemma LateAnswer() returns (s: Trial)
    ensures SecondAwaited(s, [0, 0], {})
  {
    var timedOut := FirstActorTimedOut();
    s := FirstAnswer(timedOut);
    assert [0] + [0] == [0, 0];
  }

  lemma LeavingAfterAnswering() returns (s: Trial)
    ensures SecondAwaited(s, [0], {0})
  {
    var start := FirstRound();
    var answered := FirstAnswer(start);
    LeavingTouches(answered, 0);
    s := Leave(answered, 0);
    assert [] + [0] == [0] && {} + {0} == {0};
  }

  /** An actor that answers after its own timeout is counted again, so the other one is not waited for. */
  lemma LateAnswerPassesEarly()
    ensures exists s: Trial :: SecondAwaited(s, [0, 0], {}) && PassesEarly(s)
  {
    var s := LateAnswer();
    SpareMakesUp(s, [0, 0], {});
  }

  /** An actor that leaves after it has answered lowers the number awaited, but not the count. */
  lemma LeavingAfterAnsweringPassesEarly()
    ensures exists s: Trial :: SecondAwaited(s, [0], {0}) && PassesEarly(s)
  {
    var s := LeavingAfterAnswering();
    SpareMakesUp(s, [0], {0});
  }
}
