/**
 * Watching trial states: a trial writes its new state, then notifies every watcher.
 *
 * The write and the notification are separate steps.  The trial's state lock is held from one to the other, so a trial
 * has at most one write whose notification is to come; the notification lock is held during a notification
 * and from the start to the end of a subscription.
 */
module Watchers {
  import opened Common
  import opened TrialEngine

  /** How many states each trial had held when a subscription began, and when it was complete. */
  datatype Span = Span(begun: map<nat, nat>, complete: map<nat, nat>)

  const NO_SPAN := Span(map[], map[])

  /**
   * `seen` is what a watcher was called with.  The rest is history: `initial` are the trials registered when it
   * subscribed, `since` the position in their histories of what it was shown first.
   */
  datatype Watcher = Watcher(seen: map<nat, seq<LifeState>>, since: map<nat, nat>, initial: set<nat>, span: Span) {
    function Seen(t: nat): seq<LifeState> {
      if t in seen then seen[t] else []
    }

    function Shown(t: nat, state: LifeState): Watcher {
      this.(seen := seen[t := Seen(t) + [state]])
    }
  }

  /** `history` holds every state of the trial so far, the current one last. */
  datatype Watched = Watched(history: seq<LifeState>, pending: bool, registered: bool)

  /** A subscription in progress holds the notification lock; `todo` are the trials still to report. */
  datatype Subscription = Idle | Reporting(watcher: Watcher, todo: set<nat>)

  datatype System = System(trials: seq<Watched>, subscription: Subscription, watchers: seq<Watcher>)

  function Current(w: Watched): LifeState
    requires w.history != []
  {
    w.history[|w.history| - 1]
  }

  // ---- The notification loop ----

  /** The first `n` watchers once called with the state; those whose handler answered false are gone. */
  function Notified(watchers: seq<Watcher>, answers: seq<bool>, n: nat, t: nat, state: LifeState): seq<Watcher>
    requires n <= |watchers| == |answers|
  {
    if n == 0 then []
    else
      Notified(watchers, answers, n - 1, t, state)
      + (if answers[n - 1] then [watchers[n - 1].Shown(t, state)] else [])
  }

  /** Every watcher left has been shown the state. */
  lemma {:induction false} NotifiedAreShown(
    watchers: seq<Watcher>, answers: seq<bool>, n: nat, t: nat, state: LifeState)
    requires n <= |watchers| == |answers|
    ensures forall w | w in Notified(watchers, answers, n, t, state) ::
              exists i | 0 <= i < n :: answers[i] && w == watchers[i].Shown(t, state)
    ensures forall i | 0 <= i < n && answers[i] ::
            watchers[i].Shown(t, state) in Notified(watchers, answers, n, t, state)
  {
    if n > 0 {
      NotifiedAreShown(watchers, answers, n - 1, t, state);
    }
  }

  // ---- Steps ----

  datatype Step =
    | CreateStep
    | RegisterStep(trial: nat)
    | ForgetStep(trial: nat)
    | WriteStep(trial: nat, to: LifeState)
    | NotifyStep(trial: nat, answers: seq<bool>)
    | SubscribeStep
    | ReportStep(trial: nat, answer: bool)
    | SubscribedStep

  ghost predicate Wf(s: System) {
    forall t | 0 <= t < |s.trials| :: s.trials[t].history != []
  }

  ghost predicate Enabled(s: System, step: Step)
    requires Wf(s)
  {
    match step
    case CreateStep => true
    case RegisterStep(t) => t < |s.trials| && Current(s.trials[t]) == Initializing && !s.trials[t].pending
    case ForgetStep(t) => t < |s.trials| && Current(s.trials[t]) == Ended
    case WriteStep(t, to) =>
      t < |s.trials| && !s.trials[t].pending && CanSwitch(Current(s.trials[t]), to) && Current(s.trials[t]) != to
    case NotifyStep(t, answers) =>
      t < |s.trials| && s.trials[t].pending && s.subscription.Idle? && |answers| == |s.watchers|
    case SubscribeStep => s.subscription.Idle?
    case ReportStep(t, _) => s.subscription.Reporting? && t in s.subscription.todo && t < |s.trials|
    case SubscribedStep => s.subscription.Reporting? && s.subscription.todo == {}
  }

  ghost function Registered(trials: seq<Watched>): set<nat> {
    set t: nat | t < |trials| && trials[t].registered
  }

  ghost function Lengths(trials: seq<Watched>): map<nat, nat> {
    map t: nat | t < |trials| :: |trials[t].history|
  }

  /** The watcher of a subscription that begins. */
  ghost function Beginning(trials: seq<Watched>): Watcher {
    Watcher(map[], map[], Registered(trials), Span(Lengths(trials), map[]))
  }

  ghost function Completed(w: Watcher, trials: seq<Watched>): Watcher {
    w.(span := Span(w.span.begun, Lengths(trials)))
  }

  function Reported(w: Watcher, t: nat, history: seq<LifeState>): Watcher
    requires history != []
  {
    w.Shown(t, history[|history| - 1]).(since := w.since[t := |history| - 1])
  }

  ghost function Next(s: System, step: Step): System
    requires Wf(s) && Enabled(s, step)
  {
    match step
    case CreateStep => s.(trials := s.trials + [Watched([Unknown], false, false)])
    case RegisterStep(t) => s.(trials := s.trials[t := s.trials[t].(registered := true)])
    case ForgetStep(t) => s.(trials := s.trials[t := s.trials[t].(registered := false)])
    case WriteStep(t, to) =>
      s.(trials := s.trials[t := s.trials[t].(history := s.trials[t].history + [to], pending := true)])
    case NotifyStep(t, answers) =>
      s.(trials := s.trials[t := s.trials[t].(pending := false)],
         watchers := Notified(s.watchers, answers, |s.watchers|, t, Current(s.trials[t])))
    case SubscribeStep => s.(subscription := Reporting(Beginning(s.trials), Registered(s.trials)))
    case ReportStep(t, answer) =>
      if !answer then s.(subscription := Idle)
      else s.(subscription := Reporting(Reported(s.subscription.watcher, t, s.trials[t].history),
                                        s.subscription.todo - {t}))
    case SubscribedStep =>
      s.(subscription := Idle, watchers := s.watchers + [Completed(s.subscription.watcher, s.trials)])
  }

  // ---- Histories only move forward ----

  /** Every state of a trial is one its predecessor may switch to, and a different one. */
  ghost predicate Forward(history: seq<LifeState>) {
    && history != [] && history[0] == Unknown
    && forall k | 0 < k < |history| :: history[k] != history[k - 1] && CanSwitch(history[k - 1], history[k])
  }

  lemma {:induction false} RanksIncrease(history: seq<LifeState>, i: nat, j: nat)
    requires Forward(history) && i < j < |history|
    ensures history[i].Rank() < history[j].Rank() && history[i] != Ended
  {
    if i + 1 < j {
      RanksIncrease(history, i, j - 1);
    }
    assert CanSwitch(history[j - 1], history[j]);
  }

  // ---- What a watcher has seen ----

  /** The sequence without immediate repetitions. */
  function Destutter(s: seq<LifeState>): seq<LifeState> {
    if |s| <= 1 then s
    else if s[|s| - 1] == s[|s| - 2] then Destutter(s[..|s| - 1])
    else Destutter(s[..|s| - 1]) + [s[|s| - 1]]
  }

  lemma DestutterMore(s: seq<LifeState>, x: LifeState)
    ensures Destutter(s + [x]) == if s != [] && s[|s| - 1] == x then Destutter(s) else Destutter(s) + [x]
  {
    assert (s + [x])[..|s|] == s;
  }

  lemma {:induction false} DestutterEnds(s: seq<LifeState>)
    requires s != []
    ensures Destutter(s) != [] && Destutter(s)[|Destutter(s)| - 1] == s[|s| - 1]
    ensures Destutter(s)[0] == s[0]
  {
    if |s| > 1 {
      DestutterEnds(s[..|s| - 1]);
    }
  }

  ghost predicate Ascends(s: seq<LifeState>) {
    forall i, j | 0 <= i < j < |s| :: s[i].Rank() <= s[j].Rank()
  }

  /** One state more, not lower than the last one. */
  lemma AscendsMore(s: seq<LifeState>, x: LifeState)
    requires Ascends(s) && (s != [] ==> s[|s| - 1].Rank() <= x.Rank())
    ensures Ascends(s + [x])
  {
  }

  lemma {:induction false} DestutterAscends(s: seq<LifeState>)
    requires Ascends(Destutter(s))
    ensures Ascends(s)
  {
    if |s| > 1 {
      var front, x := s[..|s| - 1], s[|s| - 1];
      assert s == front + [x];
      DestutterMore(front, x);
      DestutterEnds(front);
      FrontAscends(Destutter(front), x);
      DestutterAscends(front);
      AscendsMore(front, x);
    }
  }

  lemma FrontAscends(s: seq<LifeState>, x: LifeState)
    ensures Ascends(s + [x]) ==> Ascends(s)
    ensures Ascends(s + [x]) && s != [] ==> s[|s| - 1].Rank() <= x.Rank()
  {
    assert forall k | 0 <= k < |s| :: (s + [x])[k] == s[k];
    assert (s + [x])[|s|] == x;
  }

  /**
   * What a watcher has seen of a trial is its history since it first saw it, but possibly
   * for the last state when that one still awaits its notification.
   */
  ghost predicate Follows(seen: seq<LifeState>, since: nat, trial: Watched) {
    && since < |trial.history| && seen != []
    && (|| Destutter(seen) == trial.history[since..]
        || (trial.pending && since + 1 < |trial.history| &&
            Destutter(seen) == trial.history[since..|trial.history| - 1]))
  }

  ghost predicate WatcherOk(w: Watcher, trials: seq<Watched>) {
    forall t | t in w.since :: t < |trials| && Follows(w.Seen(t), w.since[t], trials[t])
  }

  ghost predicate TrialsOk(trials: seq<Watched>) {
    forall t | 0 <= t < |trials| :: Forward(trials[t].history)
  }

  ghost predicate Inv(s: System) {
    && TrialsOk(s.trials)
    && (forall w | w in s.watchers :: WatcherOk(w, s.trials) && w.initial == w.since.Keys)
    && (s.subscription.Reporting? ==>
          && WatcherOk(s.subscription.watcher, s.trials)
          && s.subscription.watcher.initial == s.subscription.watcher.since.Keys + s.subscription.todo)
  }

  lemma FollowsWrite(seen: seq<LifeState>, since: nat, trial: Watched, to: LifeState)
    requires Follows(seen, since, trial) && !trial.pending
    ensures Follows(seen, since, trial.(history := trial.history + [to], pending := true))
  {
    var h := trial.history;
    assert (h + [to])[since..|h|] == h[since..];
  }

  lemma FollowsNotification(seen: seq<LifeState>, since: nat, trial: Watched)
    requires Follows(seen, since, trial) && trial.pending && Forward(trial.history)
    ensures Follows(seen + [Current(trial)], since, trial.(pending := false))
  {
    var h, n := trial.history, |trial.history|;
    DestutterMore(seen, h[n - 1]);
    DestutterEnds(seen);
    if Destutter(seen) != h[since..] {
      assert h[since..] == h[since..n - 1] + [h[n - 1]];
    }
  }

  lemma FollowsFirst(trial: Watched)
    requires trial.history != []
    ensures Follows([Current(trial)], |trial.history| - 1, trial)
  {
  }

  lemma WriteKeepsWatcher(w: Watcher, trials: seq<Watched>, t: nat, to: LifeState)
    requires WatcherOk(w, trials) && t < |trials| && !trials[t].pending
    ensures WatcherOk(w, trials[t := trials[t].(history := trials[t].history + [to], pending := true)])
  {
    if t in w.since {
      FollowsWrite(w.Seen(t), w.since[t], trials[t], to);
    }
  }

  lemma NotificationKeepsWatcher(w: Watcher, trials: seq<Watched>, t: nat)
    requires TrialsOk(trials) && WatcherOk(w, trials) && t < |trials| && trials[t].pending
    ensures trials[t].history != []
    ensures WatcherOk(w.Shown(t, Current(trials[t])), trials[t := trials[t].(pending := false)])
  {
    var after, shown := trials[t := trials[t].(pending := false)], w.Shown(t, Current(trials[t]));
    forall u | u in shown.since ensures u < |after| && Follows(shown.Seen(u), shown.since[u], after[u]) {
      if u == t {
        FollowsNotification(w.Seen(t), w.since[t], trials[t]);
      }
    }
  }

  lemma ReportKeepsWatcher(w: Watcher, trials: seq<Watched>, t: nat)
    requires WatcherOk(w, trials) && t < |trials| && trials[t].history != [] && t !in w.seen
    ensures WatcherOk(Reported(w, t, trials[t].history), trials)
  {
    FollowsFirst(trials[t]);
    assert w.Seen(t) == [];
  }

  /** During a subscription a trial still to be reported has not been seen. */
  ghost predicate TodoUnseen(s: System) {
    s.subscription.Reporting? ==> forall t | t in s.subscription.todo :: t !in s.subscription.watcher.seen
  }

  lemma CreateKeepsWatchers(s: System)
    requires Inv(s) && Wf(s)
    ensures Inv(Next(s, CreateStep))
  {
    forall w: Watcher | WatcherOk(w, s.trials) ensures WatcherOk(w, s.trials + [Watched([Unknown], false, false)]) {
    }
  }

  lemma RegistrationKeepsWatchers(s: System, t: nat, registered: bool)
    requires Inv(s) && t < |s.trials|
    ensures Inv(s.(trials := s.trials[t := s.trials[t].(registered := registered)]))
  {
    var after := s.trials[t := s.trials[t].(registered := registered)];
    forall w: Watcher | WatcherOk(w, s.trials) ensures WatcherOk(w, after) {
      forall u | u in w.since ensures u < |after| && Follows(w.Seen(u), w.since[u], after[u]) {
        assert Follows(w.Seen(u), w.since[u], s.trials[u]);
      }
    }
  }

  lemma WriteKeepsInv(s: System, t: nat, to: LifeState)
    requires Inv(s) && Wf(s) && Enabled(s, WriteStep(t, to))
    ensures Inv(Next(s, WriteStep(t, to)))
  {
    forall w: Watcher | WatcherOk(w, s.trials) ensures WatcherOk(w, Next(s, WriteStep(t, to)).trials) {
      WriteKeepsWatcher(w, s.trials, t, to);
    }
  }

  lemma NotifyKeepsInv(s: System, t: nat, answers: seq<bool>)
    requires Inv(s) && Wf(s) && Enabled(s, NotifyStep(t, answers))
    ensures Inv(Next(s, NotifyStep(t, answers)))
  {
    var n, state := Next(s, NotifyStep(t, answers)), Current(s.trials[t]);
    NotifiedAreShown(s.watchers, answers, |s.watchers|, t, state);
    forall w | w in n.watchers ensures WatcherOk(w, n.trials) {
      var i :| 0 <= i < |s.watchers| && answers[i] && w == s.watchers[i].Shown(t, state);
      assert s.watchers[i] in s.watchers;
      NotificationKeepsWatcher(s.watchers[i], s.trials, t);
    }
  }

  lemma NextKeepsInv(s: System, step: Step)
    requires Inv(s) && TodoUnseen(s) && Wf(s) && Enabled(s, step)
    ensures Inv(Next(s, step)) && TodoUnseen(Next(s, step)) && Wf(Next(s, step))
  {
    match step {
      case CreateStep => CreateKeepsWatchers(s);
      case RegisterStep(t) => RegistrationKeepsWatchers(s, t, true);
      case ForgetStep(t) => RegistrationKeepsWatchers(s, t, false);
      case WriteStep(t, to) => WriteKeepsInv(s, t, to);
      case NotifyStep(t, answers) => NotifyKeepsInv(s, t, answers);
      case SubscribeStep =>
      case ReportStep(t, answer) => if answer { ReportKeepsWatcher(s.subscription.watcher, s.trials, t); }
      case SubscribedStep =>
    }
  }

  // ---- Since when ----

  /** What a subscriber was shown first was current between the beginning and the end of its subscription. */
  ghost predicate SinceInSpan(w: Watcher) {
    forall t | t in w.since ::
      t in w.span.begun && t in w.span.complete && w.span.begun[t] <= w.since[t] + 1 <= w.span.complete[t]
  }

  /** The part of it that holds during the subscription. */
  ghost predicate SinceBegun(w: Watcher, trials: seq<Watched>) {
    && (forall t | t in w.since :: t in w.span.begun && w.span.begun[t] <= w.since[t] + 1)
    && (forall t | t in w.initial :: t < |trials| && t in w.span.begun && w.span.begun[t] <= |trials[t].history|)
  }

  ghost predicate SpansOk(s: System) {
    && (forall w | w in s.watchers :: SinceInSpan(w))
    && (s.subscription.Reporting? ==> SinceBegun(s.subscription.watcher, s.trials))
  }

  lemma NotifyKeepsSpans(s: System, t: nat, answers: seq<bool>)
    requires SpansOk(s) && Wf(s) && Enabled(s, NotifyStep(t, answers))
    ensures SpansOk(Next(s, NotifyStep(t, answers)))
  {
    var n, state := Next(s, NotifyStep(t, answers)), Current(s.trials[t]);
    NotifiedAreShown(s.watchers, answers, |s.watchers|, t, state);
    forall w | w in n.watchers ensures SinceInSpan(w) {
      var i :| 0 <= i < |s.watchers| && answers[i] && w == s.watchers[i].Shown(t, state);
      assert SinceInSpan(s.watchers[i]);
    }
  }

  lemma SubscribedKeepsSpans(s: System)
    requires Inv(s) && SpansOk(s) && Wf(s) && Enabled(s, SubscribedStep)
    ensures SpansOk(Next(s, SubscribedStep))
  {
    var w := Completed(s.subscription.watcher, s.trials);
    assert SinceInSpan(w);
  }

  lemma NextKeepsSpans(s: System, step: Step)
    requires Inv(s) && SpansOk(s) && Wf(s) && Enabled(s, step)
    ensures SpansOk(Next(s, step))
  {
    match step {
      case NotifyStep(t, answers) => NotifyKeepsSpans(s, t, answers);
      case SubscribedStep => SubscribedKeepsSpans(s);
      case _ =>
    }
  }

  // ---- The theorem ----

  ghost predicate Good(s: System) {
    Inv(s) && TodoUnseen(s) && SpansOk(s) && Wf(s)
  }

  ghost function Run(s: System, steps: seq<Step>): (end: Option<System>)
    requires Good(s)
    ensures end.Some? ==> Good(end.value)
    decreases |steps|
  {
    if steps == [] then Some(s)
    else if !Enabled(s, steps[0]) then None
    else
      NextKeepsInv(s, steps[0]);
      NextKeepsSpans(s, steps[0]);
      Run(Next(s, steps[0]), steps[1..])
  }

  lemma FollowingMeans(seen: seq<LifeState>, since: nat, trial: Watched)
    requires Follows(seen, since, trial) && Forward(trial.history)
    ensures Ascends(seen) && seen[0] == trial.history[since]
    ensures !trial.pending ==> seen[|seen| - 1] == Current(trial)
  {
    var d := Destutter(seen);
    forall i, j | 0 <= i < j < |d| ensures d[i].Rank() <= d[j].Rank() {
      RanksIncrease(trial.history, since + i, since + j);
    }
    DestutterAscends(seen);
    DestutterEnds(seen);
  }

  /**
   * Over every run: for each trial registered when a watcher subscribed, the states it is shown start with one that was
   * current during the subscription, never go back, skip none of the states held since, and end with the current state
   * whenever no write awaits its notification.
   */
  lemma WatchersMissNothing(steps: seq<Step>, w: Watcher, t: nat)
    requires var start := System([], Idle, []);
             Run(start, steps).Some? && w in Run(start, steps).value.watchers && t in w.initial
    ensures var trials := Run(System([], Idle, []), steps).value.trials;
            && t < |trials| && t in w.since && w.Seen(t) != [] && w.since[t] < |trials[t].history|
            && t in w.span.begun && t in w.span.complete
            && w.span.begun[t] <= w.since[t] + 1 <= w.span.complete[t]
            && w.Seen(t)[0] == trials[t].history[w.since[t]]
            && Ascends(w.Seen(t))
            && (!trials[t].pending ==>
                  && Destutter(w.Seen(t)) == trials[t].history[w.since[t]..]
                  && w.Seen(t)[|w.Seen(t)| - 1] == Current(trials[t]))
            && (trials[t].pending ==>
                  || Destutter(w.Seen(t)) == trials[t].history[w.since[t]..]
                  || Destutter(w.Seen(t)) == trials[t].history[w.since[t]..|trials[t].history| - 1])
  {
    var end := Run(System([], Idle, []), steps).value;
    assert WatcherOk(w, end.trials) && t in w.since && SinceInSpan(w);
    FollowingMeans(w.Seen(t), w.since[t], end.trials[t]);
  }

  /**
   * A subscription first reports every trial registered, each with its current state; a handler that answers false is
   * dropped, and one that never does is a watcher in the end.
   */
  lemma SubscriptionIsComplete(s: System, t: nat, answer: bool)
    requires Good(s)
    ensures Enabled(s, SubscribeStep) ==>
              var n := Next(s, SubscribeStep).subscription;
              && n.Reporting? && n.watcher.seen == map[]
              && forall u: nat :: u in n.todo <==> u < |s.trials| && s.trials[u].registered
    ensures Enabled(s, ReportStep(t, answer)) ==>
              var n, w := Next(s, ReportStep(t, answer)).subscription, s.subscription.watcher;
              if answer then
                && n.Reporting? && n.todo == s.subscription.todo - {t}
                && n.watcher.seen == w.seen[t := w.Seen(t) + [Current(s.trials[t])]]
              else n.Idle?
    ensures Enabled(s, SubscribedStep) ==>
              var n := Next(s, SubscribedStep);
              && n.subscription.Idle? && |n.watchers| == |s.watchers| + 1 && n.watchers[..|s.watchers|] == s.watchers
              && n.watchers[|s.watchers|].seen == s.subscription.watcher.seen
              && n.watchers[|s.watchers|].initial == s.subscription.watcher.initial
  {
  }

  /** Over every run: a trial's states only move forward, and nothing follows `Ended`. */
  lemma StatesOnlyMoveForward(steps: seq<Step>, t: nat, i: nat, j: nat)
    requires Run(System([], Idle, []), steps).Some?
    requires t < |Run(System([], Idle, []), steps).value.trials|
    requires i < j < |Run(System([], Idle, []), steps).value.trials[t].history|
    ensures var h := Run(System([], Idle, []), steps).value.trials[t].history;
            h[i].Rank() < h[j].Rank() && h[i] != Ended
  {
    RanksIncrease(Run(System([], Idle, []), steps).value.trials[t].history, i, j);
  }

  // ---- The orchestrator's list of watchers ----

  class TrialWatchers {
    var watchers: seq<Watcher>

    constructor ()
      ensures watchers == []
    {
      watchers := [];
    }

    /** `answers[k]` is what the k-th handler returns when it is called with the state. */
    method NotifyWatchers(t: nat, state: LifeState, answers: seq<bool>)
      requires |answers| == |watchers|
      modifies this
      ensures watchers == Notified(old(watchers), answers, |answers|, t, state)
    {
      var itor := 0;
      ghost var called := 0;
      while itor < |watchers|
        invariant 0 <= itor <= |watchers| && 0 <= called <= |answers|
        invariant |watchers| - itor == |answers| - called
        invariant watchers[..itor] == Notified(old(watchers), answers, called, t, state)
        invariant watchers[itor..] == old(watchers)[called..]
        decreases |watchers| - itor
      {
        assert watchers[itor] == watchers[itor..][0] == old(watchers)[called];
        var keep := answers[|answers| - (|watchers| - itor)];
        var shown := watchers[itor].Shown(t, state);
        assert watchers[itor + 1..] == watchers[itor..][1..];
        if keep {
          watchers := watchers[itor := shown];
          itor := itor + 1;
        } else {
          watchers := watchers[..itor] + watchers[itor + 1..];
        }
        called := called + 1;
      }
      assert watchers[..itor] == watchers;
    }

    /**
     * Reports the given trials to a new handler, in the order given; the handler is kept when it answers true
     * every time.  `answers` are its answers.
     */
    method WatchTrials(trials: seq<nat>, histories: seq<seq<LifeState>>, answers: seq<bool>) returns (added: bool)
      requires |trials| == |histories| == |answers|
      requires forall i | 0 <= i < |histories| :: histories[i] != []
      modifies this
      ensures added <==> forall i | 0 <= i < |answers| :: answers[i]
      ensures watchers == if added then old(watchers) + [AllReported(trials, histories, |trials|)] else old(watchers)
    {
      var w := Watcher(map[], map[], (set t | t in trials), NO_SPAN);
      var i := 0;
      while i < |trials|
        invariant 0 <= i <= |trials|
        invariant w == AllReported(trials, histories, i)
        invariant forall k | 0 <= k < i :: answers[k]
      {
        w := Reported(w, trials[i], histories[i]);
        if !answers[i] {
          return false;
        }
        i := i + 1;
      }
      watchers := watchers + [w];
      added := true;
    }
  }

  function AllReported(trials: seq<nat>, histories: seq<seq<LifeState>>, n: nat): Watcher
    requires n <= |trials| == |histories|
    requires forall i | 0 <= i < |histories| :: histories[i] != []
  {
    if n == 0 then Watcher(map[], map[], (set t | t in trials), NO_SPAN)
    else Reported(AllReported(trials, histories, n - 1), trials[n - 1], histories[n - 1])
  }
}
