/** The state one actor of one trial shares between the orchestrator's stream and the actor's requests. */
module ActorStates {
  import opened Common

  datatype Status = Joined | Started | WaitForRecvEvent | WaitForSentEvent | Left | Ended {
    predicate Final() {
      Left? || Ended?
    }
  }

  /** A received or sent event: its tick, and the rest of it. */
  datatype Event = Event(tick: nat, body: bytes)

  const NO_EVENT := Event(0, [])

  /** Known once the orchestrator has started the actor. */
  datatype ActorInfo = ActorInfo(actorClass: string, implementation: string, config: bytes)

  const NO_INFO := ActorInfo("", "", [])

  datatype ActorState = ActorState(status: Status, info: ActorInfo, lastRecv: Event, lastSent: Event)

  /** A transition error carries the status in which the transition was asked for. */
  datatype Transition = Done(state: ActorState) | Refused(status: Status)

  function NewJoined(): ActorState {
    ActorState(Joined, NO_INFO, NO_EVENT, NO_EVENT)
  }

  function NewStarted(info: ActorInfo): ActorState {
    ActorState(Started, info, NO_EVENT, NO_EVENT)
  }

  function TickOf(a: ActorState): nat {
    if a.lastSent.tick > a.lastRecv.tick then a.lastSent.tick else a.lastRecv.tick
  }

  function Start(a: ActorState, info: ActorInfo): Transition {
    if a.status != Joined then Refused(a.status) else Done(a.(status := WaitForRecvEvent, info := info))
  }

  function Join(a: ActorState): Transition {
    if a.status != Started then Refused(a.status) else Done(a.(status := WaitForRecvEvent))
  }

  function Leave(a: ActorState): Transition {
    if a.status.Final() then Refused(a.status) else Done(a.(status := Left))
  }

  function SendEvent(a: ActorState, event: Event): Transition {
    if a.status != WaitForSentEvent || TickOf(a) != event.tick then Refused(a.status)
    else Done(a.(status := WaitForRecvEvent, lastSent := event))
  }

  function ReceiveEvent(a: ActorState, event: Event): Transition {
    if a.status != WaitForRecvEvent || TickOf(a) > event.tick then Refused(a.status)
    else Done(a.(status := WaitForSentEvent, lastRecv := event))
  }

  function End(a: ActorState, event: Event): Transition {
    if a.status.Final() || TickOf(a) > event.tick then Refused(a.status)
    else Done(a.(status := Ended, lastRecv := event))
  }

  /** The state after the transition, and whether it was refused. */
  function After(a: ActorState, t: Transition): ActorState {
    if t.Done? then t.state else a
  }
}

/** The same as objects, and the manager's list of them. */
module ActorTrials {
  import opened ActorStates

  class ActorTrial {
    const trialID: string
    const actorName: string
    var status: Status
    var info: ActorInfo
    var lastRecvEvent: Event
    var lastSentEvent: Event

    ghost function View(): ActorState
      reads this
    {
      ActorState(status, info, lastRecvEvent, lastSentEvent)
    }

    constructor Joined(trialID: string, actorName: string)
      ensures this.trialID == trialID && this.actorName == actorName && View() == NewJoined()
    {
      this.trialID, this.actorName := trialID, actorName;
      status, info, lastRecvEvent, lastSentEvent := Status.Joined, NO_INFO, NO_EVENT, NO_EVENT;
    }

    constructor Started(trialID: string, actorName: string, info: ActorInfo)
      ensures this.trialID == trialID && this.actorName == actorName && View() == NewStarted(info)
    {
      this.trialID, this.actorName, this.info := trialID, actorName, info;
      status, lastRecvEvent, lastSentEvent := Status.Started, NO_EVENT, NO_EVENT;
    }

    predicate Matches(trialID: string, actorName: string) {
      this.trialID == trialID && this.actorName == actorName
    }

    function TickID(): (tick: nat)
      reads this
      ensures tick >= lastRecvEvent.tick && tick >= lastSentEvent.tick
      ensures tick == lastRecvEvent.tick || tick == lastSentEvent.tick
    {
      if lastSentEvent.tick > lastRecvEvent.tick then lastSentEvent.tick else lastRecvEvent.tick
    }

    method Start(info: ActorInfo) returns (ok: bool)
      modifies this
      ensures var t := ActorStates.Start(old(View()), info); ok == t.Done? && View() == After(old(View()), t)
    {
      if status != Status.Joined {
        return false;
      }
      status := WaitForRecvEvent;
      this.info := info;
      ok := true;
    }

    method Join() returns (ok: bool)
      modifies this
      ensures var t := ActorStates.Join(old(View())); ok == t.Done? && View() == After(old(View()), t)
    {
      if status != Status.Started {
        return false;
      }
      status := WaitForRecvEvent;
      ok := true;
    }

    method Leave() returns (ok: bool)
      modifies this
      ensures var t := ActorStates.Leave(old(View())); ok == t.Done? && View() == After(old(View()), t)
    {
      if status == Left || status == Ended {
        return false;
      }
      status := Left;
      ok := true;
    }

    method SendEvent(event: Event) returns (ok: bool)
      modifies this
      ensures var t := ActorStates.SendEvent(old(View()), event); ok == t.Done? && View() == After(old(View()), t)
    {
      if status != WaitForSentEvent || TickID() != event.tick {
        return false;
      }
      status := WaitForRecvEvent;
      lastSentEvent := event;
      ok := true;
    }

    method ReceiveEvent(event: Event) returns (ok: bool)
      modifies this
      ensures var t := ActorStates.ReceiveEvent(old(View()), event); ok == t.Done? && View() == After(old(View()), t)
    {
      if status != WaitForRecvEvent || TickID() > event.tick {
        return false;
      }
      status := WaitForSentEvent;
      lastRecvEvent := event;
      ok := true;
    }

    method End(event: Event) returns (ok: bool)
      modifies this
      ensures var t := ActorStates.End(old(View()), event); ok == t.Done? && View() == After(old(View()), t)
    {
      if status == Left || status == Ended || TickID() > event.tick {
        return false;
      }
      status := Ended;
      lastRecvEvent := event;
      ok := true;
    }
  }

  /** What a new actor trial is made of: joined by the actor, or started by the orchestrator. */
  datatype Factory = ByActor | ByOrchestrator(info: ActorInfo)

  class Manager {
    var trials: seq<ActorTrial>

    /** At most one actor trial per trial and actor name. */
    ghost predicate Valid()
      reads this
    {
      forall i, j | 0 <= i < j < |trials| :: !trials[i].Matches(trials[j].trialID, trials[j].actorName)
    }

    /** The actor trials of the list, whatever their order. */
    ghost function Contents(): set<ActorTrial>
      reads this
    {
      set t | t in trials
    }

    constructor ()
      ensures Valid() && trials == []
    {
      trials := [];
    }

    method GetTrial(trialID: string, actorName: string) returns (trial: ActorTrial?)
      requires Valid()
      ensures trial != null ==> trial in Contents() && trial.Matches(trialID, actorName)
      ensures forall t | t in Contents() && t.Matches(trialID, actorName) :: t == trial
    {
      var i := 0;
      while i < |trials|
        invariant 0 <= i <= |trials|
        invariant forall k | 0 <= k < i :: !trials[k].Matches(trialID, actorName)
      {
        if trials[i].Matches(trialID, actorName) {
          return trials[i];
        }
        i := i + 1;
      }
      trial := null;
    }

    method AddTrialIfNeeded(trialID: string, actorName: string, factory: Factory)
      returns (trial: ActorTrial, added: bool)
      requires Valid()
      modifies this
      ensures Valid() && trial.Matches(trialID, actorName)
      ensures added <==> forall t | t in old(Contents()) :: !t.Matches(trialID, actorName)
      ensures added ==> fresh(trial)
                        && trial.View() == if factory.ByActor? then NewJoined() else NewStarted(factory.info)
      ensures Contents() == old(Contents()) + {trial}
      ensures !added ==> trial in old(Contents())
    {
      var existing := GetTrial(trialID, actorName);
      if existing != null {
        return existing, false;
      }
      if factory.ByActor? {
        trial := new ActorTrial.Joined(trialID, actorName);
      } else {
        trial := new ActorTrial.Started(trialID, actorName, factory.info);
      }
      trials := trials + [trial];
      added := true;
    }

    method RemoveTrial(trialID: string, actorName: string)
      requires Valid()
      modifies this
      ensures Valid()
      ensures Contents() == set t | t in old(Contents()) && !t.Matches(trialID, actorName)
      ensures |trials| >= |old(trials)| - 1
    {
      var nbTrials := |trials|;
      var i := 0;
      while i < nbTrials
        invariant 0 <= i <= nbTrials == |trials| && trials == old(trials)
        invariant forall k | 0 <= k < i :: !trials[k].Matches(trialID, actorName)
      {
        if trials[i].Matches(trialID, actorName) {
          // The last one takes the place of the one removed.
          trials := trials[i := trials[nbTrials - 1]];
          trials := trials[..nbTrials - 1];
          SwapRemoved(old(trials), trials, i);
          return;
        }
        i := i + 1;
      }
    }

    method LeaveAllTrials()
      requires Valid()
      modifies Contents()
      ensures forall t | t in Contents() :: t.View() == After(old(t.View()), Leave(old(t.View())))
    {
      for i := 0 to |trials|
        invariant forall k | 0 <= k < i ::
                  trials[k].View() == After(old(trials[k].View()), Leave(old(trials[k].View())))
        invariant forall k | i <= k < |trials| :: trials[k].View() == old(trials[k].View())
      {
        var _ := trials[i].Leave();
      }
    }

    method LeaveTrial(trialID: string, actorName: string) returns (ok: bool)
      requires Valid()
      modifies Contents()
      ensures ok <==> exists t :: t in Contents() && t.Matches(trialID, actorName) && Leave(old(t.View())).Done?
      ensures forall t | t in Contents() ::
                t.View() == if t.Matches(trialID, actorName) then After(old(t.View()), Leave(old(t.View())))
                            else old(t.View())
    {
      var trial := GetTrial(trialID, actorName);
      if trial == null {
        return false;
      }
      ok := trial.Leave();
    }

    method EndTrial(trialID: string, actorName: string, event: Event) returns (ok: bool)
      requires Valid()
      modifies Contents()
      ensures ok <==> exists t :: t in Contents() && t.Matches(trialID, actorName) && End(old(t.View()), event).Done?
      ensures forall t | t in Contents() ::
                t.View() == if t.Matches(trialID, actorName) then After(old(t.View()), End(old(t.View()), event))
                            else old(t.View())
    {
      var trial := GetTrial(trialID, actorName);
      if trial == null {
        return false;
      }
      ok := trial.End(event);
    }
  }

  /** Removing an element by putting the last one in its place removes just that one. */
  lemma SwapRemoved(before: seq<ActorTrial>, after: seq<ActorTrial>, i: nat)
    requires i < |before| && |after| == |before| - 1
    requires forall k | 0 <= k < |after| :: after[k] == if k == i then before[|before| - 1] else before[k]
    requires forall j, k | 0 <= j < k < |before| :: !before[j].Matches(before[k].trialID, before[k].actorName)
    ensures forall t :: t in after <==> t in before && !t.Matches(before[i].trialID, before[i].actorName)
    ensures forall j, k | 0 <= j < k < |after| :: !after[j].Matches(after[k].trialID, after[k].actorName)
  {
    forall t ensures t in after <==> t in before && !t.Matches(before[i].trialID, before[i].actorName) {
      if t in before && !t.Matches(before[i].trialID, before[i].actorName) {
        var k :| 0 <= k < |before| && before[k] == t;
        assert k != i;
        assert k == |before| - 1 ==> after[i] == t;
        assert k < |before| - 1 ==> after[k] == t;
      }
      if t in after {
        var k :| 0 <= k < |after| && after[k] == t;
        assert t == before[if k == i then |before| - 1 else k];
      }
    }
  }
}
