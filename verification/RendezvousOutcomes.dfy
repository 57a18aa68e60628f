/**
 * What each call of the rendezvous comes to, told from the calls made and the events accepted before it.
 */
module RendezvousOutcomes {
  import opened Common
  import opened ActorStates
  import opened Rendezvous

  // ---- The calls and the events so far ----

  /** The last event accepted is the end. */
  ghost predicate HasEnded(sh: Shared) {
    sh.accepted != [] && sh.accepted[|sh.accepted| - 1].Ending?
  }

  ghost predicate HasLeft(sh: Shared) {
    LeaveMade in sh.calls && !HasEnded(sh)
  }

  /** The orchestrator has started the actor, the actor has joined, and neither has it left nor has the trial ended. */
  ghost predicate UnderWay(sh: Shared) {
    StartMade in sh.calls && JoinMade in sh.calls && LeaveMade !in sh.calls && !HasEnded(sh)
  }

  /** The actor is to answer the last event accepted. */
  ghost predicate ActorsTurn(sh: Shared) {
    UnderWay(sh) && sh.accepted != [] && sh.accepted[|sh.accepted| - 1].Received?
  }

  ghost predicate NoLaterTick(sh: Shared, tick: nat) {
    forall i | 0 <= i < |sh.accepted| :: sh.accepted[i].event.tick <= tick
  }

  /** The status tells what has been called and accepted, and nothing else. */
  ghost function StatusOf(sh: Shared): Status {
    if HasEnded(sh) then Ended
    else if HasLeft(sh) then Left
    else if ActorsTurn(sh) then WaitForSentEvent
    else if UnderWay(sh) then WaitForRecvEvent
    else if StartMade in sh.calls then Started
    else Joined
  }

  ghost predicate HistoryOk(sh: Shared) {
    && sh.actor.status == StatusOf(sh)
    && (sh.presence.Absent? ==> sh.calls == {})
    && (!sh.presence.Absent? ==> sh.calls != {})
    && (sh.actor.status.Joined? && !sh.presence.Absent? ==> JoinMade in sh.calls)
  }

  // ---- Every step keeps the status ----

  lemma ReceiveKeepsHistory(sh: Shared, e: Event)
    requires SharedOk(sh) && HistoryOk(sh) && !sh.presence.Absent?
    ensures HistoryOk(Noting(sh, ReceiveEvent(sh.actor, e), Received(e)))
  {
  }

  lemma SendKeepsHistory(sh: Shared, e: Event)
    requires SharedOk(sh) && HistoryOk(sh) && !sh.presence.Absent?
    ensures HistoryOk(Noting(sh, SendEvent(sh.actor, e), Sent(e)))
  {
  }

  lemma EndKeepsHistory(sh: Shared, e: Event)
    requires SharedOk(sh) && HistoryOk(sh) && !sh.presence.Absent?
    ensures HistoryOk(Noting(sh, End(sh.actor, e), Ending(e)))
  {
  }

  lemma RequestKeepsHistory(sh: Shared, r: Request)
    requires SharedOk(sh) && HistoryOk(sh) && (sh.presence.Absent? ==> AnywhereButFound(r))
    requires !(r.JoinCalled? && sh.presence.Removed?)
    ensures HistoryOk(RequestStep(sh, r).0)
  {
    if r.ActSending? {
      SendKeepsHistory(sh, r.sent);
    } else {
      CallKeepsHistory(sh, r);
    }
  }

  lemma CallKeepsHistory(sh: Shared, r: Request)
    requires SharedOk(sh) && HistoryOk(sh) && (sh.presence.Absent? ==> AnywhereButFound(r))
    requires !r.ActSending? && !(r.JoinCalled? && sh.presence.Removed?)
    ensures HistoryOk(RequestStep(sh, r).0)
  {
  }

  lemma StreamKeepsHistory(sh: Shared, p: Stream)
    requires SharedOk(sh) && HistoryOk(sh) && (sh.presence.Absent? ==> StreamAnywhereButFound(p))
    requires !(p.StartCalled? && sh.presence.Removed?)
    ensures HistoryOk(StreamStep(sh, p).0)
  {
    if p.RequestFound? {
      ReceiveKeepsHistory(sh, p.received);
    } else if p.EndFound? {
      EndKeepsHistory(sh, p.received);
    }
  }

  lemma NextKeepsHistory(s: System, step: Step)
    requires Inv(s) && HistoryOk(s.shared) && Enabled(s, step)
    ensures HistoryOk(Next(s, step).shared)
  {
    match step {
      case RequestAdvances(id) =>
        assert RequestOk(s.shared, s.requests[id]);
        RequestKeepsHistory(s.shared, s.requests[id]);
      case StreamAdvances => StreamKeepsHistory(s.shared, s.stream);
      case _ =>
    }
  }

  lemma {:induction false} RunKeepsHistory(s: System, steps: seq<Step>)
    requires Inv(s) && HistoryOk(s.shared)
    ensures Run(s, steps).Some? ==> HistoryOk(Run(s, steps).value.shared)
    decreases |steps|
  {
    if steps != [] && Enabled(s, steps[0]) {
      NextKeepsInv(s, steps[0]);
      NextKeepsHistory(s, steps[0]);
      RunKeepsHistory(Next(s, steps[0]), steps[1..]);
    }
  }

  /** The state after the steps, the last one first taken off. */
  ghost function StateAfter(steps: seq<Step>): Option<System> {
    if steps == [] then Some(StartSystem())
    else
      var before := StateAfter(steps[..|steps| - 1]);
      if before.Some? && Enabled(before.value, steps[|steps| - 1]) then Some(Next(before.value, steps[|steps| - 1]))
      else None
  }

  ghost predicate Reachable(s: System) {
    exists steps: seq<Step> :: StateAfter(steps) == Some(s)
  }

  /** The runs are those of the other theorems. */
  lemma {:induction false} StateAfterIsRun(steps: seq<Step>)
    ensures StateAfter(steps) == Run(StartSystem(), steps)
  {
    if steps != [] {
      var front := steps[..|steps| - 1];
      StateAfterIsRun(front);
      RunLast(StartSystem(), front, steps[|steps| - 1]);
      assert steps == front + [steps[|steps| - 1]];
    }
  }

  lemma RunOne(s: System, step: Step)
    requires Inv(s)
    ensures Run(s, [step]) == if Enabled(s, step) then Some(Next(s, step)) else None
  {
    assert [step][1..] == [];
    if Enabled(s, step) {
      NextKeepsInv(s, step);
      assert Run(Next(s, step), []) == Some(Next(s, step));
    }
  }

  lemma RunFirst(s: System, steps: seq<Step>)
    requires Inv(s) && steps != []
    ensures Enabled(s, steps[0]) ==> Inv(Next(s, steps[0])) && Run(s, steps) == Run(Next(s, steps[0]), steps[1..])
    ensures !Enabled(s, steps[0]) ==> Run(s, steps) == None
  {
    if Enabled(s, steps[0]) {
      NextKeepsInv(s, steps[0]);
    }
  }

  lemma {:induction false} RunLast(s: System, steps: seq<Step>, step: Step)
    requires Inv(s)
    ensures var end := Run(s, steps);
            Run(s, steps + [step]) ==
              if end.Some? && Enabled(end.value, step) then Some(Next(end.value, step)) else None
    decreases |steps|
  {
    if steps == [] {
      RunOne(s, step);
      assert steps + [step] == [step];
    } else {
      var more := steps + [step];
      assert more[0] == steps[0] && more[1..] == steps[1..] + [step];
      RunFirst(s, steps);
      RunFirst(s, more);
      if Enabled(s, steps[0]) {
        RunLast(Next(s, steps[0]), steps[1..], step);
      }
    }
  }

  lemma ReachableHistory(s: System)
    requires Reachable(s)
    ensures Inv(s) && HistoryOk(s.shared)
  {
    var steps: seq<Step> :| StateAfter(steps) == Some(s);
    StateAfterIsRun(steps);
    RunKeepsHistory(StartSystem(), steps);
  }

  // ---- Which events are accepted ----

  lemma TickIsLast(sh: Shared, tick: nat)
    requires SharedOk(sh)
    ensures TickOf(sh.actor) <= tick <==> NoLaterTick(sh, tick)
    ensures sh.accepted != [] && sh.accepted[|sh.accepted| - 1].Received? ==>
              sh.accepted[|sh.accepted| - 1].event.tick == TickOf(sh.actor)
  {
    var h, n := sh.accepted, |sh.accepted|;
    TicksOfActor(sh);
    if n > 0 {
      assert !h[0].Sent?;
      var i := LastReceived(h, n).value;
      assert h[i].event.tick == TickOf(sh.actor);
    }
  }

  /**
   * In every reachable state an event of the orchestrator is accepted exactly when the actor trial is started and
   * joined, neither left nor ended, the last event accepted is not a received one, and none has a later tick.
   */
  lemma ReceiveIsAccepted(s: System, e: Event)
    requires Reachable(s) && s.stream == RequestFound(e)
    ensures var sh, t := s.shared, Next(s, StreamAdvances);
            var ok := UnderWay(sh) && (sh.accepted == [] || !sh.accepted[|sh.accepted| - 1].Received?)
                      && NoLaterTick(sh, e.tick);
            && t.shared.accepted == (if ok then sh.accepted + [Received(e)] else sh.accepted)
            && t.stream == (if ok then RequestWaiting(e, |sh.accepted|) else Idle)
            && t.answers == s.answers
  {
    ReachableHistory(s);
    TickIsLast(s.shared, e.tick);
    assert s.answers + [] == s.answers;
  }

  /** An action is accepted exactly when it is the actor's turn and the action has the tick of the last event. */
  lemma SendIsAccepted(s: System, id: nat, e: Event)
    requires Reachable(s) && id in s.requests && s.requests[id] == ActSending(e)
    ensures var sh, t := s.shared, Next(s, RequestAdvances(id));
            var ok := ActorsTurn(sh) && sh.accepted[|sh.accepted| - 1].event.tick == e.tick;
            && t.shared.accepted == (if ok then sh.accepted + [Sent(e)] else sh.accepted)
            && t.requests == s.requests[id := if ok then ActWaiting(e, |sh.accepted|) else Over]
  {
    ReachableHistory(s);
    TickIsLast(s.shared, e.tick);
  }

  /**
   * The end is accepted exactly when the actor trial has neither been left
   * nor ended, and no event has a later tick.
   */
  lemma EndIsAccepted(s: System, e: Event)
    requires Reachable(s) && s.stream == EndFound(e)
    ensures var sh, t := s.shared, Next(s, StreamAdvances);
            var ok := !HasLeft(sh) && !HasEnded(sh) && NoLaterTick(sh, e.tick);
            && t.shared.accepted == (if ok then sh.accepted + [Ending(e)] else sh.accepted)
            && t.stream == Idle && t.answers == s.answers
  {
    ReachableHistory(s);
    TickIsLast(s.shared, e.tick);
    assert s.answers + [] == s.answers;
  }

  // ---- Where each call goes ----

  /** The events that the actor trial shows are the last ones accepted. */
  lemma LastEvents(sh: Shared, i: nat)
    requires SharedOk(sh) && i < |sh.accepted|
    ensures !sh.accepted[i].Sent? && (forall j | i < j < |sh.accepted| :: sh.accepted[j].Sent?) ==>
              sh.actor.lastRecv == sh.accepted[i].event
    ensures sh.accepted[i].Sent? && (forall j | i < j < |sh.accepted| :: !sh.accepted[j].Sent?) ==>
              sh.actor.lastSent == sh.accepted[i].event
  {
  }

  /** Where a request goes from a look or a test. */
  ghost function Outcome(sh: Shared, r: Request): Request {
    match r
    case ActCalled(e) => if sh.presence.Listed? then ActFound(e) else Over
    case ActFound(e) => if HasEnded(sh) then IgnoredFound else if HasLeft(sh) then Over else ActSending(e)
    case ActWaiting(e, k) => if sh.presence.Listed? then ActTesting(e, k) else Over
    case ActTesting(e, k) =>
      if HasLeft(sh) then Over else if HasEnded(sh) || ActorsTurn(sh) then ActPassed(e, k) else ActWaiting(e, k)
    case ActPassed(e, k) => if HasEnded(sh) then ActClosing(e, k) else ActReading(e, k)
    case ActClosing(e, k) => ActReading(e, k)
    case JoinCalled => if sh.presence.Absent? then JoinWaiting else JoinFound
    case JoinFound => if HasEnded(sh) || HasLeft(sh) then Over else JoinWaiting
    case JoinWaiting => if sh.presence.Listed? then JoinTesting else JoinWaiting
    case JoinTesting => if HasEnded(sh) || HasLeft(sh) then Over else if ActorsTurn(sh) then JoinPassed else JoinWaiting
    case LeaveCalled => if sh.presence.Listed? then LeaveFound else Over
    case _ => r
  }

  predicate Tests(r: Request) {
    || r.ActCalled? || r.ActFound? || r.ActWaiting? || r.ActTesting? || r.ActPassed? || r.ActClosing?
    || r.JoinCalled? || r.JoinFound? || r.JoinWaiting? || r.JoinTesting? || r.LeaveCalled?
  }

  ghost predicate Joining(r: Request) {
    r.JoinWaiting? || r.JoinTesting?
  }

  /** Whoever waits for its first event has made its join. */
  ghost predicate JoinsMade(s: System) {
    forall id | id in s.requests && Joining(s.requests[id]) :: JoinMade in s.shared.calls
  }

  /** Whoever waits for an answer has found the actor trial started and joined. */
  ghost predicate ActsUnderWay(s: System) {
    forall id | id in s.requests && (s.requests[id].ActWaiting? || s.requests[id].ActTesting?) ::
      StartMade in s.shared.calls && JoinMade in s.shared.calls
  }

  lemma NextKeepsCallers(s: System, step: Step)
    requires Inv(s) && HistoryOk(s.shared) && JoinsMade(s) && ActsUnderWay(s) && Enabled(s, step)
    ensures JoinsMade(Next(s, step)) && ActsUnderWay(Next(s, step))
  {
    var n := Next(s, step);
    assert s.shared.calls <= n.shared.calls;
    forall id | id in n.requests
      ensures Joining(n.requests[id]) ==> JoinMade in n.shared.calls
      ensures n.requests[id].ActWaiting? || n.requests[id].ActTesting? ==>
                StartMade in n.shared.calls && JoinMade in n.shared.calls
    {
      if step == RequestAdvances(id) {
        CallerAdvances(s.shared, s.requests[id]);
      }
    }
  }

  lemma CallerAdvances(sh: Shared, r: Request)
    requires HistoryOk(sh) && (Joining(r) ==> JoinMade in sh.calls)
    requires r.ActWaiting? || r.ActTesting? ==> StartMade in sh.calls && JoinMade in sh.calls
    ensures var n := RequestStep(sh, r);
            && sh.calls <= n.0.calls
            && (Joining(n.1) ==> JoinMade in n.0.calls)
            && (n.1.ActWaiting? || n.1.ActTesting? ==> StartMade in n.0.calls && JoinMade in n.0.calls)
  {
  }

  lemma {:induction false} RunKeepsCallers(s: System, steps: seq<Step>)
    requires Inv(s) && HistoryOk(s.shared) && JoinsMade(s) && ActsUnderWay(s)
    ensures Run(s, steps).Some? ==> JoinsMade(Run(s, steps).value) && ActsUnderWay(Run(s, steps).value)
    decreases |steps|
  {
    if steps != [] && Enabled(s, steps[0]) {
      NextKeepsInv(s, steps[0]);
      NextKeepsHistory(s, steps[0]);
      NextKeepsCallers(s, steps[0]);
      RunKeepsCallers(Next(s, steps[0]), steps[1..]);
    }
  }

  lemma CallersOf(s: System)
    requires Reachable(s)
    ensures Inv(s) && HistoryOk(s.shared) && JoinsMade(s) && ActsUnderWay(s)
  {
    ReachableHistory(s);
    var steps: seq<Step> :| StateAfter(steps) == Some(s);
    StateAfterIsRun(steps);
    RunKeepsCallers(StartSystem(), steps);
  }

  /** In every reachable state a request that looks or tests goes where the calls and events so far tell. */
  lemma RequestGoes(s: System, id: nat)
    requires Reachable(s) && Enabled(s, RequestAdvances(id)) && Tests(s.requests[id])
    ensures Next(s, RequestAdvances(id)).requests == s.requests[id := Outcome(s.shared, s.requests[id])]
  {
    CallersOf(s);
    assert RequestOk(s.shared, s.requests[id]);
    RequestGoesTo(s.shared, s.requests[id]);
  }

  /** The calls that reach the actor trial, and the steps that take it out of the list. */
  lemma CallsAreRecorded(s: System, step: Step)
    requires Enabled(s, step)
    ensures var sh, n := s.shared, Next(s, step).shared;
            var first := sh.presence.Absent?;
            match step
            case RequestAdvances(id) =>
              && n.calls == sh.calls + (match s.requests[id]
                                        case JoinCalled => if first then {JoinMade} else {}
                                        case JoinFound => {JoinMade}
                                        case LeaveFound => {LeaveMade}
                                        case _ => {})
              && n.presence == (match s.requests[id]
                                case JoinCalled => if first then Listed else sh.presence
                                case ActClosing(_, _) => Removed
                                case IgnoredRead(_) => Removed
                                case _ => sh.presence)
            case StreamAdvances =>
              && n.calls == sh.calls + (match s.stream
                                        case StartCalled(_) => if first then {StartMade} else {}
                                        case StartFound(_) => {StartMade}
                                        case _ => {})
              && n.presence == (if s.stream.StartCalled? && first then Listed else sh.presence)
            case LeaveAllStep => n.calls == sh.calls + {LeaveMade} && n.presence == sh.presence
            case _ => n == sh
  {
  }

  lemma RequestGoesTo(sh: Shared, r: Request)
    requires HistoryOk(sh) && RequestOk(sh, r) && Tests(r) && !(r.JoinCalled? && sh.presence.Removed?)
    requires Joining(r) ==> JoinMade in sh.calls
    requires r.ActWaiting? || r.ActTesting? ==> StartMade in sh.calls && JoinMade in sh.calls
    ensures RequestStep(sh, r).1 == Outcome(sh, r)
  {
  }

  /** What an actor is answered: the last event received. */
  lemma ReplyIsLastReceived(s: System, id: nat, i: nat)
    requires Reachable(s) && Enabled(s, RequestAdvances(id)) && i < |s.shared.accepted|
    requires !s.shared.accepted[i].Sent? && forall j | i < j < |s.shared.accepted| :: s.shared.accepted[j].Sent?
    ensures var t, reply := Next(s, RequestAdvances(id)), s.shared.accepted[i].event;
            match s.requests[id]
            case ActReading(e, k) => t.requests[id] == ActReturned(e, k, reply)
            case JoinPassed => t.requests[id] == JoinReturned(reply)
            case IgnoredFound => t.requests[id] == IgnoredRead(reply)
            case IgnoredRead(read) => t.requests[id] == IgnoredReturned(read) && t.shared.presence.Removed?
            case _ => true
  {
    ReachableHistory(s);
    LastEvents(s.shared, i);
  }

  /** Where the stream goes: a start waits for the join, a request for the action. */
  lemma StreamGoes(s: System)
    requires Reachable(s) && Enabled(s, StreamAdvances)
    ensures var sh, p := s.shared, Next(s, StreamAdvances).stream;
            match s.stream
            case StartCalled(info) => p == if sh.presence.Absent? then StartWaiting else StartFound(info)
            case StartFound(_) => p == Idle
            case StartWaiting => p == if sh.presence.Listed? then StartTesting else StartWaiting
            case StartTesting => p == if JoinMade !in sh.calls && !HasEnded(sh) && !HasLeft(sh) && StartMade in sh.calls
                                      then StartWaiting else Idle
            case RequestCalled(e) => p == if sh.presence.Listed? then RequestFound(e) else Idle
            case RequestWaiting(e, k) => p == if sh.presence.Listed? then RequestTesting(e, k) else Idle
            case RequestTesting(e, k) =>
              p == if ActorsTurn(sh) then RequestWaiting(e, k)
                   else if HasEnded(sh) || HasLeft(sh) then Idle else RequestPassed(e, k)
            case EndCalled(e) => p == if sh.presence.Listed? then EndFound(e) else Idle
            case _ => true
  {
    ReachableHistory(s);
    assert StreamOk(s.shared, s.stream);
    if s.stream.RequestTesting? {
      assert !s.shared.actor.status.Joined? && !s.shared.actor.status.Started?;
    }
  }

  /** A request that passed its test returns its action. */
  lemma RequestReturns(s: System, e: Event, k: nat)
    requires Reachable(s) && s.stream == RequestPassed(e, k)
    ensures var t := Next(s, StreamAdvances);
            t.stream == Idle && |s.shared.accepted| == k + 2
            && t.answers == s.answers + [Answer(e, k, s.shared.accepted[k + 1].event)]
  {
    ReachableHistory(s);
    assert StreamOk(s.shared, s.stream);
    LastEvents(s.shared, k + 1);
  }

  // ---- A run in which every call succeeds ----

  lemma Then(s: System, step: Step)
    requires Reachable(s) && Enabled(s, step)
    ensures Reachable(Next(s, step))
  {
    var steps: seq<Step> :| StateAfter(steps) == Some(s);
    assert (steps + [step])[..|steps|] == steps;
    assert StateAfter(steps + [step]) == Some(Next(s, step));
  }

  lemma StreamCalls(s: System, p: Stream) returns (t: System)
    requires Reachable(s) && s.stream.Idle? && (p.StartCalled? || p.RequestCalled? || p.EndCalled?)
    ensures Reachable(t) && t == s.(stream := p)
  {
    Then(s, StreamCall(p));
    t := Next(s, StreamCall(p));
  }

  lemma StreamMoves(s: System, sh: Shared, p: Stream) returns (t: System)
    requires Reachable(s) && !s.stream.StartCalled? && StreamStep(s.shared, s.stream) == (sh, p, None)
    ensures Reachable(t) && t == s.(shared := sh, stream := p)
  {
    Then(s, StreamAdvances);
    t := Next(s, StreamAdvances);
    assert s.answers + [] == s.answers;
  }

  lemma RequestCalls(s: System, id: nat, r: Request) returns (t: System)
    requires Reachable(s) && id !in s.requests && (r.ActCalled? || r.JoinCalled? || r.LeaveCalled?)
    ensures Reachable(t) && t == s.(requests := s.requests[id := r])
  {
    Then(s, CallStep(id, r));
    t := Next(s, CallStep(id, r));
  }

  lemma RequestMoves(s: System, id: nat, sh: Shared, r: Request) returns (t: System)
    requires Reachable(s) && id in s.requests && !s.requests[id].JoinCalled?
    requires RequestStep(s.shared, s.requests[id]) == (sh, r)
    ensures Reachable(t) && t == s.(shared := sh, requests := s.requests[id := r])
  {
    Then(s, RequestAdvances(id));
    t := Next(s, RequestAdvances(id));
  }

  /** Steps of a request that leave the actor trial as it is. */
  ghost predicate Walk(sh: Shared, rs: seq<Request>) {
    forall i | 0 <= i < |rs| - 1 :: !rs[i].JoinCalled? && RequestStep(sh, rs[i]) == (sh, rs[i + 1])
  }

  lemma {:induction false} RequestWalks(s: System, id: nat, rs: seq<Request>) returns (t: System)
    requires Reachable(s) && id in s.requests && rs != [] && rs[0] == s.requests[id] && Walk(s.shared, rs)
    ensures Reachable(t) && t == s.(requests := s.requests[id := rs[|rs| - 1]])
    decreases |rs|
  {
    if |rs| == 1 {
      t := s;
      assert s.requests[id := rs[0]] == s.requests;
    } else {
      t := RequestMoves(s, id, s.shared, rs[1]);
      t := RequestWalks(t, id, rs[1..]);
      assert s.requests[id := rs[1]][id := rs[|rs| - 1]] == s.requests[id := rs[|rs| - 1]];
    }
  }

  /** The actor trial when it is under way. */
  function Going(status: Status, info: ActorInfo, recv: Event, sent: Event, h: seq<Accepted>): Shared {
    Shared(ActorState(status, info, recv, sent), Listed, h, {StartMade, JoinMade})
  }

  /** The orchestrator starts the actor trial. */
  lemma Starting(info: ActorInfo) returns (s: System)
    ensures Reachable(s)
    ensures s == System(Shared(NewStarted(info), Listed, [], {StartMade}), map[], StartWaiting, [])
  {
    assert StateAfter([]) == Some(StartSystem());
    s := StreamCalls(StartSystem(), StartCalled(info));
    Then(s, StreamAdvances);
    s := Next(s, StreamAdvances);
    assert {} + {StartMade} == {StartMade};
  }

  /** The actor calls to join it. */
  lemma Calling(info: ActorInfo) returns (s: System)
    ensures Reachable(s)
    ensures s == System(Shared(NewStarted(info), Listed, [], {StartMade}), map[0 := JoinFound], StartWaiting, [])
  {
    s := Starting(info);
    s := RequestCalls(s, 0, JoinCalled);
    Then(s, RequestAdvances(0));
    s := Next(s, RequestAdvances(0));
  }

  /** It joins. */
  lemma Meets(info: ActorInfo) returns (s: System)
    ensures Reachable(s)
    ensures s == System(Going(WaitForRecvEvent, info, NO_EVENT, NO_EVENT, []), map[0 := JoinWaiting], StartWaiting, [])
  {
    s := Calling(info);
    assert {StartMade} + {JoinMade} == {StartMade, JoinMade};
    s := RequestMoves(s, 0, Going(WaitForRecvEvent, info, NO_EVENT, NO_EVENT, []), JoinWaiting);
    assert s.requests == map[0 := JoinWaiting];
  }

  /** The start returns, and the join waits for its first event. */
  lemma Meeting(info: ActorInfo) returns (s: System)
    ensures Reachable(s)
    ensures s == System(Going(WaitForRecvEvent, info, NO_EVENT, NO_EVENT, []), map[0 := JoinWaiting], Idle, [])
  {
    s := Meets(info);
    s := StreamMoves(s, s.shared, StartTesting);
    s := StreamMoves(s, s.shared, Idle);
  }

  /** An event comes. */
  lemma Coming(s: System, info: ActorInfo, recv: Event, sent: Event, h: seq<Accepted>, e: Event) returns (t: System)
    requires Reachable(s) && s.stream.Idle? && s.shared == Going(WaitForRecvEvent, info, recv, sent, h)
    requires recv.tick <= e.tick && sent.tick <= e.tick
    ensures Reachable(t)
    ensures t == s.(shared := Going(WaitForSentEvent, info, e, sent, h + [Received(e)]),
                    stream := RequestWaiting(e, |h|))
  {
    t := StreamCalls(s, RequestCalled(e));
    t := StreamMoves(t, s.shared, RequestFound(e));
    t := StreamMoves(t, Going(WaitForSentEvent, info, e, sent, h + [Received(e)]), RequestWaiting(e, |h|));
  }

  /** A join that waits finds the first event. */
  lemma JoinFinds(s: System, id: nat, info: ActorInfo, e: Event, sent: Event, h: seq<Accepted>) returns (t: System)
    requires Reachable(s) && id in s.requests && s.requests[id].JoinWaiting?
    requires s.shared == Going(WaitForSentEvent, info, e, sent, h)
    ensures Reachable(t) && t == s.(requests := s.requests[id := JoinReturned(e)])
  {
    t := RequestWalks(s, id, [JoinWaiting, JoinTesting, JoinPassed, JoinReturned(e)]);
  }

  /** An actor acts in its turn. */
  lemma ActSends(s: System, id: nat, info: ActorInfo, e: Event, sent: Event, h: seq<Accepted>, a: Event)
    returns (t: System)
    requires Reachable(s) && id !in s.requests && a.tick == e.tick && sent.tick <= e.tick
    requires s.shared == Going(WaitForSentEvent, info, e, sent, h)
    ensures Reachable(t)
    ensures t == s.(shared := Going(WaitForRecvEvent, info, e, a, h + [Sent(a)]),
                    requests := s.requests[id := ActWaiting(a, |h|)])
  {
    t := RequestCalls(s, id, ActCalled(a));
    t := RequestWalks(t, id, [ActCalled(a), ActFound(a), ActSending(a)]);
    t := RequestMoves(t, id, Going(WaitForRecvEvent, info, e, a, h + [Sent(a)]), ActWaiting(a, |h|));
    assert t.requests == s.requests[id := ActWaiting(a, |h|)];
  }

  /** An actor that waits gets the next event. */
  lemma ActReturns(s: System, id: nat, info: ActorInfo, e: Event, sent: Event, h: seq<Accepted>, a: Event, k: nat)
    returns (t: System)
    requires Reachable(s) && id in s.requests && s.requests[id] == ActWaiting(a, k)
    requires s.shared == Going(WaitForSentEvent, info, e, sent, h)
    ensures Reachable(t) && t == s.(requests := s.requests[id := ActReturned(a, k, e)])
  {
    t := RequestWalks(s, id,
        [ActWaiting(a, k), ActTesting(a, k), ActPassed(a, k), ActReading(a, k), ActReturned(a, k, e)]);
  }

  /** The first event comes, and the join returns it. */
  lemma FirstEvent(info: ActorInfo, e: Event) returns (s: System)
    ensures Reachable(s)
    ensures s == System(Going(WaitForSentEvent, info, e, NO_EVENT, [Received(e)]), map[0 := JoinReturned(e)],
                        RequestWaiting(e, 0), [])
  {
    s := Meeting(info);
    s := Coming(s, info, NO_EVENT, NO_EVENT, [], e);
    assert [] + [Received(e)] == [Received(e)];
    s := JoinFinds(s, 0, info, e, NO_EVENT, [Received(e)]);
    assert s.requests == map[0 := JoinReturned(e)];
  }

  /** The actor answers it. */
  lemma Answering(info: ActorInfo, e: Event, a: Event) returns (s: System)
    requires a.tick == e.tick
    ensures Reachable(s)
    ensures s == System(Going(WaitForRecvEvent, info, e, a, [Received(e), Sent(a)]),
                        map[0 := JoinReturned(e), 1 := ActWaiting(a, 1)], RequestWaiting(e, 0), [])
  {
    s := FirstEvent(info, e);
    s := ActSends(s, 1, info, e, NO_EVENT, [Received(e)], a);
    assert [Received(e)] + [Sent(a)] == [Received(e), Sent(a)];
    assert s.requests == map[0 := JoinReturned(e), 1 := ActWaiting(a, 1)];
  }

  /** The request gets the action. */
  lemma FirstAction(info: ActorInfo, e: Event, a: Event) returns (s: System)
    requires a.tick == e.tick
    ensures Reachable(s)
    ensures s == System(Going(WaitForRecvEvent, info, e, a, [Received(e), Sent(a)]),
                        map[0 := JoinReturned(e), 1 := ActWaiting(a, 1)], Idle, [Answer(e, 0, a)])
  {
    s := Answering(info, e, a);
    s := StreamMoves(s, s.shared, RequestTesting(e, 0));
    s := StreamMoves(s, s.shared, RequestPassed(e, 0));
    Then(s, StreamAdvances);
    s := Next(s, StreamAdvances);
    assert [] + [Answer(e, 0, a)] == [Answer(e, 0, a)];
  }

  /**
   * For any event, action of its tick and next event not in the past: a run in which the join returns the event, the
   * request for an action returns the action, and the actor's call returns the next event.
   */
  lemma EveryCallCanSucceed(info: ActorInfo, e: Event, a: Event, next: Event) returns (s: System)
    requires a.tick == e.tick <= next.tick
    ensures Reachable(s) && s.answers == [Answer(e, 0, a)]
    ensures s.requests == map[0 := JoinReturned(e), 1 := ActReturned(a, 1, next)]
  {
    s := FirstAction(info, e, a);
    var h := [Received(e), Sent(a)];
    s := Coming(s, info, e, a, h, next);
    s := ActReturns(s, 1, info, next, a, h + [Received(next)], a, 1);
  }
}
