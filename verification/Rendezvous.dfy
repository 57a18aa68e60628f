/**
 * The rendezvous of the orchestrator's stream with an actor's requests, for one trial and actor name.
 *
 * Every call into the shared actor trial and every look into the manager's list is a step of its own; any number of
 * requests run at the same time.  A waiting request may test the trial again at any moment, and may be cancelled; the
 * tokens that make it do so are the subject of another module.
 *
 * Two things are asked of the callers: one stream makes its calls one after the other, and the
 * trial and actor name are not joined or started again once the actor trial has been removed.
 */
module Rendezvous {
  import opened Common
  import opened ActorStates

  /** Is the actor trial in the manager's list? */
  datatype Presence = Absent | Listed | Removed

  datatype Accepted = Received(event: Event) | Sent(event: Event) | Ending(event: Event)

  /** A call that has reached the actor trial. */
  datatype Call = StartMade | JoinMade | LeaveMade

  /** `accepted` records every event accepted, in order, and `calls` the calls made; no step reads them. */
  datatype Shared = Shared(actor: ActorState, presence: Presence, accepted: seq<Accepted>, calls: set<Call>)

  /** Where a request is.  `k` is the position of its own accepted event; `Over` is the end without an event. */
  datatype Request =
    | ActCalled(sent: Event)
    | ActFound(sent: Event)
    | ActSending(sent: Event)
    | ActWaiting(sent: Event, k: nat)
    | ActTesting(sent: Event, k: nat)
    | ActPassed(sent: Event, k: nat)
    | ActClosing(sent: Event, k: nat)
    | ActReading(sent: Event, k: nat)
    | ActReturned(sent: Event, k: nat, reply: Event)
    | IgnoredFound
    | IgnoredRead(reply: Event)
    | IgnoredReturned(reply: Event)
    | JoinCalled
    | JoinFound
    | JoinWaiting
    | JoinTesting
    | JoinPassed
    | JoinReturned(reply: Event)
    | LeaveCalled
    | LeaveFound
    | Over

  datatype Stream =
    | Idle
    | StartCalled(info: ActorInfo)
    | StartFound(info: ActorInfo)
    | StartWaiting
    | StartTesting
    | RequestCalled(received: Event)
    | RequestFound(received: Event)
    | RequestWaiting(received: Event, k: nat)
    | RequestTesting(received: Event, k: nat)
    | RequestPassed(received: Event, k: nat)
    | EndCalled(received: Event)
    | EndFound(received: Event)

  /** A successful `RequestAct`. */
  datatype Answer = Answer(received: Event, k: nat, sent: Event)

  datatype System = System(shared: Shared, requests: map<nat, Request>, stream: Stream, answers: seq<Answer>)

  function NewShared(): Shared {
    Shared(NewJoined(), Absent, [], {})
  }

  function Noting(sh: Shared, t: Transition, event: Accepted): Shared {
    if t.Done? then sh.(actor := t.state, accepted := sh.accepted + [event]) else sh
  }

  /** The test of `JoinTrial` that tells a harmless second join from a mistake. */
  predicate MayJoinAgain(status: Status) {
    status.Joined? || status.WaitForRecvEvent? || status.WaitForSentEvent?
  }

  /** One step of a request. */
  function RequestStep(sh: Shared, r: Request): (Shared, Request) {
    var a := sh.actor;
    match r
    case ActCalled(s) => (sh, if sh.presence.Listed? then ActFound(s) else Over)
    case ActFound(s) => (sh, if a.status.Ended? then IgnoredFound else if a.status.Left? then Over else ActSending(s))
    case ActSending(s) =>
      var t := SendEvent(a, s);
      (Noting(sh, t, Sent(s)), if t.Done? then ActWaiting(s, |sh.accepted|) else Over)
    case ActWaiting(s, k) => (sh, if sh.presence.Listed? then ActTesting(s, k) else Over)
    case ActTesting(s, k) =>
      (sh, match a.status
           case Ended => ActPassed(s, k)
           case WaitForSentEvent => ActPassed(s, k)
           case WaitForRecvEvent => ActWaiting(s, k)
           case _ => Over)
    case ActPassed(s, k) => (sh, if a.status.Ended? then ActClosing(s, k) else ActReading(s, k))
    case ActClosing(s, k) => (sh.(presence := Removed), ActReading(s, k))
    case ActReading(s, k) => (sh, ActReturned(s, k, a.lastRecv))
    case IgnoredFound => (sh, IgnoredRead(a.lastRecv))
    case IgnoredRead(reply) => (sh.(presence := Removed), IgnoredReturned(reply))
    case JoinCalled =>
      if sh.presence.Absent? then
        (sh.(actor := NewJoined(), presence := Listed, calls := sh.calls + {JoinMade}), JoinWaiting)
      else (sh, JoinFound)
    case JoinFound =>
      var t := Join(a);
      (sh.(actor := After(a, t), calls := sh.calls + {JoinMade}),
       if t.Done? || MayJoinAgain(t.status) then JoinWaiting else Over)
    case JoinWaiting => (sh, if sh.presence.Listed? then JoinTesting else JoinWaiting)
    case JoinTesting =>
      (sh, match a.status
           case WaitForSentEvent => JoinPassed
           case WaitForRecvEvent => JoinWaiting
           case Joined => JoinWaiting
           case _ => Over)
    case JoinPassed => (sh, JoinReturned(a.lastRecv))
    case LeaveCalled => (sh, if sh.presence.Listed? then LeaveFound else Over)
    case LeaveFound => (sh.(actor := After(a, Leave(a)), calls := sh.calls + {LeaveMade}), Over)
    case _ => (sh, r)
  }

  /** One step of the stream, and the answer it returned, if that is what it did. */
  function StreamStep(sh: Shared, p: Stream): (Shared, Stream, Option<Answer>) {
    var a := sh.actor;
    match p
    case Idle => (sh, Idle, None)
    case StartCalled(info) =>
      if sh.presence.Absent? then
        (sh.(actor := NewStarted(info), presence := Listed, calls := sh.calls + {StartMade}), StartWaiting, None)
      else (sh, StartFound(info), None)
    case StartFound(info) => (sh.(actor := After(a, Start(a, info)), calls := sh.calls + {StartMade}), Idle, None)
    case StartWaiting => (sh, if sh.presence.Listed? then StartTesting else StartWaiting, None)
    case StartTesting => (sh, if a.status.Started? then StartWaiting else Idle, None)
    case RequestCalled(e) => (sh, if sh.presence.Listed? then RequestFound(e) else Idle, None)
    case RequestFound(e) =>
      var t := ReceiveEvent(a, e);
      (Noting(sh, t, Received(e)), if t.Done? then RequestWaiting(e, |sh.accepted|) else Idle, None)
    case RequestWaiting(e, k) => (sh, if sh.presence.Listed? then RequestTesting(e, k) else Idle, None)
    case RequestTesting(e, k) =>
      (sh, match a.status
           case WaitForSentEvent => RequestWaiting(e, k)
           case WaitForRecvEvent => RequestPassed(e, k)
           case _ => Idle,
       None)
    case RequestPassed(e, k) => (sh, Idle, Some(Answer(e, k, a.lastSent)))
    case EndCalled(e) => (sh, if sh.presence.Listed? then EndFound(e) else Idle, None)
    case EndFound(e) => (Noting(sh, End(a, e), Ending(e)), Idle, None)
  }

  datatype Step =
    | CallStep(id: nat, request: Request)
    | RequestAdvances(id: nat)
    | RequestCancelled(id: nat)
    | StreamCall(call: Stream)
    | StreamAdvances
    | StreamCancelled
    | LeaveAllStep

  ghost predicate Enabled(s: System, step: Step) {
    match step
    case CallStep(id, r) => id !in s.requests && (r.ActCalled? || r.JoinCalled? || r.LeaveCalled?)
    case RequestAdvances(id) => id in s.requests && !(s.requests[id].JoinCalled? && s.shared.presence.Removed?)
    case RequestCancelled(id) => id in s.requests && (s.requests[id].ActWaiting? || s.requests[id].JoinWaiting?)
    case StreamCall(p) => s.stream.Idle? && (p.StartCalled? || p.RequestCalled? || p.EndCalled?)
    case StreamAdvances => !(s.stream.StartCalled? && s.shared.presence.Removed?)
    case StreamCancelled => s.stream.RequestWaiting? || s.stream.StartWaiting?
    case LeaveAllStep => s.shared.presence.Listed?
  }

  ghost function Next(s: System, step: Step): System
    requires Enabled(s, step)
  {
    match step
    case CallStep(id, r) => s.(requests := s.requests[id := r])
    case RequestAdvances(id) =>
      var (sh, r) := RequestStep(s.shared, s.requests[id]);
      s.(shared := sh, requests := s.requests[id := r])
    case RequestCancelled(id) => s.(requests := s.requests[id := Over])
    case StreamCall(p) => s.(stream := p)
    case StreamAdvances =>
      var (sh, p, answer) := StreamStep(s.shared, s.stream);
      s.(shared := sh, stream := p, answers := s.answers + if answer.Some? then [answer.value] else [])
    case StreamCancelled => s.(stream := Idle)
    case LeaveAllStep =>
      var sh := s.shared;
      s.(shared := sh.(actor := After(sh.actor, Leave(sh.actor)), calls := sh.calls + {LeaveMade}))
  }

  // ---- The shared actor trial ----

  /** The position of the last received event among the first `n`; the end of the trial is received too. */
  ghost function LastReceived(h: seq<Accepted>, n: nat): (i: Option<nat>)
    requires n <= |h|
    ensures i.Some? ==> i.value < n && !h[i.value].Sent? && forall j | i.value < j < n :: h[j].Sent?
    ensures i.None? ==> forall j | 0 <= j < n :: h[j].Sent?
  {
    if n == 0 then None else if !h[n - 1].Sent? then Some(n - 1) else LastReceived(h, n - 1)
  }

  ghost function LastSent(h: seq<Accepted>, n: nat): (i: Option<nat>)
    requires n <= |h|
    ensures i.Some? ==> i.value < n && h[i.value].Sent? && forall j | i.value < j < n :: !h[j].Sent?
    ensures i.None? ==> forall j | 0 <= j < n :: !h[j].Sent?
  {
    if n == 0 then None else if h[n - 1].Sent? then Some(n - 1) else LastSent(h, n - 1)
  }

  ghost function EventAt(h: seq<Accepted>, i: Option<nat>): Event
    requires i.Some? ==> i.value < |h|
  {
    if i.None? then NO_EVENT else h[i.value].event
  }

  /**
   * Receive and send strictly alternate, the end comes last, an action has
   * the tick of its observation, ticks never go back.
   */
  ghost predicate Orderly(h: seq<Accepted>) {
    && (forall i | 0 <= i < |h| :: (h[i].Received? ==> i % 2 == 0) && (h[i].Sent? ==> i % 2 == 1))
    && (forall i | 0 <= i < |h| && h[i].Ending? :: i == |h| - 1)
    && (forall i | 0 < i < |h| && h[i].Sent? :: h[i].event.tick == h[i - 1].event.tick)
    && (forall i, j | 0 <= i < j < |h| :: h[i].event.tick <= h[j].event.tick)
  }

  ghost predicate StatusFits(status: Status, h: seq<Accepted>) {
    match status
    case Joined => h == []
    case Started => h == []
    case WaitForRecvEvent => |h| % 2 == 0 && forall i | 0 <= i < |h| :: !h[i].Ending?
    case WaitForSentEvent => |h| % 2 == 1 && forall i | 0 <= i < |h| :: !h[i].Ending?
    case Left => forall i | 0 <= i < |h| :: !h[i].Ending?
    case Ended => h != [] && h[|h| - 1].Ending?
  }

  ghost predicate SharedOk(sh: Shared) {
    && Orderly(sh.accepted)
    && StatusFits(sh.actor.status, sh.accepted)
    && sh.actor.lastRecv == EventAt(sh.accepted, LastReceived(sh.accepted, |sh.accepted|))
    && sh.actor.lastSent == EventAt(sh.accepted, LastSent(sh.accepted, |sh.accepted|))
    && (sh.presence.Absent? ==> sh.actor == NewJoined() && sh.accepted == [])
  }

  lemma {:induction false} LastOfPrefix(h: seq<Accepted>, x: Accepted, n: nat)
    requires n <= |h|
    ensures LastReceived(h + [x], n) == LastReceived(h, n) && LastSent(h + [x], n) == LastSent(h, n)
  {
    if n > 0 {
      LastOfPrefix(h, x, n - 1);
    }
  }

  /** The last sent tick is never beyond the last received one, and the current tick is the latest accepted. */
  lemma TicksOfActor(sh: Shared)
    requires SharedOk(sh)
    ensures sh.actor.lastSent.tick <= sh.actor.lastRecv.tick == TickOf(sh.actor)
    ensures forall i | 0 <= i < |sh.accepted| :: sh.accepted[i].event.tick <= TickOf(sh.actor)
  {
    var h, n := sh.accepted, |sh.accepted|;
    var r, s := LastReceived(h, n), LastSent(h, n);
    if s.Some? {
      assert s.value % 2 == 1;
      assert !h[s.value - 1].Sent?;
      assert r.Some? && r.value >= s.value - 1;
      assert h[s.value].event.tick == h[s.value - 1].event.tick <= h[r.value].event.tick;
    }
    if n > 0 {
      assert !h[0].Sent?;
    }
    forall i | 0 <= i < n ensures h[i].event.tick <= TickOf(sh.actor) {
      if i > r.value {
        assert s.Some? && i <= s.value;
      }
    }
  }

  lemma OrderlyMore(h: seq<Accepted>, x: Accepted)
    requires Orderly(h) && forall i | 0 <= i < |h| :: !h[i].Ending? && h[i].event.tick <= x.event.tick
    requires x.Received? ==> |h| % 2 == 0
    requires x.Sent? ==> |h| % 2 == 1 && h[|h| - 1].event.tick == x.event.tick
    ensures Orderly(h + [x])
  {
    forall i, j | 0 <= i < j < |h + [x]| ensures (h + [x])[i].event.tick <= (h + [x])[j].event.tick {
    }
  }

  lemma ReceiveKeepsShared(sh: Shared, e: Event)
    requires SharedOk(sh) && !sh.presence.Absent?
    ensures SharedOk(Noting(sh, ReceiveEvent(sh.actor, e), Received(e)))
  {
    if ReceiveEvent(sh.actor, e).Done? {
      var h := sh.accepted;
      TicksOfActor(sh);
      OrderlyMore(h, Received(e));
      LastOfPrefix(h, Received(e), |h|);
    }
  }

  lemma SendKeepsShared(sh: Shared, e: Event)
    requires SharedOk(sh) && !sh.presence.Absent?
    ensures SharedOk(Noting(sh, SendEvent(sh.actor, e), Sent(e)))
  {
    if SendEvent(sh.actor, e).Done? {
      var h := sh.accepted;
      TicksOfActor(sh);
      assert !h[|h| - 1].Sent? && LastReceived(h, |h|) == Some(|h| - 1);
      OrderlyMore(h, Sent(e));
      LastOfPrefix(h, Sent(e), |h|);
    }
  }

  lemma EndKeepsShared(sh: Shared, e: Event)
    requires SharedOk(sh) && !sh.presence.Absent?
    ensures SharedOk(Noting(sh, End(sh.actor, e), Ending(e)))
  {
    if End(sh.actor, e).Done? {
      var h := sh.accepted;
      TicksOfActor(sh);
      OrderlyMore(h, Ending(e));
      LastOfPrefix(h, Ending(e), |h|);
    }
  }

  /** Accepted events stay, and none is accepted after the end; a final status stays. */
  ghost predicate Grows(before: Shared, after: Shared) {
    && before.accepted <= after.accepted
    && (before.actor.status.Final() ==> after.accepted == before.accepted && after.actor == before.actor)
  }

  lemma RequestKeepsShared(sh: Shared, r: Request)
    requires SharedOk(sh) && (sh.presence.Absent? ==> AnywhereButFound(r)) && !(r.JoinCalled? && sh.presence.Removed?)
    ensures SharedOk(RequestStep(sh, r).0) && Grows(sh, RequestStep(sh, r).0)
  {
    RequestGrows(sh, r);
    if r.ActSending? {
      SendKeepsShared(sh, r.sent);
    } else {
      RequestTouches(sh, r);
    }
  }

  lemma RequestGrows(sh: Shared, r: Request)
    requires sh.presence.Absent? ==> sh.actor == NewJoined() && sh.accepted == [] && AnywhereButFound(r)
    requires !(r.JoinCalled? && sh.presence.Removed?)
    ensures Grows(sh, RequestStep(sh, r).0)
  {
  }

  /** All but the sending of an action accept no event. */
  lemma RequestTouches(sh: Shared, r: Request)
    requires !r.ActSending? && (sh.presence.Absent? ==> AnywhereButFound(r))
    ensures var n := RequestStep(sh, r).0;
            && n.accepted == sh.accepted && (n.presence.Absent? ==> n == sh)
            && (n.actor == sh.actor || (r.JoinCalled? && n.actor == NewJoined())
                || n.actor == After(sh.actor, Join(sh.actor)) || n.actor == After(sh.actor, Leave(sh.actor)))
  {
  }

  lemma StreamKeepsShared(sh: Shared, p: Stream)
    requires SharedOk(sh) && (sh.presence.Absent? ==> StreamAnywhereButFound(p))
             && !(p.StartCalled? && sh.presence.Removed?)
    ensures SharedOk(StreamStep(sh, p).0) && Grows(sh, StreamStep(sh, p).0)
  {
    StreamGrows(sh, p);
    if p.RequestFound? {
      ReceiveKeepsShared(sh, p.received);
    } else if p.EndFound? {
      EndKeepsShared(sh, p.received);
    } else {
      StreamKeepsAccepted(sh, p);
    }
  }

  lemma StreamGrows(sh: Shared, p: Stream)
    requires sh.presence.Absent? ==> sh.actor == NewJoined() && sh.accepted == [] && StreamAnywhereButFound(p)
    requires !(p.StartCalled? && sh.presence.Removed?)
    ensures Grows(sh, StreamStep(sh, p).0)
  {
  }

  lemma StreamKeepsAccepted(sh: Shared, p: Stream)
    requires !p.RequestFound? && !p.EndFound? && SharedOk(sh)
    requires (sh.presence.Absent? ==> StreamAnywhereButFound(p)) && !(p.StartCalled? && sh.presence.Removed?)
    ensures SharedOk(StreamStep(sh, p).0)
  {
  }

  // ---- Requests ----

  /** Only one of the first step, or one over, before the actor trial exists. */
  ghost predicate AnywhereButFound(r: Request) {
    r.ActCalled? || r.JoinCalled? || r.LeaveCalled? || r.Over?
  }

  ghost predicate StreamAnywhereButFound(p: Stream) {
    p.Idle? || p.StartCalled? || p.RequestCalled? || p.EndCalled?
  }

  /** An event received after position `k` that is `reply`. */
  ghost predicate ReceivedAfter(h: seq<Accepted>, k: nat, reply: Event) {
    exists j :: k < j < |h| && !h[j].Sent? && h[j].event == reply
  }

  ghost predicate IsSent(h: seq<Accepted>, k: nat, sent: Event) {
    k < |h| && h[k] == Sent(sent)
  }

  ghost predicate EndedWith(sh: Shared, reply: Event) {
    sh.actor.status.Ended? && sh.accepted != [] && sh.accepted[|sh.accepted| - 1] == Ending(reply)
  }

  ghost predicate RequestOk(sh: Shared, r: Request) {
    && (sh.presence.Absent? ==> AnywhereButFound(r))
    && match r
       case ActWaiting(s, k) => IsSent(sh.accepted, k, s)
       case ActTesting(s, k) => IsSent(sh.accepted, k, s)
       case ActPassed(s, k) => IsSent(sh.accepted, k, s) && k + 1 < |sh.accepted|
       case ActClosing(s, k) => IsSent(sh.accepted, k, s) && k + 1 < |sh.accepted|
       case ActReading(s, k) => IsSent(sh.accepted, k, s) && k + 1 < |sh.accepted|
       case ActReturned(s, k, reply) =>
         IsSent(sh.accepted, k, s) && ReceivedAfter(sh.accepted, k, reply) && s.tick <= reply.tick
       case IgnoredFound => sh.actor.status.Ended?
       case IgnoredRead(reply) => EndedWith(sh, reply)
       case IgnoredReturned(reply) => EndedWith(sh, reply)
       case JoinPassed => sh.accepted != []
       case JoinReturned(reply) =>
         exists j :: 0 <= j < |sh.accepted| && !sh.accepted[j].Sent? && sh.accepted[j].event == reply
       case _ => true
  }

  lemma RequestStaysOk(before: Shared, after: Shared, r: Request)
    requires RequestOk(before, r) && Grows(before, after) && (before.presence.Absent? || !after.presence.Absent?)
    ensures RequestOk(after, r)
  {
  }

  lemma NextAfterSent(h: seq<Accepted>, k: nat)
    requires Orderly(h) && k + 1 < |h| && h[k].Sent?
    ensures var i := LastReceived(h, |h|); i.Some? && i.value > k && h[k].event.tick <= h[i.value].event.tick
  {
    assert (k + 1) % 2 == 0;
    assert !h[k + 1].Sent?;
  }

  /** Something has been received since an action, once its test passes. */
  lemma PassedTest(sh: Shared, s: Event, k: nat)
    requires SharedOk(sh) && IsSent(sh.accepted, k, s)
    requires sh.actor.status.Ended? || sh.actor.status.WaitForSentEvent?
    ensures k + 1 < |sh.accepted|
  {
    var h := sh.accepted;
    assert !h[|h| - 1].Sent?;
  }

  lemma ReadAfter(sh: Shared, s: Event, k: nat)
    requires SharedOk(sh) && IsSent(sh.accepted, k, s) && k + 1 < |sh.accepted|
    ensures ReceivedAfter(sh.accepted, k, sh.actor.lastRecv) && s.tick <= sh.actor.lastRecv.tick
  {
    var h := sh.accepted;
    NextAfterSent(h, k);
    var i := LastReceived(h, |h|).value;
    assert h[i].event == sh.actor.lastRecv;
  }

  lemma ReadAny(sh: Shared)
    requires SharedOk(sh) && sh.accepted != []
    ensures exists j :: 0 <= j < |sh.accepted| && !sh.accepted[j].Sent? && sh.accepted[j].event == sh.actor.lastRecv
  {
    var h := sh.accepted;
    assert !h[0].Sent?;
    var i := LastReceived(h, |h|).value;
    assert h[i].event == sh.actor.lastRecv;
  }

  lemma RequestStepOk(sh: Shared, r: Request)
    requires SharedOk(sh) && RequestOk(sh, r) && !(r.JoinCalled? && sh.presence.Removed?)
    ensures RequestOk(RequestStep(sh, r).0, RequestStep(sh, r).1)
  {
    match r {
      case ActSending(s) => ActSendingOk(sh, s);
      case ActTesting(s, k) => ActTestingOk(sh, s, k);
      case ActReading(s, k) => ReadAfter(sh, s, k);
      case IgnoredFound => assert LastReceived(sh.accepted, |sh.accepted|) == Some(|sh.accepted| - 1);
      case JoinTesting => JoinTestingOk(sh);
      case JoinPassed => ReadAny(sh);
      case _ => AnyRequestOk(sh, r);
    }
  }

  lemma ActSendingOk(sh: Shared, s: Event)
    requires RequestOk(sh, ActSending(s))
    ensures RequestOk(RequestStep(sh, ActSending(s)).0, RequestStep(sh, ActSending(s)).1)
  {
  }

  lemma ActTestingOk(sh: Shared, s: Event, k: nat)
    requires SharedOk(sh) && RequestOk(sh, ActTesting(s, k))
    ensures RequestOk(RequestStep(sh, ActTesting(s, k)).0, RequestStep(sh, ActTesting(s, k)).1)
  {
    if sh.actor.status.Ended? || sh.actor.status.WaitForSentEvent? {
      PassedTest(sh, s, k);
    }
  }

  lemma JoinTestingOk(sh: Shared)
    requires StatusFits(sh.actor.status, sh.accepted) && RequestOk(sh, JoinTesting)
    ensures RequestOk(RequestStep(sh, JoinTesting).0, RequestStep(sh, JoinTesting).1)
  {
  }

  /** The steps that only test where the actor trial is, or what is known already. */
  lemma AnyRequestOk(sh: Shared, r: Request)
    requires RequestOk(sh, r) && !(r.JoinCalled? && sh.presence.Removed?)
    requires !r.ActSending? && !r.ActTesting? && !r.ActReading? && !r.IgnoredFound? && !r.JoinTesting? && !r.JoinPassed?
    ensures RequestOk(RequestStep(sh, r).0, RequestStep(sh, r).1)
  {
  }

  // ---- The stream ----

  /** While the stream waits for the action of its event, nothing but that action can be accepted. */
  ghost predicate Awaits(h: seq<Accepted>, k: nat, received: Event) {
    k < |h| && h[k] == Received(received) && |h| <= k + 2 && (|h| == k + 2 ==> h[k + 1].Sent?)
  }

  ghost predicate StreamOk(sh: Shared, p: Stream) {
    && (sh.presence.Absent? ==> StreamAnywhereButFound(p))
    && match p
       case RequestWaiting(e, k) => Awaits(sh.accepted, k, e)
       case RequestTesting(e, k) => Awaits(sh.accepted, k, e)
       case RequestPassed(e, k) => Awaits(sh.accepted, k, e) && |sh.accepted| == k + 2
       case _ => true
  }

  /** The action that follows the event at once, for the same tick. */
  ghost predicate AnswerOk(h: seq<Accepted>, a: Answer) {
    && a.k + 1 < |h| && h[a.k] == Received(a.received) && h[a.k + 1] == Sent(a.sent)
    && a.sent.tick == a.received.tick
  }

  /** Only an action may be added by a request. */
  lemma RequestKeepsStream(sh: Shared, r: Request, p: Stream)
    requires SharedOk(sh) && RequestOk(sh, r) && StreamOk(sh, p)
    ensures StreamOk(RequestStep(sh, r).0, p)
  {
  }

  lemma StreamStepOk(sh: Shared, p: Stream)
    requires SharedOk(sh) && StreamOk(sh, p) && !(p.StartCalled? && sh.presence.Removed?)
    ensures var (sh', p', answer) := StreamStep(sh, p);
            StreamOk(sh', p') && (answer.Some? ==> AnswerOk(sh'.accepted, answer.value))
  {
    var h := sh.accepted;
    if p.RequestPassed? {
      assert LastSent(h, |h|) == Some(p.k + 1);
    }
  }

  // ---- The whole system ----

  ghost predicate Inv(s: System) {
    && SharedOk(s.shared)
    && (forall id | id in s.requests :: RequestOk(s.shared, s.requests[id]))
    && StreamOk(s.shared, s.stream)
    && (forall a | a in s.answers :: AnswerOk(s.shared.accepted, a))
  }

  lemma RequestAdvanceKeepsInv(s: System, id: nat)
    requires Inv(s) && Enabled(s, RequestAdvances(id))
    ensures Inv(Next(s, RequestAdvances(id)))
  {
    var n, r := Next(s, RequestAdvances(id)), s.requests[id];
    RequestKeepsShared(s.shared, r);
    RequestStepOk(s.shared, r);
    RequestKeepsStream(s.shared, r, s.stream);
    forall other | other in s.requests ensures RequestOk(n.shared, s.requests[other]) {
      RequestStaysOk(s.shared, n.shared, s.requests[other]);
    }
  }

  lemma StreamAdvanceKeepsInv(s: System)
    requires Inv(s) && Enabled(s, StreamAdvances)
    ensures Inv(Next(s, StreamAdvances))
  {
    var n := Next(s, StreamAdvances);
    StreamKeepsShared(s.shared, s.stream);
    StreamStepOk(s.shared, s.stream);
    forall id | id in s.requests ensures RequestOk(n.shared, s.requests[id]) {
      RequestStaysOk(s.shared, n.shared, s.requests[id]);
    }
  }

  lemma NextKeepsInv(s: System, step: Step)
    requires Inv(s) && Enabled(s, step)
    ensures Inv(Next(s, step)) && Grows(s.shared, Next(s, step).shared)
  {
    match step {
      case RequestAdvances(id) =>
        RequestKeepsShared(s.shared, s.requests[id]);
        RequestAdvanceKeepsInv(s, id);
      case StreamAdvances =>
        StreamKeepsShared(s.shared, s.stream);
        StreamAdvanceKeepsInv(s);
      case LeaveAllStep =>
        var n := Next(s, step);
        forall id | id in s.requests ensures RequestOk(n.shared, s.requests[id]) {
          RequestStaysOk(s.shared, n.shared, s.requests[id]);
        }
      case _ =>
    }
  }

  function StartSystem(): System {
    System(NewShared(), map[], Idle, [])
  }

  ghost function Run(s: System, steps: seq<Step>): (end: Option<System>)
    requires Inv(s)
    ensures end.Some? ==> Inv(end.value) && Grows(s.shared, end.value.shared)
    decreases |steps|
  {
    if steps == [] then Some(s)
    else if !Enabled(s, steps[0]) then None
    else
      NextKeepsInv(s, steps[0]);
      Run(Next(s, steps[0]), steps[1..])
  }

  // ---- The theorems, over every interleaving ----

  /** A successful `RequestAct` returns the action accepted right after its event, for exactly its tick. */
  lemma RequestActIsAnswered(steps: seq<Step>, a: Answer)
    requires Run(StartSystem(), steps).Some? && a in Run(StartSystem(), steps).value.answers
    ensures var h := Run(StartSystem(), steps).value.shared.accepted;
            && a.k + 1 < |h| && h[a.k] == Received(a.received) && h[a.k + 1] == Sent(a.sent)
            && a.sent.tick == a.received.tick
  {
  }

  /** An `Act` whose event was accepted returns an event received after it, for its tick or a later one. */
  lemma ActIsAnswered(steps: seq<Step>, id: nat)
    requires Run(StartSystem(), steps).Some?
    requires var s := Run(StartSystem(), steps).value; id in s.requests && s.requests[id].ActReturned?
    ensures var s := Run(StartSystem(), steps).value;
            var r := s.requests[id];
            && IsSent(s.shared.accepted, r.k, r.sent)
            && ReceivedAfter(s.shared.accepted, r.k, r.reply)
            && r.sent.tick <= r.reply.tick
  {
    assert RequestOk(Run(StartSystem(), steps).value.shared, Run(StartSystem(), steps).value.requests[id]);
  }

  /** An `Act` that finds the trial ended is not accepted, and returns the event that ended it. */
  lemma LateActGetsTheEnd(steps: seq<Step>, id: nat)
    requires Run(StartSystem(), steps).Some?
    requires var s := Run(StartSystem(), steps).value; id in s.requests && s.requests[id].IgnoredReturned?
    ensures var s := Run(StartSystem(), steps).value; EndedWith(s.shared, s.requests[id].reply)
  {
    assert RequestOk(Run(StartSystem(), steps).value.shared, Run(StartSystem(), steps).value.requests[id]);
  }

  /** A successful join returns an event that was received. */
  lemma JoinGetsAnObservation(steps: seq<Step>, id: nat)
    requires Run(StartSystem(), steps).Some?
    requires var s := Run(StartSystem(), steps).value; id in s.requests && s.requests[id].JoinReturned?
    ensures var s := Run(StartSystem(), steps).value;
            exists j :: 0 <= j < |s.shared.accepted| && !s.shared.accepted[j].Sent?
                        && s.shared.accepted[j].event == s.requests[id].reply
  {
    assert RequestOk(Run(StartSystem(), steps).value.shared, Run(StartSystem(), steps).value.requests[id]);
  }

  /**
   * Accepted events strictly alternate, their ticks never go back, and the
   * last action never outruns the last observation.
   */
  lemma EventsAlternate(steps: seq<Step>)
    requires Run(StartSystem(), steps).Some?
    ensures var sh := Run(StartSystem(), steps).value.shared;
            && Orderly(sh.accepted)
            && sh.actor.lastSent.tick <= sh.actor.lastRecv.tick
  {
    TicksOfActor(Run(StartSystem(), steps).value.shared);
  }

  /** Once left or ended, the actor trial never changes again. */
  lemma FinalIsAbsorbing(steps: seq<Step>, more: seq<Step>)
    requires Run(StartSystem(), steps).Some?
    requires Run(StartSystem(), steps).value.shared.actor.status.Final()
    requires Run(Run(StartSystem(), steps).value, more).Some?
    ensures var before, after := Run(StartSystem(), steps).value.shared,
                                 Run(Run(StartSystem(), steps).value, more).value.shared;
            after.actor == before.actor && after.accepted == before.accepted
  {
  }
}
