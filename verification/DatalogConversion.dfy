/**
 * From the orchestrator's log to stored samples.
 *
 * The exchanges of a sample are first listed in the order in which the conversion handles them; each is then given to
 * its receiver and to its sender.  Values and confidences are real numbers.
 */
module DatalogConversion {
  import opened Common
  import opened StoredSamples

  datatype Actor = Actor(name: string, class_: string)

  /** `userData` is empty when there is none. */
  datatype Source = Source(sender: string, value: real, confidence: real, userData: bytes)

  datatype Reward = Reward(receiver: string, sources: seq<Source>)

  datatype Message = Message(sender: string, receiver: string, payload: bytes)

  /** `actorsMap` gives the position of each actor's observation. */
  datatype Observations = Observations(data: seq<bytes>, actorsMap: seq<nat>)

  datatype LogSample = LogSample(
    info: Info, observations: Option<Observations>, actions: seq<bytes>, rewards: seq<Reward>, messages: seq<Message>)

  const ENVIRONMENT: int := -1

  // ---- Names ----

  predicate DistinctNames(actors: seq<Actor>) {
    forall i, j | 0 <= i < j < |actors| :: actors[i].name != actors[j].name
  }

  /** The index of the actor, by a table in which a later actor of the same name wins. */
  function FindActor(actors: seq<Actor>, name: string): (i: Option<nat>)
    ensures i.Some? ==> i.value < |actors| && actors[i.value].name == name
    ensures i.None? ==> forall k | 0 <= k < |actors| :: actors[k].name != name
  {
    if actors == [] then None
    else if actors[|actors| - 1].name == name then Some(|actors| - 1)
    else FindActor(actors[..|actors| - 1], name)
  }

  /** Whoever is not an actor is the environment. */
  function IndexOf(actors: seq<Actor>, name: string): (i: int)
    ensures i == ENVIRONMENT || (0 <= i < |actors| && actors[i].name == name)
    ensures i == ENVIRONMENT ==> forall k | 0 <= k < |actors| :: actors[k].name != name
  {
    var found := FindActor(actors, name);
    if found.None? then ENVIRONMENT else found.value
  }

  /** The part before the first dot, and what follows up to the second one; None without a dot. */
  function Split(name: string): Option<(string, string)> {
    var dot := DotFrom(name, 0);
    if dot == |name| then None else Some((name[..dot], name[dot + 1..DotFrom(name, dot + 1)]))
  }

  function DotFrom(name: string, i: nat): (k: nat)
    requires i <= |name|
    ensures i <= k <= |name| && (k < |name| ==> name[k] == '.') && forall j | i <= j < k :: name[j] != '.'
    decreases |name| - i
  {
    if i == |name| || name[i] == '.' then i else DotFrom(name, i + 1)
  }

  predicate IsEveryone(name: string) {
    name == "*" || name == "*.*"
  }

  /** The first `n` actors of the class, or the one of that name in the class. */
  function OfClass(actors: seq<Actor>, class_: string, name: string, n: nat): (indices: seq<nat>)
    requires n <= |actors|
    ensures forall i | i in indices :: i < n
  {
    if n == 0 then []
    else if actors[n - 1].class_ == class_ && (name == "*" || name == actors[n - 1].name) then
      OfClass(actors, class_, name, n - 1) + [n - 1]
    else OfClass(actors, class_, name, n - 1)
  }

  /** `everyone` lists all actors in the order in which a table is iterated: any order. */
  function Receivers(actors: seq<Actor>, name: string, everyone: seq<nat>): seq<nat> {
    if IsEveryone(name) then everyone
    else if Split(name).Some? then OfClass(actors, Split(name).value.0, Split(name).value.1, |actors|)
    else if FindActor(actors, name).Some? then [FindActor(actors, name).value]
    else []
  }

  /** An order of all `n` actors. */
  ghost predicate IsOrder(order: seq<nat>, n: nat) {
    NoDup(order) && AllBelow(order, n) && forall i: nat | i < n :: i in order
  }

  predicate AllBelow(order: seq<nat>, n: nat) {
    forall i | 0 <= i < |order| :: order[i] < n
  }

  // ---- The exchanges, in order ----

  /** From one sender to one receiver; -1 stands for the environment. */
  datatype Gift = Gift(sender: int, receiver: nat, source: Source)

  function GiftOf(actors: seq<Actor>, source: Source, receiver: nat): Gift {
    Gift(IndexOf(actors, source.sender), receiver, source)
  }

  /** The first `n` sources, for one receiver. */
  function GiftsOfSources(actors: seq<Actor>, sources: seq<Source>, receiver: nat, n: nat): seq<Gift>
    requires n <= |sources|
  {
    if n == 0 then []
    else GiftsOfSources(actors, sources, receiver, n - 1) + [GiftOf(actors, sources[n - 1], receiver)]
  }

  function GiftsToReceivers(actors: seq<Actor>, sources: seq<Source>, receivers: seq<nat>, n: nat): seq<Gift>
    requires n <= |receivers|
  {
    if n == 0 then []
    else
      GiftsToReceivers(actors, sources, receivers, n - 1)
      + GiftsOfSources(actors, sources, receivers[n - 1], |sources|)
  }

  /** All gifts of the first `n` rewards; `orders[k]` is the iteration order met by the k-th. */
  function Gifts(actors: seq<Actor>, rewards: seq<Reward>, orders: seq<seq<nat>>, n: nat): seq<Gift>
    requires n <= |rewards| == |orders|
  {
    if n == 0 then []
    else
      var receivers := Receivers(actors, rewards[n - 1].receiver, orders[n - 1]);
      Gifts(actors, rewards, orders, n - 1) + GiftsToReceivers(actors, rewards[n - 1].sources, receivers, |receivers|)
  }

  // ---- Giving ----

  function WithReceived(actors: seq<ActorSample>, r: nat, x: StoredReward): seq<ActorSample>
    requires r < |actors|
  {
    actors[r := actors[r].(rewards := Rewards(actors[r].rewards.received + [x], actors[r].rewards.sent))]
  }

  function WithSent(actors: seq<ActorSample>, s: int, x: StoredReward): seq<ActorSample>
    requires s < |actors|
  {
    if s < 0 then actors
    else actors[s := actors[s].(rewards := Rewards(actors[s].rewards.received, actors[s].rewards.sent + [x]))]
  }

  function DataRef(data: bytes, payloads: seq<bytes>): Option<nat> {
    if data == [] then None else Some(|payloads|)
  }

  function WithData(payloads: seq<bytes>, data: bytes): seq<bytes> {
    if data == [] then payloads else payloads + [data]
  }

  function Given(x: StoredSample, g: Gift): StoredSample
    requires g.receiver < |x.actors| && g.sender < |x.actors|
  {
    var ref := DataRef(g.source.userData, x.payloads);
    var actors := WithReceived(x.actors, g.receiver,
                               StoredReward(g.sender, 0, g.source.value, g.source.confidence, ref));
    StoredSample(x.info,
                 WithSent(actors, g.sender, StoredReward(0, g.receiver, g.source.value, g.source.confidence, ref)),
                 WithData(x.payloads, g.source.userData))
  }

  predicate GiftOk(g: Gift, n: nat) {
    g.receiver < n && ENVIRONMENT <= g.sender < n
  }

  ghost predicate GiftsFit(gifts: seq<Gift>, n: nat) {
    forall i | 0 <= i < |gifts| :: GiftOk(gifts[i], n)
  }

  ghost function AllGiven(x: StoredSample, gifts: seq<Gift>, n: nat): (y: StoredSample)
    requires n <= |gifts| && GiftsFit(gifts, |x.actors|)
    ensures |y.actors| == |x.actors|
  {
    if n == 0 then x
    else
      assert GiftOk(gifts[n - 1], |x.actors|);
      Given(AllGiven(x, gifts, n - 1), gifts[n - 1])
  }

  // ---- What an actor has received and sent ----

  /** An exchange seen from one side: what it was worth, and a reference to its data. */
  datatype Exchange = Exchange(value: real, confidence: real, ref: Option<nat>)

  /** What came from `sender` among the first `n` received. */
  ghost function ReceivedFrom(received: seq<StoredReward>, sender: int, n: nat): seq<Exchange>
    requires n <= |received|
  {
    if n == 0 then []
    else
      var x := received[n - 1];
      if x.sender == sender then ReceivedFrom(received, sender, n - 1) + [Exchange(x.value, x.confidence, x.userData)]
      else ReceivedFrom(received, sender, n - 1)
  }

  ghost function SentTo(sent: seq<StoredReward>, receiver: int, n: nat): seq<Exchange>
    requires n <= |sent|
  {
    if n == 0 then []
    else
      var x := sent[n - 1];
      if x.receiver == receiver then SentTo(sent, receiver, n - 1) + [Exchange(x.value, x.confidence, x.userData)]
      else SentTo(sent, receiver, n - 1)
  }

  /** The sources of the gifts from one to the other, in order. */
  ghost function Between(gifts: seq<Gift>, sender: int, receiver: nat, n: nat): seq<Source>
    requires n <= |gifts|
  {
    if n == 0 then []
    else if gifts[n - 1].sender == sender && gifts[n - 1].receiver == receiver then
      Between(gifts, sender, receiver, n - 1) + [gifts[n - 1].source]
    else Between(gifts, sender, receiver, n - 1)
  }

  /** The exchange is the source: same worth, and its reference leads to the source's data. */
  ghost predicate Shows(e: Exchange, source: Source, payloads: seq<bytes>) {
    && e.value == source.value && e.confidence == source.confidence
    && (if source.userData == [] then e.ref.None?
        else e.ref.Some? && e.ref.value < |payloads| && payloads[e.ref.value] == source.userData)
  }

  ghost predicate AllShow(es: seq<Exchange>, sources: seq<Source>, payloads: seq<bytes>) {
    |es| == |sources| && forall i | 0 <= i < |es| :: Shows(es[i], sources[i], payloads)
  }

  ghost function FromActor(x: StoredSample, r: nat, sender: int): seq<Exchange>
    requires r < |x.actors|
  {
    ReceivedFrom(x.actors[r].rewards.received, sender, |x.actors[r].rewards.received|)
  }

  ghost function ToActor(x: StoredSample, s: nat, receiver: int): seq<Exchange>
    requires s < |x.actors|
  {
    SentTo(x.actors[s].rewards.sent, receiver, |x.actors[s].rewards.sent|)
  }

  lemma {:induction false} ReceivedMore(received: seq<StoredReward>, x: StoredReward, sender: int, n: nat)
    requires n <= |received|
    ensures ReceivedFrom(received + [x], sender, n) == ReceivedFrom(received, sender, n)
  {
    if n > 0 {
      ReceivedMore(received, x, sender, n - 1);
    }
  }

  lemma {:induction false} SentMore(sent: seq<StoredReward>, x: StoredReward, receiver: int, n: nat)
    requires n <= |sent|
    ensures SentTo(sent + [x], receiver, n) == SentTo(sent, receiver, n)
  {
    if n > 0 {
      SentMore(sent, x, receiver, n - 1);
    }
  }

  /** One gift is one more exchange between its two sides, and changes nothing else. */
  lemma OneGift(x: StoredSample, g: Gift, s: int, r: nat)
    requires GiftOk(g, |x.actors|) && r < |x.actors| && ENVIRONMENT <= s < |x.actors|
    ensures var y, e := Given(x, g),
            Exchange(g.source.value, g.source.confidence, DataRef(g.source.userData, x.payloads));
            if g.sender == s && g.receiver == r then
              && FromActor(y, r, s) == FromActor(x, r, s) + [e]
              && (s >= 0 ==> ToActor(y, s, r) == ToActor(x, s, r) + [e])
            else
              && FromActor(y, r, s) == FromActor(x, r, s)
              && (s >= 0 ==> ToActor(y, s, r) == ToActor(x, s, r))
  {
    var ref := DataRef(g.source.userData, x.payloads);
    var y := Given(x, g);
    ReceivedMore(x.actors[r].rewards.received, StoredReward(g.sender, 0, g.source.value, g.source.confidence, ref), s,
                 |x.actors[r].rewards.received|);
    if s >= 0 {
      SentMore(x.actors[s].rewards.sent, StoredReward(0, g.receiver, g.source.value, g.source.confidence, ref), r,
               |x.actors[s].rewards.sent|);
    }
  }

  lemma ShowsStays(es: seq<Exchange>, sources: seq<Source>, payloads: seq<bytes>, more: seq<bytes>)
    requires AllShow(es, sources, payloads)
    ensures AllShow(es, sources, payloads + more)
  {
  }

  /** No reward has been exchanged yet. */
  ghost predicate Unrewarded(x: StoredSample) {
    forall i | 0 <= i < |x.actors| :: x.actors[i].rewards == Rewards([], []) && x.actors[i].reward.None?
  }

  /**
   * For every sender and receiver: what the one sent the other and what the other received from it are the same, in the
   * same order, with the same references, and are exactly the gifts between them.
   */
  lemma {:induction false} GiftsMatch(x: StoredSample, gifts: seq<Gift>, n: nat, s: int, r: nat)
    requires n <= |gifts| && GiftsFit(gifts, |x.actors|)
    requires Unrewarded(x) && r < |x.actors| && ENVIRONMENT <= s < |x.actors|
    ensures var y := AllGiven(x, gifts, n);
            && AllShow(FromActor(y, r, s), Between(gifts, s, r, n), y.payloads)
            && (s >= 0 ==> ToActor(y, s, r) == FromActor(y, r, s))
            && x.payloads <= y.payloads
  {
    if n > 0 {
      var g, y := gifts[n - 1], AllGiven(x, gifts, n - 1);
      assert GiftOk(g, |x.actors|);
      GiftsMatch(x, gifts, n - 1, s, r);
      OneGift(y, g, s, r);
      ShowsMore(FromActor(y, r, s), Between(gifts, s, r, n - 1), y.payloads, g.source);
    }
  }

  lemma ShowsMore(es: seq<Exchange>, sources: seq<Source>, payloads: seq<bytes>, x: Source)
    requires AllShow(es, sources, payloads)
    ensures AllShow(es, sources, WithData(payloads, x.userData))
    ensures AllShow(es + [Exchange(x.value, x.confidence, DataRef(x.userData, payloads))], sources + [x],
                    WithData(payloads, x.userData))
  {
  }

  // ---- The other stages ----

  function NewSample(info: Info, n: nat): StoredSample {
    StoredSample(info,
                 seq(n, i requires 0 <= i < n =>
                   ActorSample(i, None, None, None, Rewards([], []), Messages([], []))),
                 [])
  }

  /** The observations become the first payloads. */
  function Observed(x: StoredSample, o: Observations): StoredSample
    requires |o.actorsMap| <= |x.actors|
  {
    StoredSample(x.info,
                 seq(|x.actors|, i requires 0 <= i < |x.actors| =>
                   if i < |o.actorsMap| then x.actors[i].(observation := Some(|x.payloads| + o.actorsMap[i]))
                   else x.actors[i]),
                 x.payloads + o.data)
  }

  function Acted(x: StoredSample, actions: seq<bytes>): StoredSample
    requires |actions| <= |x.actors|
  {
    StoredSample(x.info,
                 seq(|x.actors|, i requires 0 <= i < |x.actors| =>
                   if i < |actions| then x.actors[i].(action := Some(|x.payloads| + i)) else x.actors[i]),
                 x.payloads + actions)
  }

  /** The sources of the gifts to an actor, in order. */
  function SourcesTo(gifts: seq<Gift>, receiver: nat, n: nat): seq<Source>
    requires n <= |gifts|
  {
    if n == 0 then []
    else if gifts[n - 1].receiver == receiver then SourcesTo(gifts, receiver, n - 1) + [gifts[n - 1].source]
    else SourcesTo(gifts, receiver, n - 1)
  }

  /** Sums over the first `n` sources with a positive confidence. */
  function WeightedSum(sources: seq<Source>, n: nat): real
    requires n <= |sources|
  {
    if n == 0 then 0.0
    else
      WeightedSum(sources, n - 1)
      + if sources[n - 1].confidence > 0.0 then sources[n - 1].value * sources[n - 1].confidence else 0.0
  }

  function ConfidenceSum(sources: seq<Source>, n: nat): (c: real)
    requires n <= |sources|
    ensures c >= 0.0
  {
    if n == 0 then 0.0
    else ConfidenceSum(sources, n - 1) + if sources[n - 1].confidence > 0.0 then sources[n - 1].confidence else 0.0
  }

  /** The average weighted by confidence; 0 when no source has a positive one. */
  function Average(sources: seq<Source>): real {
    var v, c := WeightedSum(sources, |sources|), ConfidenceSum(sources, |sources|);
    if c > 0.0 then v / c else v
  }

  function ToSet(s: seq<nat>): set<nat> {
    set x | x in s
  }

  /** The actors that the first `n` rewards are for. */
  ghost function Rewarded(actors: seq<Actor>, rewards: seq<Reward>, orders: seq<seq<nat>>, n: nat): set<nat>
    requires n <= |rewards| == |orders|
  {
    set k, r | 0 <= k < n && r in Receivers(actors, rewards[k].receiver, orders[k]) :: r
  }

  function Averaged(x: StoredSample, gifts: seq<Gift>, rewarded: set<nat>): StoredSample {
    x.(actors := seq(|x.actors|, i requires 0 <= i < |x.actors| =>
         if i in rewarded then x.actors[i].(reward := Some(Average(SourcesTo(gifts, i, |gifts|)))) else x.actors[i]))
  }

  // ---- Messages ----

  function WithMessageReceived(actors: seq<ActorSample>, r: int, m: StoredMessage): seq<ActorSample>
    requires r < |actors|
  {
    if r < 0 then actors
    else actors[r := actors[r].(messages := Messages(actors[r].messages.received + [m], actors[r].messages.sent))]
  }

  function WithMessageSent(actors: seq<ActorSample>, s: int, m: StoredMessage): seq<ActorSample>
    requires s < |actors|
  {
    if s < 0 then actors
    else actors[s := actors[s].(messages := Messages(actors[s].messages.received, actors[s].messages.sent + [m]))]
  }

  function Posted(x: StoredSample, sender: int, receiver: int, payload: bytes): StoredSample
    requires sender < |x.actors| && receiver < |x.actors|
  {
    var ref := |x.payloads|;
    var actors := WithMessageReceived(x.actors, receiver, StoredMessage(sender, 0, ref));
    StoredSample(x.info, WithMessageSent(actors, sender, StoredMessage(0, receiver, ref)), x.payloads + [payload])
  }

  function AllPosted(actors: seq<Actor>, x: StoredSample, messages: seq<Message>, n: nat): (y: StoredSample)
    requires n <= |messages| && |actors| == |x.actors|
    ensures |y.actors| == |x.actors|
  {
    if n == 0 then x
    else
      var m := messages[n - 1];
      Posted(AllPosted(actors, x, messages, n - 1), IndexOf(actors, m.sender), IndexOf(actors, m.receiver), m.payload)
  }

  /** The references to the messages from `sender` among the first `n` received. */
  ghost function MessagesFrom(received: seq<StoredMessage>, sender: int, n: nat): seq<nat>
    requires n <= |received|
  {
    if n == 0 then []
    else if received[n - 1].sender == sender then MessagesFrom(received, sender, n - 1) + [received[n - 1].payload]
    else MessagesFrom(received, sender, n - 1)
  }

  ghost function MessagesTo(sent: seq<StoredMessage>, receiver: int, n: nat): seq<nat>
    requires n <= |sent|
  {
    if n == 0 then []
    else if sent[n - 1].receiver == receiver then MessagesTo(sent, receiver, n - 1) + [sent[n - 1].payload]
    else MessagesTo(sent, receiver, n - 1)
  }

  /** The payloads of the messages from one to the other, in order. */
  ghost function LettersBetween(
    actors: seq<Actor>, messages: seq<Message>, sender: int, receiver: int, n: nat): seq<bytes>
    requires n <= |messages|
  {
    if n == 0 then []
    else
      var m := messages[n - 1];
      if IndexOf(actors, m.sender) == sender && IndexOf(actors, m.receiver) == receiver then
        LettersBetween(actors, messages, sender, receiver, n - 1) + [m.payload]
      else LettersBetween(actors, messages, sender, receiver, n - 1)
  }

  ghost function LettersFrom(x: StoredSample, r: nat, sender: int): seq<nat>
    requires r < |x.actors|
  {
    MessagesFrom(x.actors[r].messages.received, sender, |x.actors[r].messages.received|)
  }

  ghost function LettersTo(x: StoredSample, s: nat, receiver: int): seq<nat>
    requires s < |x.actors|
  {
    MessagesTo(x.actors[s].messages.sent, receiver, |x.actors[s].messages.sent|)
  }

  ghost predicate Leads(refs: seq<nat>, letters: seq<bytes>, payloads: seq<bytes>) {
    |refs| == |letters| && forall i | 0 <= i < |refs| :: refs[i] < |payloads| && payloads[refs[i]] == letters[i]
  }

  lemma {:induction false} FromMore(received: seq<StoredMessage>, x: StoredMessage, sender: int, n: nat)
    requires n <= |received|
    ensures MessagesFrom(received + [x], sender, n) == MessagesFrom(received, sender, n)
  {
    if n > 0 {
      FromMore(received, x, sender, n - 1);
    }
  }

  lemma {:induction false} ToMore(sent: seq<StoredMessage>, x: StoredMessage, receiver: int, n: nat)
    requires n <= |sent|
    ensures MessagesTo(sent + [x], receiver, n) == MessagesTo(sent, receiver, n)
  {
    if n > 0 {
      ToMore(sent, x, receiver, n - 1);
    }
  }

  lemma OneLetter(x: StoredSample, from: int, to: int, payload: bytes, s: int, r: int)
    requires ENVIRONMENT <= from < |x.actors| && ENVIRONMENT <= to < |x.actors|
    requires ENVIRONMENT <= s < |x.actors| && ENVIRONMENT <= r < |x.actors|
    ensures var y, ref := Posted(x, from, to, payload), |x.payloads|;
            if from == s && to == r then
              && (r >= 0 ==> LettersFrom(y, r, s) == LettersFrom(x, r, s) + [ref])
              && (s >= 0 ==> LettersTo(y, s, r) == LettersTo(x, s, r) + [ref])
            else
              && (r >= 0 ==> LettersFrom(y, r, s) == LettersFrom(x, r, s))
              && (s >= 0 ==> LettersTo(y, s, r) == LettersTo(x, s, r))
  {
    var y, ref := Posted(x, from, to, payload), |x.payloads|;
    if r >= 0 {
      FromMore(x.actors[r].messages.received, StoredMessage(from, 0, ref), s, |x.actors[r].messages.received|);
    }
    if s >= 0 {
      ToMore(x.actors[s].messages.sent, StoredMessage(0, to, ref), r, |x.actors[s].messages.sent|);
    }
  }

  ghost predicate Silent(x: StoredSample) {
    forall i | 0 <= i < |x.actors| :: x.actors[i].messages == Messages([], [])
  }

  /** For every sender and receiver: the messages each of them has recorded are those between them, in order. */
  lemma {:induction false} LettersMatch(
    actors: seq<Actor>, x: StoredSample, messages: seq<Message>, n: nat, s: int, r: int)
    requires n <= |messages| && |actors| == |x.actors| && Silent(x)
    requires ENVIRONMENT <= s < |x.actors| && ENVIRONMENT <= r < |x.actors|
    ensures var y, letters := AllPosted(actors, x, messages, n), LettersBetween(actors, messages, s, r, n);
            && (r >= 0 ==> Leads(LettersFrom(y, r, s), letters, y.payloads))
            && (s >= 0 ==> Leads(LettersTo(y, s, r), letters, y.payloads))
            && (r >= 0 && s >= 0 ==> LettersTo(y, s, r) == LettersFrom(y, r, s))
            && x.payloads <= y.payloads
  {
    if n > 0 {
      var m := messages[n - 1];
      var from, to := IndexOf(actors, m.sender), IndexOf(actors, m.receiver);
      LettersMatch(actors, x, messages, n - 1, s, r);
      var y, letters := AllPosted(actors, x, messages, n - 1), LettersBetween(actors, messages, s, r, n - 1);
      OneLetter(y, from, to, m.payload, s, r);
      if r >= 0 {
        LeadsMore(LettersFrom(y, r, s), letters, y.payloads, m.payload);
      }
      if s >= 0 {
        LeadsMore(LettersTo(y, s, r), letters, y.payloads, m.payload);
      }
    }
  }

  lemma LeadsMore(refs: seq<nat>, letters: seq<bytes>, payloads: seq<bytes>, payload: bytes)
    requires Leads(refs, letters, payloads)
    ensures Leads(refs, letters, payloads + [payload])
    ensures Leads(refs + [|payloads|], letters + [payload], payloads + [payload])
  {
  }

  // ---- The whole conversion ----

  /** What the conversion relies on: indices in range, names that differ, and orders that hold every actor once. */
  ghost predicate InputOk(actors: seq<Actor>, d: LogSample, orders: seq<seq<nat>>) {
    && DistinctNames(actors)
    && (d.observations.Some? ==>
          && |d.observations.value.actorsMap| <= |actors|
          && forall i | 0 <= i < |d.observations.value.actorsMap| ::
               d.observations.value.actorsMap[i] < |d.observations.value.data|)
    && |d.actions| <= |actors|
    && |orders| == |d.rewards|
    && forall k | 0 <= k < |orders| :: IsOrder(orders[k], |actors|)
  }

  /** The sample before the exchanges. */
  function Prepared(d: LogSample, n: nat): (x: StoredSample)
    requires |d.actions| <= n && (d.observations.Some? ==> |d.observations.value.actorsMap| <= n)
    ensures |x.actors| == n
  {
    var x := NewSample(d.info, n);
    Acted(if d.observations.Some? then Observed(x, d.observations.value) else x, d.actions)
  }

  lemma ReceiversOk(actors: seq<Actor>, name: string, everyone: seq<nat>)
    requires AllBelow(everyone, |actors|)
    ensures AllBelow(Receivers(actors, name, everyone), |actors|)
  {
    if Split(name).Some? {
      var list := OfClass(actors, Split(name).value.0, Split(name).value.1, |actors|);
      assert forall i | 0 <= i < |list| :: list[i] in list;
    }
  }

  lemma {:induction false} SourceGiftsOk(actors: seq<Actor>, sources: seq<Source>, receiver: nat, n: nat)
    requires n <= |sources| && receiver < |actors|
    ensures GiftsFit(GiftsOfSources(actors, sources, receiver, n), |actors|)
  {
    if n > 0 {
      SourceGiftsOk(actors, sources, receiver, n - 1);
    }
  }

  lemma {:induction false} ReceiverGiftsOk(actors: seq<Actor>, sources: seq<Source>, receivers: seq<nat>, n: nat)
    requires n <= |receivers| && AllBelow(receivers, |actors|)
    ensures GiftsFit(GiftsToReceivers(actors, sources, receivers, n), |actors|)
  {
    if n > 0 {
      ReceiverGiftsOk(actors, sources, receivers, n - 1);
      SourceGiftsOk(actors, sources, receivers[n - 1], |sources|);
    }
  }

  lemma {:induction false} GiftsOk(actors: seq<Actor>, rewards: seq<Reward>, orders: seq<seq<nat>>, n: nat)
    requires n <= |rewards| == |orders| && forall k | 0 <= k < |orders| :: AllBelow(orders[k], |actors|)
    ensures GiftsFit(Gifts(actors, rewards, orders, n), |actors|)
  {
    if n > 0 {
      GiftsOk(actors, rewards, orders, n - 1);
      ReceiversOk(actors, rewards[n - 1].receiver, orders[n - 1]);
      var receivers := Receivers(actors, rewards[n - 1].receiver, orders[n - 1]);
      ReceiverGiftsOk(actors, rewards[n - 1].sources, receivers, |receivers|);
    }
  }

  ghost function Converted(actors: seq<Actor>, d: LogSample, orders: seq<seq<nat>>): StoredSample
    requires InputOk(actors, d, orders)
  {
    var gifts := Gifts(actors, d.rewards, orders, |d.rewards|);
    GiftsOk(actors, d.rewards, orders, |d.rewards|);
    var given := AllGiven(Prepared(d, |actors|), gifts, |gifts|);
    var averaged := Averaged(given, gifts, Rewarded(actors, d.rewards, orders, |d.rewards|));
    AllPosted(actors, averaged, d.messages, |d.messages|)
  }

  // ---- What a stage leaves alone ----

  ghost predicate OnlyRewards(x: StoredSample, y: StoredSample) {
    && y.info == x.info && |y.actors| == |x.actors| && x.payloads <= y.payloads
    && forall i | 0 <= i < |x.actors| :: y.actors[i] == x.actors[i].(rewards := y.actors[i].rewards)
  }

  ghost predicate OnlyMessages(x: StoredSample, y: StoredSample) {
    && y.info == x.info && |y.actors| == |x.actors| && x.payloads <= y.payloads
    && forall i | 0 <= i < |x.actors| :: y.actors[i] == x.actors[i].(messages := y.actors[i].messages)
  }

  lemma {:induction false} GivingKeeps(x: StoredSample, gifts: seq<Gift>, n: nat)
    requires n <= |gifts| && GiftsFit(gifts, |x.actors|)
    ensures OnlyRewards(x, AllGiven(x, gifts, n))
    ensures RefsOk(x) ==> RefsOk(AllGiven(x, gifts, n))
  {
    if n > 0 {
      GivingKeeps(x, gifts, n - 1);
      assert GiftOk(gifts[n - 1], |x.actors|);
      GiftKeeps(AllGiven(x, gifts, n - 1), gifts[n - 1]);
    }
  }

  lemma GiftKeeps(x: StoredSample, g: Gift)
    requires GiftOk(g, |x.actors|)
    ensures OnlyRewards(x, Given(x, g))
    ensures RefsOk(x) ==> RefsOk(Given(x, g))
  {
    var y := Given(x, g);
    if RefsOk(x) {
      forall i | 0 <= i < |y.actors| ensures ActorRefsOk(y.actors[i], |y.payloads|) {
        assert ActorRefsOk(x.actors[i], |x.payloads|);
      }
    }
  }

  lemma {:induction false} PostingKeeps(actors: seq<Actor>, x: StoredSample, messages: seq<Message>, n: nat)
    requires n <= |messages| && |actors| == |x.actors|
    ensures OnlyMessages(x, AllPosted(actors, x, messages, n))
    ensures RefsOk(x) ==> RefsOk(AllPosted(actors, x, messages, n))
  {
    if n > 0 {
      PostingKeeps(actors, x, messages, n - 1);
      var m := messages[n - 1];
      PostKeeps(AllPosted(actors, x, messages, n - 1), IndexOf(actors, m.sender), IndexOf(actors, m.receiver),
                m.payload);
    }
  }

  lemma PostKeeps(x: StoredSample, sender: int, receiver: int, payload: bytes)
    requires sender < |x.actors| && receiver < |x.actors|
    ensures OnlyMessages(x, Posted(x, sender, receiver, payload))
    ensures RefsOk(x) ==> RefsOk(Posted(x, sender, receiver, payload))
  {
    var y := Posted(x, sender, receiver, payload);
    if RefsOk(x) {
      forall i | 0 <= i < |y.actors| ensures ActorRefsOk(y.actors[i], |y.payloads|) {
        assert ActorRefsOk(x.actors[i], |x.payloads|);
      }
    }
  }

  /** The payloads of the observations. */
  function ObservationData(d: LogSample): seq<bytes> {
    if d.observations.Some? then d.observations.value.data else []
  }

  function ObservationRef(d: LogSample, i: nat): Option<nat> {
    if d.observations.Some? && i < |d.observations.value.actorsMap| then Some(d.observations.value.actorsMap[i])
    else None
  }

  lemma PreparedActor(d: LogSample, n: nat, i: nat)
    requires |d.actions| <= n && (d.observations.Some? ==> |d.observations.value.actorsMap| <= n) && i < n
    ensures var x := Prepared(d, n);
            && x.info == d.info && x.payloads == ObservationData(d) + d.actions
            && x.actors[i] == ActorSample(i, ObservationRef(d, i),
                                          if i < |d.actions| then Some(|ObservationData(d)| + i) else None,
                                          None, Rewards([], []), Messages([], []))
  {
  }

  /** The sample before the exchanges: each reference leads to the observation or the action. */
  lemma PreparedIsFaithful(actors: seq<Actor>, d: LogSample, orders: seq<seq<nat>>)
    requires InputOk(actors, d, orders)
    ensures var x := Prepared(d, |actors|);
            && RefsOk(x) && Unrewarded(x) && Silent(x) && x.info == d.info
            && forall i: nat | i < |actors| :: x.actors[i].actor == i && ObservationOf(x, d, i) && ActionOf(x, d, i)
  {
    var x := Prepared(d, |actors|);
    forall i: nat | i < |actors|
      ensures x.actors[i].rewards == Rewards([], []) && x.actors[i].reward.None?
              && x.actors[i].messages == Messages([], [])
      ensures ActorRefsOk(x.actors[i], |x.payloads|)
      ensures x.actors[i].actor == i && ObservationOf(x, d, i) && ActionOf(x, d, i)
    {
      PreparedActor(d, |actors|, i);
    }
    assert x.info == d.info by {
      assert Prepared(d, |actors|).info == d.info;
    }
  }

  ghost predicate ObservationOf(x: StoredSample, d: LogSample, i: nat)
    requires i < |x.actors|
  {
    var ref := x.actors[i].observation;
    if d.observations.Some? && i < |d.observations.value.actorsMap| then
      && d.observations.value.actorsMap[i] < |d.observations.value.data|
      && ref.Some? && ref.value < |x.payloads|
      && x.payloads[ref.value] == d.observations.value.data[d.observations.value.actorsMap[i]]
    else ref.None?
  }

  ghost predicate ActionOf(x: StoredSample, d: LogSample, i: nat)
    requires i < |x.actors|
  {
    var ref := x.actors[i].action;
    if i < |d.actions| then ref.Some? && ref.value < |x.payloads| && x.payloads[ref.value] == d.actions[i]
    else ref.None?
  }

  // ---- What the log holds, whatever the orders ----

  predicate Plain(name: string) {
    '.' !in name
  }

  /** The name is a class and a name with a dot between them; what follows another dot is ignored. */
  predicate Addresses(name: string, class_: string, actor: string) {
    && Plain(class_) && Plain(actor)
    && (name == class_ + "." + actor || class_ + "." + actor + "." <= name)
  }

  /**
   * The reward is for the actor: it is for everyone, or for the actor's name, or for the actor's class and either its
   * name or any.
   */
  predicate Reaches(actors: seq<Actor>, name: string, r: nat)
    requires r < |actors|
  {
    || name == "*" || name == "*.*"
    || (Plain(name) && name == actors[r].name)
    || Addresses(name, actors[r].class_, "*")
    || Addresses(name, actors[r].class_, actors[r].name)
  }

  lemma FirstDot(name: string, i: nat, k: nat)
    requires i <= k < |name| && name[k] == '.' && forall j | i <= j < k :: name[j] != '.'
    ensures DotFrom(name, i) == k
  {
  }

  lemma NoDot(name: string, i: nat)
    requires i <= |name| && forall j | i <= j < |name| :: name[j] != '.'
    ensures DotFrom(name, i) == |name|
  {
  }

  lemma PartsAt(name: string, k: nat, n: nat)
    requires k < n <= |name| && name[k] == '.' && (n < |name| ==> name[n] == '.')
    requires (forall j | 0 <= j < k :: name[j] != '.') && forall j | k < j < n :: name[j] != '.'
    ensures Split(name) == Some((name[..k], name[k + 1..n]))
  {
    FirstDot(name, 0, k);
    if n < |name| {
      FirstDot(name, k + 1, n);
    } else {
      NoDot(name, k + 1);
    }
  }

  lemma DottedChars(class_: string, actor: string)
    requires Plain(class_) && Plain(actor)
    ensures var s, k := class_ + "." + actor, |class_|;
            && s[k] == '.' && s[..k] == class_ && s[k + 1..] == actor
            && forall j | 0 <= j < |s| && j != k :: s[j] != '.'
  {
    var s, k := class_ + "." + actor, |class_|;
    forall j | 0 <= j < |s| && j != k ensures s[j] != '.' {
      assert s[j] == if j < k then class_[j] else actor[j - (k + 1)];
    }
  }

  /** The parts of a name with a dot. */
  lemma AddressedParts(name: string, class_: string, actor: string)
    requires Addresses(name, class_, actor)
    ensures Split(name) == Some((class_, actor))
  {
    var s, k := class_ + "." + actor, |class_|;
    var n := |s|;
    DottedChars(class_, actor);
    assert name[..n] == s;
    assert forall j | 0 <= j < n :: name[j] == s[j];
    if n < |name| {
      assert name[n] == (s + ".")[n];
    }
    PartsAt(name, k, n);
    assert name[..k] == s[..k] && name[k + 1..n] == s[k + 1..];
  }

  lemma SplitAddresses(name: string)
    ensures Split(name).None? <==> Plain(name)
    ensures Split(name).Some? ==> Addresses(name, Split(name).value.0, Split(name).value.1)
  {
    var k := DotFrom(name, 0);
    if k < |name| {
      var n := DotFrom(name, k + 1);
      var class_, actor := name[..k], name[k + 1..n];
      assert name[..n] == class_ + "." + actor;
      if n < |name| {
        assert name[..n + 1] == class_ + "." + actor + ".";
      }
    }
  }

  /** Who a reward for a class and a name reaches. */
  lemma ClassReaches(actors: seq<Actor>, class_: string, actor: string, r: nat)
    requires r < |actors| && Plain(class_) && Plain(actor)
    ensures Reaches(actors, class_ + "." + actor, r) <==>
              class_ + "." + actor == "*.*"
              || (actors[r].class_ == class_ && (actor == "*" || actor == actors[r].name))
  {
    var name := class_ + "." + actor;
    assert name[|class_|] == '.';
    assert |"*"| == 1;
    AddressedParts(name, class_, actor);
    if Addresses(name, actors[r].class_, "*") {
      AddressedParts(name, actors[r].class_, "*");
    }
    if Addresses(name, actors[r].class_, actors[r].name) {
      AddressedParts(name, actors[r].class_, actors[r].name);
    }
  }

  /** Who a reward for a name without a class reaches. */
  lemma NameReaches(actors: seq<Actor>, name: string, r: nat)
    requires r < |actors| && Plain(name)
    ensures Reaches(actors, name, r) <==> name == "*" || name == actors[r].name
  {
    assert "*.*"[1] == '.';
    SplitAddresses(name);
    if Addresses(name, actors[r].class_, "*") {
      AddressedParts(name, actors[r].class_, "*");
    }
    if Addresses(name, actors[r].class_, actors[r].name) {
      AddressedParts(name, actors[r].class_, actors[r].name);
    }
  }

  /** The sources of the first `n` rewards that are for the actor, in the order of the log. */
  ghost function SourcesFor(actors: seq<Actor>, rewards: seq<Reward>, r: nat, n: nat): seq<Source>
    requires r < |actors| && n <= |rewards|
  {
    if n == 0 then []
    else if Reaches(actors, rewards[n - 1].receiver, r) then
      SourcesFor(actors, rewards, r, n - 1) + rewards[n - 1].sources
    else SourcesFor(actors, rewards, r, n - 1)
  }

  /** Those of the first `n` sources that are of the sender. */
  ghost function BySender(actors: seq<Actor>, sources: seq<Source>, s: int, n: nat): seq<Source>
    requires n <= |sources|
  {
    if n == 0 then []
    else if IndexOf(actors, sources[n - 1].sender) == s then BySender(actors, sources, s, n - 1) + [sources[n - 1]]
    else BySender(actors, sources, s, n - 1)
  }

  /** What the log says that the sender gave the receiver, in order. */
  ghost function RewardsBetween(actors: seq<Actor>, rewards: seq<Reward>, s: int, r: nat): seq<Source>
    requires r < |actors|
  {
    var sources := SourcesFor(actors, rewards, r, |rewards|);
    BySender(actors, sources, s, |sources|)
  }

  lemma {:induction false} OfClassHolds(actors: seq<Actor>, class_: string, name: string, n: nat)
    requires n <= |actors|
    ensures var indices := OfClass(actors, class_, name, n);
            && NoDup(indices)
            && forall i: nat | i < n ::
                 i in indices <==> actors[i].class_ == class_ && (name == "*" || name == actors[i].name)
  {
    if n > 0 {
      OfClassHolds(actors, class_, name, n - 1);
      var rest := OfClass(actors, class_, name, n - 1);
      assert forall i | 0 <= i < |rest| :: rest[i] in rest;
    }
  }

  /** A name stands for each of its receivers once. */
  lemma ReceiversAreThose(actors: seq<Actor>, name: string, everyone: seq<nat>)
    requires DistinctNames(actors) && IsOrder(everyone, |actors|)
    ensures var receivers := Receivers(actors, name, everyone);
            NoDup(receivers) && forall r: nat | r < |actors| :: r in receivers <==> Reaches(actors, name, r)
  {
    SplitAddresses(name);
    if !IsEveryone(name) {
      if Split(name).Some? {
        OfClassHolds(actors, Split(name).value.0, Split(name).value.1, |actors|);
        forall r: nat | r < |actors|
          ensures Reaches(actors, name, r) <==>
                    actors[r].class_ == Split(name).value.0
                    && (Split(name).value.1 == "*" || Split(name).value.1 == actors[r].name)
        {
          SplitReaches(actors, name, r);
        }
      } else {
        forall r: nat | r < |actors| ensures Reaches(actors, name, r) <==> name == actors[r].name {
          NameReaches(actors, name, r);
        }
      }
    }
  }

  lemma SplitReaches(actors: seq<Actor>, name: string, r: nat)
    requires r < |actors| && !IsEveryone(name) && Split(name).Some?
    ensures Reaches(actors, name, r) <==>
              actors[r].class_ == Split(name).value.0
              && (Split(name).value.1 == "*" || Split(name).value.1 == actors[r].name)
  {
    SplitAddresses(name);
    if Addresses(name, actors[r].class_, "*") {
      AddressedParts(name, actors[r].class_, "*");
    }
    if Addresses(name, actors[r].class_, actors[r].name) {
      AddressedParts(name, actors[r].class_, actors[r].name);
    }
  }

  lemma {:induction false} SourcesToAppend(a: seq<Gift>, b: seq<Gift>, r: nat, n: nat)
    requires n <= |b|
    ensures SourcesTo(a + b, r, |a| + n) == SourcesTo(a, r, |a|) + SourcesTo(b, r, n)
  {
    if n == 0 {
      SourcesToPrefix(a, b, r, |a|);
    } else {
      SourcesToAppend(a, b, r, n - 1);
      assert (a + b)[|a| + n - 1] == b[n - 1];
    }
  }

  lemma {:induction false} SourcesToPrefix(a: seq<Gift>, b: seq<Gift>, r: nat, n: nat)
    requires n <= |a|
    ensures SourcesTo(a + b, r, n) == SourcesTo(a, r, n)
  {
    if n > 0 {
      SourcesToPrefix(a, b, r, n - 1);
    }
  }

  lemma SourcesAddOne(gifts: seq<Gift>, g: Gift, r: nat)
    ensures SourcesTo(gifts + [g], r, |gifts| + 1) ==
              if g.receiver == r then SourcesTo(gifts, r, |gifts|) + [g.source] else SourcesTo(gifts, r, |gifts|)
  {
    SourcesToPrefix(gifts, [g], r, |gifts|);
  }

  lemma {:induction false} SourcesOfOne(actors: seq<Actor>, sources: seq<Source>, receiver: nat, r: nat, n: nat)
    requires n <= |sources|
    ensures |GiftsOfSources(actors, sources, receiver, n)| == n
    ensures SourcesTo(GiftsOfSources(actors, sources, receiver, n), r, n) == if r == receiver then sources[..n] else []
  {
    if n > 0 {
      SourcesOfOne(actors, sources, receiver, r, n - 1);
      SourcesAddOne(GiftsOfSources(actors, sources, receiver, n - 1), GiftOf(actors, sources[n - 1], receiver), r);
      assert sources[..n] == sources[..n - 1] + [sources[n - 1]];
    }
  }

  lemma SourcesAreFor(actors: seq<Actor>, sources: seq<Source>, receiver: nat, r: nat)
    ensures var more := GiftsOfSources(actors, sources, receiver, |sources|);
            SourcesTo(more, r, |more|) == if r == receiver then sources else []
  {
    SourcesOfOne(actors, sources, receiver, r, |sources|);
    assert sources[..|sources|] == sources;
  }

  /** More gifts, which are for the actor or not. */
  lemma SourcesOfMore(gifts: seq<Gift>, more: seq<Gift>, sources: seq<Source>, r: nat, theirs: bool)
    requires SourcesTo(more, r, |more|) == if theirs then sources else []
    ensures SourcesTo(gifts + more, r, |gifts + more|) ==
              if theirs then SourcesTo(gifts, r, |gifts|) + sources else SourcesTo(gifts, r, |gifts|)
  {
    SourcesToAppend(gifts, more, r, |more|);
  }

  lemma {:induction false} SourcesToNone(
    actors: seq<Actor>, sources: seq<Source>, receivers: seq<nat>, r: nat, n: nat)
    requires n <= |receivers| && forall i | 0 <= i < n :: receivers[i] != r
    ensures var gifts := GiftsToReceivers(actors, sources, receivers, n); SourcesTo(gifts, r, |gifts|) == []
  {
    if n > 0 {
      SourcesToNone(actors, sources, receivers, r, n - 1);
      SourcesAreFor(actors, sources, receivers[n - 1], r);
      SourcesOfMore(GiftsToReceivers(actors, sources, receivers, n - 1),
                    GiftsOfSources(actors, sources, receivers[n - 1], |sources|), sources, r, false);
    }
  }

  lemma {:induction false} SourcesToOneOf(
    actors: seq<Actor>, sources: seq<Source>, receivers: seq<nat>, k: nat, n: nat)
    requires k < n <= |receivers| && NoDup(receivers)
    ensures var gifts := GiftsToReceivers(actors, sources, receivers, n);
            SourcesTo(gifts, receivers[k], |gifts|) == sources
  {
    var r, front := receivers[k], GiftsToReceivers(actors, sources, receivers, n - 1);
    SourcesAreFor(actors, sources, receivers[n - 1], r);
    SourcesOfMore(front, GiftsOfSources(actors, sources, receivers[n - 1], |sources|), sources, r, k == n - 1);
    if k < n - 1 {
      SourcesToOneOf(actors, sources, receivers, k, n - 1);
    } else {
      SourcesToNone(actors, sources, receivers, r, n - 1);
      assert [] + sources == sources;
    }
  }

  /** The gifts of one reward. */
  lemma SourcesOfReward(actors: seq<Actor>, reward: Reward, order: seq<nat>, r: nat)
    requires r < |actors| && DistinctNames(actors) && IsOrder(order, |actors|)
    ensures var receivers := Receivers(actors, reward.receiver, order);
            var more := GiftsToReceivers(actors, reward.sources, receivers, |receivers|);
            SourcesTo(more, r, |more|) == if Reaches(actors, reward.receiver, r) then reward.sources else []
  {
    var receivers := Receivers(actors, reward.receiver, order);
    ReceiversAreThose(actors, reward.receiver, order);
    if k :| 0 <= k < |receivers| && receivers[k] == r {
      SourcesToOneOf(actors, reward.sources, receivers, k, |receivers|);
    } else {
      SourcesToNone(actors, reward.sources, receivers, r, |receivers|);
    }
  }

  /** What is given to an actor is what the log holds for it, whatever the orders. */
  lemma {:induction false} SourcesAreOfTheLog(
    actors: seq<Actor>, rewards: seq<Reward>, orders: seq<seq<nat>>, r: nat, n: nat)
    requires n <= |rewards| == |orders| && r < |actors| && DistinctNames(actors)
    requires forall k | 0 <= k < |orders| :: IsOrder(orders[k], |actors|)
    ensures var gifts := Gifts(actors, rewards, orders, n);
            SourcesTo(gifts, r, |gifts|) == SourcesFor(actors, rewards, r, n)
  {
    if n > 0 {
      SourcesAreOfTheLog(actors, rewards, orders, r, n - 1);
      var x, order := rewards[n - 1], orders[n - 1];
      var receivers := Receivers(actors, x.receiver, order);
      SourcesOfReward(actors, x, order, r);
      SourcesOfMore(Gifts(actors, rewards, orders, n - 1), GiftsToReceivers(actors, x.sources, receivers, |receivers|),
                    x.sources, r, Reaches(actors, x.receiver, r));
    }
  }

  ghost predicate SendersOk(actors: seq<Actor>, gifts: seq<Gift>) {
    forall i | 0 <= i < |gifts| :: gifts[i].sender == IndexOf(actors, gifts[i].source.sender)
  }

  lemma {:induction false} SourceSenders(actors: seq<Actor>, sources: seq<Source>, receiver: nat, n: nat)
    requires n <= |sources|
    ensures SendersOk(actors, GiftsOfSources(actors, sources, receiver, n))
  {
    if n > 0 {
      SourceSenders(actors, sources, receiver, n - 1);
    }
  }

  lemma {:induction false} ReceiverSenders(actors: seq<Actor>, sources: seq<Source>, receivers: seq<nat>, n: nat)
    requires n <= |receivers|
    ensures SendersOk(actors, GiftsToReceivers(actors, sources, receivers, n))
  {
    if n > 0 {
      ReceiverSenders(actors, sources, receivers, n - 1);
      SourceSenders(actors, sources, receivers[n - 1], |sources|);
    }
  }

  lemma {:induction false} GiftSenders(actors: seq<Actor>, rewards: seq<Reward>, orders: seq<seq<nat>>, n: nat)
    requires n <= |rewards| == |orders|
    ensures SendersOk(actors, Gifts(actors, rewards, orders, n))
  {
    if n > 0 {
      GiftSenders(actors, rewards, orders, n - 1);
      var receivers := Receivers(actors, rewards[n - 1].receiver, orders[n - 1]);
      ReceiverSenders(actors, rewards[n - 1].sources, receivers, |receivers|);
    }
  }

  lemma {:induction false} BetweenIsBySender(actors: seq<Actor>, gifts: seq<Gift>, s: int, r: nat, n: nat)
    requires n <= |gifts| && SendersOk(actors, gifts)
    ensures var sources := SourcesTo(gifts, r, n);
            Between(gifts, s, r, n) == BySender(actors, sources, s, |sources|)
  {
    if n > 0 {
      BetweenIsBySender(actors, gifts, s, r, n - 1);
      var sources := SourcesTo(gifts, r, n - 1);
      BySenderPrefix(actors, sources, [gifts[n - 1].source], s, |sources|);
    }
  }

  lemma {:induction false} BySenderPrefix(
    actors: seq<Actor>, sources: seq<Source>, more: seq<Source>, s: int, n: nat)
    requires n <= |sources|
    ensures BySender(actors, sources + more, s, n) == BySender(actors, sources, s, n)
  {
    if n > 0 {
      BySenderPrefix(actors, sources, more, s, n - 1);
    }
  }

  /** The exchanges between two sides are those of the log, whatever the orders. */
  lemma GiftsAreOfTheLog(actors: seq<Actor>, d: LogSample, orders: seq<seq<nat>>, s: int, r: nat)
    requires InputOk(actors, d, orders) && r < |actors|
    ensures var gifts := Gifts(actors, d.rewards, orders, |d.rewards|);
            && Between(gifts, s, r, |gifts|) == RewardsBetween(actors, d.rewards, s, r)
            && SourcesTo(gifts, r, |gifts|) == SourcesFor(actors, d.rewards, r, |d.rewards|)
  {
    var gifts := Gifts(actors, d.rewards, orders, |d.rewards|);
    SourcesAreOfTheLog(actors, d.rewards, orders, r, |d.rewards|);
    GiftSenders(actors, d.rewards, orders, |d.rewards|);
    BetweenIsBySender(actors, gifts, s, r, |gifts|);
  }

  /** The reward at position `k` is for the actor. */
  ghost predicate ReachedBy(actors: seq<Actor>, rewards: seq<Reward>, k: nat, r: nat)
    requires k < |rewards| && r < |actors|
  {
    Reaches(actors, rewards[k].receiver, r)
  }

  lemma RewardedAreThose(actors: seq<Actor>, rewards: seq<Reward>, orders: seq<seq<nat>>, r: nat)
    requires |rewards| == |orders| && r < |actors| && DistinctNames(actors)
    requires forall i | 0 <= i < |orders| :: IsOrder(orders[i], |actors|)
    ensures r in Rewarded(actors, rewards, orders, |rewards|) <==>
            exists k: nat :: k < |rewards| && ReachedBy(actors, rewards, k, r)
  {
    forall k: nat | k < |rewards|
      ensures r in Receivers(actors, rewards[k].receiver, orders[k]) <==> ReachedBy(actors, rewards, k, r)
    {
      ReceiversAreThose(actors, rewards[k].receiver, orders[k]);
    }
  }

  /** The rewards received have the values and confidences of the sources. */
  ghost predicate Mirrors(received: seq<StoredReward>, sources: seq<Source>) {
    && |received| == |sources|
    && forall i | 0 <= i < |received| ::
         received[i].value == sources[i].value && received[i].confidence == sources[i].confidence
  }

  lemma {:induction false} ReceivedMirrors(x: StoredSample, gifts: seq<Gift>, n: nat, r: nat)
    requires n <= |gifts| && GiftsFit(gifts, |x.actors|)
    requires Unrewarded(x) && r < |x.actors|
    ensures Mirrors(AllGiven(x, gifts, n).actors[r].rewards.received, SourcesTo(gifts, r, n))
  {
    if n > 0 {
      assert GiftOk(gifts[n - 1], |x.actors|);
      ReceivedMirrors(x, gifts, n - 1, r);
    }
  }

  /** The aggregated reward is the average that the sum of the weights defines. */
  lemma AverageIsWeighted(sources: seq<Source>)
    ensures var c := ConfidenceSum(sources, |sources|);
            if c > 0.0 then Average(sources) * c == WeightedSum(sources, |sources|) else Average(sources) == 0.0
  {
    NoConfidenceNoSum(sources, |sources|);
  }

  /** One more source moves the average by its weight; a source without confidence does not. */
  lemma OneMoreSource(sources: seq<Source>, x: Source)
    ensures Average([]) == 0.0 && ConfidenceSum([], 0) == 0.0
    ensures var c, all := ConfidenceSum(sources, |sources|), sources + [x];
            && ConfidenceSum(all, |all|) == c + (if x.confidence > 0.0 then x.confidence else 0.0)
            && (x.confidence <= 0.0 ==> Average(all) == Average(sources))
            && (x.confidence > 0.0 ==>
                  Average(all) * (c + x.confidence) == Average(sources) * c + x.value * x.confidence)
  {
    var all := sources + [x];
    SumsOfPrefix(sources, [x], |sources|);
    assert all[|sources|] == x;
    AverageIsWeighted(sources);
    AverageIsWeighted(all);
    NoConfidenceNoSum(sources, |sources|);
  }

  lemma {:induction false} SumsOfPrefix(sources: seq<Source>, more: seq<Source>, n: nat)
    requires n <= |sources|
    ensures WeightedSum(sources + more, n) == WeightedSum(sources, n)
    ensures ConfidenceSum(sources + more, n) == ConfidenceSum(sources, n)
  {
    if n > 0 {
      SumsOfPrefix(sources, more, n - 1);
    }
  }

  lemma {:induction false} NoConfidenceNoSum(sources: seq<Source>, n: nat)
    requires n <= |sources|
    ensures ConfidenceSum(sources, n) == 0.0 ==> WeightedSum(sources, n) == 0.0
  {
    if n > 0 {
      NoConfidenceNoSum(sources, n - 1);
    }
  }

  /** An aggregated reward is stored exactly for the actors that some reward was for. */
  ghost predicate RewardOf(a: ActorSample, actors: seq<Actor>, rewards: seq<Reward>, i: nat)
    requires i < |actors|
  {
    var sources := SourcesFor(actors, rewards, i, |rewards|);
    && Mirrors(a.rewards.received, sources)
    && a.reward == if exists k: nat :: k < |rewards| && ReachedBy(actors, rewards, k, i)
                   then Some(Average(sources)) else None
  }

  /**
   * Whatever the orders in which "*" lists the actors: every reference is
   * in bounds, and leads to what the log holds.
   */
  lemma ReferencesAreFaithful(actors: seq<Actor>, d: LogSample, orders: seq<seq<nat>>, i: nat)
    requires InputOk(actors, d, orders) && i < |actors|
    ensures var y := Converted(actors, d, orders);
            && RefsOk(y) && y.info == d.info && |y.actors| == |actors| && y.actors[i].actor == i
            && ObservationOf(y, d, i) && ActionOf(y, d, i)
  {
    var x, gifts := Prepared(d, |actors|), Gifts(actors, d.rewards, orders, |d.rewards|);
    PreparedIsFaithful(actors, d, orders);
    GiftsOk(actors, d.rewards, orders, |d.rewards|);
    GivingKeeps(x, gifts, |gifts|);
    var given, rewarded := AllGiven(x, gifts, |gifts|), Rewarded(actors, d.rewards, orders, |d.rewards|);
    AveragingKeepsRefs(given, gifts, rewarded);
    var averaged := Averaged(given, gifts, rewarded);
    PostingKeeps(actors, averaged, d.messages, |d.messages|);
    SameReferences(x, AllPosted(actors, averaged, d.messages, |d.messages|), d, i);
  }

  lemma SameReferences(x: StoredSample, y: StoredSample, d: LogSample, i: nat)
    requires i < |x.actors| == |y.actors| && x.payloads <= y.payloads && ObservationOf(x, d, i) && ActionOf(x, d, i)
    requires y.actors[i].observation == x.actors[i].observation && y.actors[i].action == x.actors[i].action
    ensures ObservationOf(y, d, i) && ActionOf(y, d, i)
  {
  }

  /**
   * Each actor has received the rewards that the log holds for it, in order, and its aggregated reward is their
   * average, or absent when no reward was for it.
   */
  lemma RewardsAreAverages(actors: seq<Actor>, d: LogSample, orders: seq<seq<nat>>, i: nat)
    requires InputOk(actors, d, orders) && i < |actors|
    ensures var y := Converted(actors, d, orders); |y.actors| == |actors| && RewardOf(y.actors[i], actors, d.rewards, i)
  {
    var x, gifts := Prepared(d, |actors|), Gifts(actors, d.rewards, orders, |d.rewards|);
    PreparedIsFaithful(actors, d, orders);
    GiftsOk(actors, d.rewards, orders, |d.rewards|);
    GivingKeeps(x, gifts, |gifts|);
    ReceivedMirrors(x, gifts, |gifts|, i);
    GiftsAreOfTheLog(actors, d, orders, ENVIRONMENT, i);
    RewardedAreThose(actors, d.rewards, orders, i);
    var averaged := Averaged(AllGiven(x, gifts, |gifts|), gifts, Rewarded(actors, d.rewards, orders, |d.rewards|));
    PostingKeeps(actors, averaged, d.messages, |d.messages|);
  }

  lemma AveragingKeepsRefs(x: StoredSample, gifts: seq<Gift>, rewarded: set<nat>)
    requires RefsOk(x)
    ensures RefsOk(Averaged(x, gifts, rewarded))
  {
    var y := Averaged(x, gifts, rewarded);
    forall i | 0 <= i < |y.actors| ensures ActorRefsOk(y.actors[i], |y.payloads|) {
      assert ActorRefsOk(x.actors[i], |x.payloads|);
    }
  }

  /**
   * For every sender, actor or environment, and every receiving actor: the rewards the one records as sent and the
   * other as received are the same, in order and with the same payload, and are exactly those of the log, whatever the
   * orders in which "*" lists the actors.
   */
  lemma RewardsMatch(actors: seq<Actor>, d: LogSample, orders: seq<seq<nat>>, s: int, r: nat)
    requires InputOk(actors, d, orders) && r < |actors| && ENVIRONMENT <= s < |actors|
    ensures var y := Converted(actors, d, orders);
            && |y.actors| == |actors|
            && AllShow(FromActor(y, r, s), RewardsBetween(actors, d.rewards, s, r), y.payloads)
            && (s >= 0 ==> ToActor(y, s, r) == FromActor(y, r, s))
  {
    var x, gifts := Prepared(d, |actors|), Gifts(actors, d.rewards, orders, |d.rewards|);
    PreparedIsFaithful(actors, d, orders);
    GiftsOk(actors, d.rewards, orders, |d.rewards|);
    GiftsMatch(x, gifts, |gifts|, s, r);
    GiftsAreOfTheLog(actors, d, orders, s, r);
    var given := AllGiven(x, gifts, |gifts|);
    var averaged := Averaged(given, gifts, Rewarded(actors, d.rewards, orders, |d.rewards|));
    PostingKeeps(actors, averaged, d.messages, |d.messages|);
    RewardsStayMatched(given, AllPosted(actors, averaged, d.messages, |d.messages|), gifts, s, r);
  }

  /** The exchanges of rewards depend on the lists of rewards only, and payloads are only added. */
  lemma RewardsStayMatched(x: StoredSample, y: StoredSample, gifts: seq<Gift>, s: int, r: nat)
    requires r < |x.actors| == |y.actors| && ENVIRONMENT <= s < |x.actors| && x.payloads <= y.payloads
    requires forall i | 0 <= i < |x.actors| :: y.actors[i].rewards == x.actors[i].rewards
    requires AllShow(FromActor(x, r, s), Between(gifts, s, r, |gifts|), x.payloads)
    requires s >= 0 ==> ToActor(x, s, r) == FromActor(x, r, s)
    ensures AllShow(FromActor(y, r, s), Between(gifts, s, r, |gifts|), y.payloads)
    ensures s >= 0 ==> ToActor(y, s, r) == FromActor(y, r, s)
  {
    assert y.payloads == x.payloads + y.payloads[|x.payloads|..];
    ShowsStays(FromActor(x, r, s), Between(gifts, s, r, |gifts|), x.payloads, y.payloads[|x.payloads|..]);
  }

  /** The same for messages, either side of which may be the environment. */
  lemma MessagesMatch(actors: seq<Actor>, d: LogSample, orders: seq<seq<nat>>, s: int, r: int)
    requires InputOk(actors, d, orders) && ENVIRONMENT <= s < |actors| && ENVIRONMENT <= r < |actors|
    ensures var y, letters := Converted(actors, d, orders), LettersBetween(actors, d.messages, s, r, |d.messages|);
            && |y.actors| == |actors|
            && (r >= 0 ==> Leads(LettersFrom(y, r, s), letters, y.payloads))
            && (s >= 0 ==> Leads(LettersTo(y, s, r), letters, y.payloads))
            && (r >= 0 && s >= 0 ==> LettersTo(y, s, r) == LettersFrom(y, r, s))
  {
    var x, gifts := Prepared(d, |actors|), Gifts(actors, d.rewards, orders, |d.rewards|);
    PreparedIsFaithful(actors, d, orders);
    GiftsOk(actors, d.rewards, orders, |d.rewards|);
    GivingKeeps(x, gifts, |gifts|);
    var averaged := Averaged(AllGiven(x, gifts, |gifts|), gifts, Rewarded(actors, d.rewards, orders, |d.rewards|));
    assert Silent(averaged);
    LettersMatch(actors, averaged, d.messages, |d.messages|, s, r);
  }

  // ---- Rewards by name ----

  /** The actor has received exactly these rewards, and has an aggregated reward. */
  ghost predicate RewardedBy(a: ActorSample, sources: seq<Source>) {
    Mirrors(a.rewards.received, sources) && a.reward == Some(Average(sources))
  }

  ghost predicate Unnoticed(a: ActorSample) {
    a.rewards.received == [] && a.reward.None?
  }

  lemma RewardOfOne(a: ActorSample, actors: seq<Actor>, x: Reward, r: nat)
    requires r < |actors| && RewardOf(a, actors, [x], r)
    ensures if Reaches(actors, x.receiver, r) then RewardedBy(a, x.sources) else Unnoticed(a)
  {
    SourcesForOne(actors, x, r);
    ReachedByOne(actors, x, r);
  }

  lemma SourcesForOne(actors: seq<Actor>, x: Reward, r: nat)
    requires r < |actors|
    ensures SourcesFor(actors, [x], r, 1) == if Reaches(actors, x.receiver, r) then x.sources else []
  {
    assert SourcesFor(actors, [x], r, 0) == [];
    assert [] + x.sources == x.sources;
  }

  lemma ReachedByOne(actors: seq<Actor>, x: Reward, r: nat)
    requires r < |actors|
    ensures (exists k: nat :: k < |[x]| && ReachedBy(actors, [x], k, r)) <==> Reaches(actors, x.receiver, r)
  {
    assert ReachedBy(actors, [x], 0, r) <==> Reaches(actors, x.receiver, r);
  }

  lemma OneReward(actors: seq<Actor>, d: LogSample, orders: seq<seq<nat>>, name: string, sources: seq<Source>, r: nat)
    requires InputOk(actors, d, orders) && d.rewards == [Reward(name, sources)] && r < |actors|
    ensures var y := Converted(actors, d, orders);
            && |y.actors| == |actors|
            && if Reaches(actors, name, r) then RewardedBy(y.actors[r], sources) else Unnoticed(y.actors[r])
  {
    RewardsAreAverages(actors, d, orders, r);
    RewardOfOne(Converted(actors, d, orders).actors[r], actors, Reward(name, sources), r);
  }

  /** A reward for a class and a name goes to the actors of the class, all of them when the name is "*". */
  lemma RewardByClass(
    actors: seq<Actor>, d: LogSample, orders: seq<seq<nat>>, class_: string, actor: string, sources: seq<Source>,
        r: nat)
    requires InputOk(actors, d, orders) && d.rewards == [Reward(class_ + "." + actor, sources)] && r < |actors|
    requires '.' !in class_ && '.' !in actor && class_ + "." + actor != "*.*"
    ensures var a := Converted(actors, d, orders).actors[r];
            if actors[r].class_ == class_ && (actor == "*" || actors[r].name == actor) then RewardedBy(a, sources)
            else Unnoticed(a)
  {
    OneReward(actors, d, orders, class_ + "." + actor, sources, r);
    ClassReaches(actors, class_, actor, r);
  }

  /** A reward for a name goes to the actor of that name, or to everyone. */
  lemma RewardByName(
    actors: seq<Actor>, d: LogSample, orders: seq<seq<nat>>, name: string, sources: seq<Source>, r: nat)
    requires InputOk(actors, d, orders) && d.rewards == [Reward(name, sources)] && r < |actors|
    requires '.' !in name || name == "*.*"
    ensures var a := Converted(actors, d, orders).actors[r];
            if name == "*" || name == "*.*" || actors[r].name == name then RewardedBy(a, sources) else Unnoticed(a)
  {
    OneReward(actors, d, orders, name, sources, r);
    if '.' !in name {
      NameReaches(actors, name, r);
    }
  }
}
