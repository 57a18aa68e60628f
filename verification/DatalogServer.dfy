/** The conversion as the server runs it: loops that append to the pool of payloads and to the lists of the actors. */
module DatalogServer {
  import opened Common
  import opened StoredSamples
  import opened DatalogConversion

  // ---- Lists of gifts put together ----

  lemma FitTogether(a: seq<Gift>, b: seq<Gift>, n: nat)
    requires GiftsFit(a, n) && GiftsFit(b, n)
    ensures GiftsFit(a + b, n)
  {
  }

  lemma {:induction false} GivenInTurn(x: StoredSample, a: seq<Gift>, b: seq<Gift>, n: nat)
    requires n <= |b| && GiftsFit(a, |x.actors|) && GiftsFit(b, |x.actors|) && GiftsFit(a + b, |x.actors|)
    ensures AllGiven(x, a + b, |a| + n) == AllGiven(AllGiven(x, a, |a|), b, n)
  {
    if n == 0 {
      GivenPrefix(x, a, b, |a|);
    } else {
      GivenInTurn(x, a, b, n - 1);
      assert (a + b)[|a| + n - 1] == b[n - 1];
    }
  }

  lemma {:induction false} GivenPrefix(x: StoredSample, a: seq<Gift>, b: seq<Gift>, n: nat)
    requires n <= |a| && GiftsFit(a, |x.actors|) && GiftsFit(a + b, |x.actors|)
    ensures AllGiven(x, a + b, n) == AllGiven(x, a, n)
  {
    if n > 0 {
      GivenPrefix(x, a, b, n - 1);
    }
  }

  lemma GivenAddOne(x: StoredSample, gifts: seq<Gift>, g: Gift)
    requires GiftsFit(gifts, |x.actors|) && GiftOk(g, |x.actors|)
    ensures GiftsFit(gifts + [g], |x.actors|)
    ensures AllGiven(x, gifts + [g], |gifts| + 1) == Given(AllGiven(x, gifts, |gifts|), g)
  {
    FitTogether(gifts, [g], |x.actors|);
    GivenPrefix(x, gifts, [g], |gifts|);
  }

  // ---- The accumulator of rewards ----

  function SourcesAt(acc: map<nat, seq<Source>>, r: nat): seq<Source> {
    if r in acc then acc[r] else []
  }

  ghost predicate GatheredFor(acc: map<nat, seq<Source>>, gifts: seq<Gift>, r: nat) {
    SourcesAt(acc, r) == SourcesTo(gifts, r, |gifts|)
  }

  /** The sources gathered for each rewarded actor. */
  ghost predicate Gathered(acc: map<nat, seq<Source>>, gifts: seq<Gift>, rewarded: set<nat>) {
    acc.Keys == rewarded && forall r: nat :: GatheredFor(acc, gifts, r)
  }

  lemma GatheredMoreFor(
    acc: map<nat, seq<Source>>, gifts: seq<Gift>, more: seq<Gift>, sources: seq<Source>, receiver: nat, r: nat)
    requires GatheredFor(acc, gifts, r)
    requires SourcesTo(more, r, |more|) == if r == receiver then sources else []
    ensures GatheredFor(acc[receiver := SourcesAt(acc, receiver) + sources], gifts + more, r)
  {
    SourcesOfMore(gifts, more, sources, r, r == receiver);
  }

  lemma GatheredMore(
    actors: seq<Actor>, acc: map<nat, seq<Source>>, gifts: seq<Gift>, rewarded: set<nat>, sources: seq<Source>,
    receiver: nat)
    requires Gathered(acc, gifts, rewarded)
    ensures Gathered(acc[receiver := SourcesAt(acc, receiver) + sources],
                     gifts + GiftsOfSources(actors, sources, receiver, |sources|), rewarded + {receiver})
  {
    var after := acc[receiver := SourcesAt(acc, receiver) + sources];
    var more := GiftsOfSources(actors, sources, receiver, |sources|);
    forall r: nat ensures GatheredFor(after, gifts + more, r) {
      assert GatheredFor(acc, gifts, r);
      SourcesAreFor(actors, sources, receiver, r);
      GatheredMoreFor(acc, gifts, more, sources, receiver, r);
    }
  }

  // ---- The loops ----

  method StoreObservations(before: StoredSample, o: Observations) returns (sample: StoredSample)
    requires before.payloads == [] && |o.actorsMap| <= |before.actors|
    requires forall i | 0 <= i < |o.actorsMap| :: o.actorsMap[i] < |o.data|
    ensures sample == Observed(before, o)
  {
    sample := before;
    var payloadIndexFromObsIndex := new nat[|o.data|];
    var obsIndex := 0;
    while obsIndex < |o.data|
      invariant 0 <= obsIndex <= |o.data|
      invariant sample == before.(payloads := o.data[..obsIndex])
      invariant forall k | 0 <= k < obsIndex :: payloadIndexFromObsIndex[k] == k
    {
      payloadIndexFromObsIndex[obsIndex] := |sample.payloads|;
      assert o.data[..obsIndex + 1] == o.data[..obsIndex] + [o.data[obsIndex]];
      sample := sample.(payloads := sample.payloads + [o.data[obsIndex]]);
      obsIndex := obsIndex + 1;
    }
    assert o.data[..obsIndex] == o.data;
    var actorIndex := 0;
    while actorIndex < |o.actorsMap|
      invariant 0 <= actorIndex <= |o.actorsMap| && |sample.actors| == |before.actors|
      invariant sample.info == before.info && sample.payloads == o.data
      invariant forall k | 0 <= k < actorIndex ::
                sample.actors[k] == before.actors[k].(observation := Some(o.actorsMap[k]))
      invariant forall k | actorIndex <= k < |before.actors| :: sample.actors[k] == before.actors[k]
    {
      var ref := payloadIndexFromObsIndex[o.actorsMap[actorIndex]];
      sample := sample.(actors := sample.actors[actorIndex := sample.actors[actorIndex].(observation := Some(ref))]);
      actorIndex := actorIndex + 1;
    }
    assert sample.actors == Observed(before, o).actors;
  }

  method StoreActions(before: StoredSample, actions: seq<bytes>) returns (sample: StoredSample)
    requires |actions| <= |before.actors|
    ensures sample == Acted(before, actions)
  {
    sample := before;
    var actorIndex := 0;
    while actorIndex < |actions|
      invariant 0 <= actorIndex <= |actions| && |sample.actors| == |before.actors|
      invariant sample.info == before.info && sample.payloads == before.payloads + actions[..actorIndex]
      invariant forall k | 0 <= k < actorIndex ::
                sample.actors[k] == before.actors[k].(action := Some(|before.payloads| + k))
      invariant forall k | actorIndex <= k < |before.actors| :: sample.actors[k] == before.actors[k]
    {
      var payloadIndex := |sample.payloads|;
      assert actions[..actorIndex + 1] == actions[..actorIndex] + [actions[actorIndex]];
      sample := sample.(payloads := sample.payloads + [actions[actorIndex]],
                        actors := sample.actors[actorIndex :=
                            sample.actors[actorIndex].(action := Some(payloadIndex))]);
      actorIndex := actorIndex + 1;
    }
    assert actions[..actorIndex] == actions;
    assert sample.actors == Acted(before, actions).actors;
  }

  /** The receivers that a name stands for. */
  method Expand(actors: seq<Actor>, name: string, everyone: seq<nat>) returns (indices: seq<nat>)
    ensures indices == Receivers(actors, name, everyone)
  {
    indices := [];
    if IsEveryone(name) {
      for k := 0 to |everyone|
        invariant indices == everyone[..k]
      {
        assert everyone[..k + 1] == everyone[..k] + [everyone[k]];
        indices := indices + [everyone[k]];
      }
      assert everyone[..|everyone|] == everyone;
    } else if Split(name).Some? {
      var (className, actorName) := Split(name).value;
      for index := 0 to |actors|
        invariant indices == OfClass(actors, className, actorName, index)
      {
        if actors[index].class_ == className && (actorName == "*" || actorName == actors[index].name) {
          indices := indices + [index];
        }
      }
    } else {
      var index := FindActor(actors, name);
      if index.Some? {
        indices := indices + [index.value];
      }
    }
  }

  /** One source for one receiver. */
  method StoreSource(actors: seq<Actor>, before: StoredSample, source: Source, receiver: nat)
    returns (sample: StoredSample)
    requires receiver < |before.actors| == |actors|
    ensures sample == Given(before, GiftOf(actors, source, receiver))
  {
    var payloadIndex: Option<nat> := None;
    sample := before;
    if |source.userData| > 0 {
      payloadIndex := Some(|sample.payloads|);
      sample := sample.(payloads := sample.payloads + [source.userData]);
    }
    var sender := IndexOf(actors, source.sender);
    var a := sample.actors[receiver];
    sample := sample.(actors := sample.actors[receiver := a.(rewards :=
      Rewards(a.rewards.received + [StoredReward(sender, 0, source.value, source.confidence, payloadIndex)],
              a.rewards.sent))]);
    if sender >= 0 {
      var b := sample.actors[sender];
      sample := sample.(actors := sample.actors[sender := b.(rewards :=
        Rewards(b.rewards.received,
                b.rewards.sent + [StoredReward(0, receiver, source.value, source.confidence, payloadIndex)]))]);
    }
  }

  /** The first `k` sources have been given to the receiver. */
  ghost predicate SourcesGiven(
    actors: seq<Actor>, x: StoredSample, y: StoredSample, sources: seq<Source>, receiver: nat, k: nat)
    requires k <= |sources|
  {
    var gifts := GiftsOfSources(actors, sources, receiver, k);
    |y.actors| == |x.actors| && GiftsFit(gifts, |x.actors|) && y == AllGiven(x, gifts, |gifts|)
  }

  lemma GivenOneMore(
    actors: seq<Actor>, x: StoredSample, y: StoredSample, sources: seq<Source>, receiver: nat, k: nat)
    requires k < |sources| && receiver < |x.actors| == |actors| && SourcesGiven(actors, x, y, sources, receiver, k)
    ensures SourcesGiven(actors, x, Given(y, GiftOf(actors, sources[k], receiver)), sources, receiver, k + 1)
  {
    GivenAddOne(x, GiftsOfSources(actors, sources, receiver, k), GiftOf(actors, sources[k], receiver));
  }

  /** All sources of a reward for one receiver, gathered for its aggregation. */
  method StoreSources(
    actors: seq<Actor>, before: StoredSample, sources: seq<Source>, receiver: nat, accBefore: map<nat, seq<Source>>)
    returns (sample: StoredSample, acc: map<nat, seq<Source>>)
    requires receiver < |before.actors| == |actors|
    ensures var gifts := GiftsOfSources(actors, sources, receiver, |sources|);
            && GiftsFit(gifts, |before.actors|)
            && sample == AllGiven(before, gifts, |gifts|)
    ensures acc == accBefore[receiver := SourcesAt(accBefore, receiver) + sources]
  {
    sample := before;
    var gathered := SourcesAt(accBefore, receiver);
    acc := accBefore[receiver := gathered];
    var k := 0;
    while k < |sources|
      invariant 0 <= k <= |sources| && SourcesGiven(actors, before, sample, sources, receiver, k)
      invariant gathered == SourcesAt(accBefore, receiver) + sources[..k]
      invariant acc == accBefore[receiver := gathered]
    {
      GivenOneMore(actors, before, sample, sources, receiver, k);
      assert sources[..k + 1] == sources[..k] + [sources[k]];
      gathered := gathered + [sources[k]];
      acc := accBefore[receiver := gathered];
      sample := StoreSource(actors, sample, sources[k], receiver);
      k := k + 1;
    }
    assert sources[..k] == sources;
  }

  /** The state of the loops: these gifts have been given, for these rewarded actors. */
  ghost predicate Stored(
    x: StoredSample, y: StoredSample, acc: map<nat, seq<Source>>, gifts: seq<Gift>, rewarded: set<nat>)
  {
    && GiftsFit(gifts, |x.actors|)
    && y == AllGiven(x, gifts, |gifts|)
    && Gathered(acc, gifts, rewarded)
  }

  lemma StoredMore(
    actors: seq<Actor>, x: StoredSample, y: StoredSample, acc: map<nat, seq<Source>>, gifts: seq<Gift>,
    rewarded: set<nat>,
    sources: seq<Source>, receiver: nat)
    requires Stored(x, y, acc, gifts, rewarded) && receiver < |actors| == |x.actors|
    ensures var more := GiftsOfSources(actors, sources, receiver, |sources|);
            && GiftsFit(more, |y.actors|)
            && Stored(x, AllGiven(y, more, |more|), acc[receiver := SourcesAt(acc, receiver) + sources],
                      gifts + more, rewarded + {receiver})
  {
    SourceGiftsOk(actors, sources, receiver, |sources|);
    GivenMore(x, y, gifts, GiftsOfSources(actors, sources, receiver, |sources|));
    GatheredMore(actors, acc, gifts, rewarded, sources, receiver);
  }

  lemma GivenMore(x: StoredSample, y: StoredSample, gifts: seq<Gift>, more: seq<Gift>)
    requires GiftsFit(gifts, |x.actors|) && y == AllGiven(x, gifts, |gifts|) && GiftsFit(more, |x.actors|)
    ensures GiftsFit(gifts + more, |x.actors|)
    ensures AllGiven(y, more, |more|) == AllGiven(x, gifts + more, |gifts + more|)
  {
    FitTogether(gifts, more, |x.actors|);
    GivenInTurn(x, gifts, more, |more|);
  }

  method StoreReward(
    actors: seq<Actor>, ghost x: StoredSample, before: StoredSample, sources: seq<Source>, receivers: seq<nat>,
    accBefore: map<nat, seq<Source>>, ghost gifts: seq<Gift>, ghost rewarded: set<nat>)
    returns (sample: StoredSample, acc: map<nat, seq<Source>>)
    requires |x.actors| == |actors| && Stored(x, before, accBefore, gifts, rewarded)
    requires AllBelow(receivers, |actors|)
    ensures Stored(x, sample, acc, gifts + GiftsToReceivers(actors, sources, receivers, |receivers|),
                   rewarded + ToSet(receivers))
  {
    sample, acc := before, accBefore;
    assert gifts + [] == gifts && rewarded + {} == rewarded;
    var k := 0;
    while k < |receivers|
      invariant 0 <= k <= |receivers|
      invariant Stored(x, sample, acc, gifts + GiftsToReceivers(actors, sources, receivers, k),
                       rewarded + ToSet(receivers[..k]))
    {
      StoredMore(actors, x, sample, acc, gifts + GiftsToReceivers(actors, sources, receivers, k),
                 rewarded + ToSet(receivers[..k]), sources, receivers[k]);
      OneMoreReceiver(actors, sources, receivers, k, gifts, rewarded);
      sample, acc := StoreSources(actors, sample, sources, receivers[k], acc);
      k := k + 1;
    }
    assert receivers[..k] == receivers;
  }

  lemma OneMoreReceiver(
    actors: seq<Actor>, sources: seq<Source>, receivers: seq<nat>, k: nat, gifts: seq<Gift>, rewarded: set<nat>)
    requires k < |receivers|
    ensures gifts + GiftsToReceivers(actors, sources, receivers, k + 1) ==
            gifts + GiftsToReceivers(actors, sources, receivers, k)
                + GiftsOfSources(actors, sources, receivers[k], |sources|)
    ensures rewarded + ToSet(receivers[..k + 1]) == rewarded + ToSet(receivers[..k]) + {receivers[k]}
  {
    assert receivers[..k + 1] == receivers[..k] + [receivers[k]];
  }

  method StoreNamedReward(
    actors: seq<Actor>, ghost x: StoredSample, before: StoredSample, reward: Reward, everyone: seq<nat>,
    accBefore: map<nat, seq<Source>>, ghost gifts: seq<Gift>, ghost rewarded: set<nat>)
    returns (sample: StoredSample, acc: map<nat, seq<Source>>)
    requires |x.actors| == |actors| && AllBelow(everyone, |actors|) && Stored(x, before, accBefore, gifts, rewarded)
    ensures var receivers := Receivers(actors, reward.receiver, everyone);
            Stored(x, sample, acc, gifts + GiftsToReceivers(actors, reward.sources, receivers, |receivers|),
                   rewarded + ToSet(receivers))
  {
    var receivers := Expand(actors, reward.receiver, everyone);
    ReceiversOk(actors, reward.receiver, everyone);
    sample, acc := StoreReward(actors, x, before, reward.sources, receivers, accBefore, gifts, rewarded);
  }

  lemma NothingStored(x: StoredSample)
    ensures Stored(x, x, map[], [], {})
  {
    forall r: nat ensures GatheredFor(map[], [], r) {
    }
  }

  lemma OneMoreReward(actors: seq<Actor>, rewards: seq<Reward>, orders: seq<seq<nat>>, k: nat)
    requires k < |rewards| == |orders|
    ensures var receivers := Receivers(actors, rewards[k].receiver, orders[k]);
            && Gifts(actors, rewards, orders, k + 1) ==
                 Gifts(actors, rewards, orders, k)
                     + GiftsToReceivers(actors, rewards[k].sources, receivers, |receivers|)
            && Rewarded(actors, rewards, orders, k + 1) == Rewarded(actors, rewards, orders, k) + ToSet(receivers)
  {
  }

  /** The first `k` rewards have been stored. */
  ghost predicate RewardsStored(
    actors: seq<Actor>, x: StoredSample, y: StoredSample, acc: map<nat, seq<Source>>,
    rewards: seq<Reward>, orders: seq<seq<nat>>, k: nat)
    requires k <= |rewards| == |orders|
  {
    Stored(x, y, acc, Gifts(actors, rewards, orders, k), Rewarded(actors, rewards, orders, k))
  }

  method StoreNextReward(
    actors: seq<Actor>, ghost x: StoredSample, before: StoredSample, rewards: seq<Reward>, orders: seq<seq<nat>>,
    k: nat, accBefore: map<nat, seq<Source>>)
    returns (sample: StoredSample, acc: map<nat, seq<Source>>)
    requires |x.actors| == |actors| && k < |rewards| == |orders| && AllBelow(orders[k], |actors|)
    requires RewardsStored(actors, x, before, accBefore, rewards, orders, k)
    ensures RewardsStored(actors, x, sample, acc, rewards, orders, k + 1)
  {
    ghost var gifts, rewarded := Gifts(actors, rewards, orders, k), Rewarded(actors, rewards, orders, k);
    OneMoreReward(actors, rewards, orders, k);
    sample, acc := StoreNamedReward(actors, x, before, rewards[k], orders[k], accBefore, gifts, rewarded);
  }

  method StoreRewards(actors: seq<Actor>, before: StoredSample, rewards: seq<Reward>, orders: seq<seq<nat>>)
    returns (sample: StoredSample, acc: map<nat, seq<Source>>)
    requires |before.actors| == |actors| && |orders| == |rewards|
    requires forall k | 0 <= k < |orders| :: AllBelow(orders[k], |actors|)
    ensures Stored(before, sample, acc, Gifts(actors, rewards, orders, |rewards|),
                   Rewarded(actors, rewards, orders, |rewards|))
  {
    sample, acc := before, map[];
    NothingStored(before);
    var k := 0;
    while k < |rewards|
      invariant 0 <= k <= |rewards| && RewardsStored(actors, before, sample, acc, rewards, orders, k)
    {
      sample, acc := StoreNextReward(actors, before, sample, rewards, orders, k, acc);
      k := k + 1;
    }
  }

  method WeightedAverage(sources: seq<Source>) returns (value: real)
    ensures value == Average(sources)
  {
    value := 0.0;
    var confidence := 0.0;
    for k := 0 to |sources|
      invariant value == WeightedSum(sources, k) && confidence == ConfidenceSum(sources, k)
    {
      if sources[k].confidence > 0.0 {
        value := value + sources[k].value * sources[k].confidence;
        confidence := confidence + sources[k].confidence;
      }
    }
    if confidence > 0.0 {
      value := value / confidence;
    }
  }

  /** The aggregated rewards, in whatever order the accumulator is iterated. */
  method StoreAverages(before: StoredSample, acc: map<nat, seq<Source>>, ghost gifts: seq<Gift>)
    returns (sample: StoredSample)
    requires Gathered(acc, gifts, acc.Keys) && forall r | r in acc :: r < |before.actors|
    ensures sample == Averaged(before, gifts, acc.Keys)
  {
    sample := before;
    var todo := acc.Keys;
    while todo != {}
      invariant todo <= acc.Keys
      invariant sample == Averaged(before, gifts, acc.Keys - todo)
      decreases |todo|
    {
      var r :| r in todo;
      assert GatheredFor(acc, gifts, r);
      var average := WeightedAverage(acc[r]);
      ghost var previous := sample;
      sample := sample.(actors := sample.actors[r := sample.actors[r].(reward := Some(average))]);
      todo := todo - {r};
      AveragedMore(before, previous, sample, gifts, acc.Keys - todo, r);
    }
    assert acc.Keys - todo == acc.Keys;
    NoneAveraged(before, gifts);
  }

  lemma AveragedMore(
    before: StoredSample, x: StoredSample, y: StoredSample, gifts: seq<Gift>, rewarded: set<nat>, r: nat)
    requires r < |before.actors| && r in rewarded && x == Averaged(before, gifts, rewarded - {r})
    requires y == x.(actors := x.actors[r := x.actors[r].(reward := Some(Average(SourcesTo(gifts, r, |gifts|))))])
    ensures y == Averaged(before, gifts, rewarded)
  {
    assert y.actors == Averaged(before, gifts, rewarded).actors;
  }

  lemma NoneAveraged(before: StoredSample, gifts: seq<Gift>)
    ensures Averaged(before, gifts, {}) == before
  {
    assert Averaged(before, gifts, {}).actors == before.actors;
  }

  method StoreMessages(actors: seq<Actor>, before: StoredSample, messages: seq<Message>) returns (sample: StoredSample)
    requires |before.actors| == |actors|
    ensures sample == AllPosted(actors, before, messages, |messages|)
  {
    sample := before;
    for k := 0 to |messages|
      invariant sample == AllPosted(actors, before, messages, k)
    {
      sample := StoreMessage(actors, sample, messages[k]);
    }
  }

  method StoreMessage(actors: seq<Actor>, before: StoredSample, m: Message) returns (sample: StoredSample)
    requires |before.actors| == |actors|
    ensures sample == Posted(before, IndexOf(actors, m.sender), IndexOf(actors, m.receiver), m.payload)
  {
    var payloadIndex := |before.payloads|;
    sample := before.(payloads := before.payloads + [m.payload]);
    var receiver, sender := IndexOf(actors, m.receiver), IndexOf(actors, m.sender);
    if receiver >= 0 {
      var a := sample.actors[receiver];
      sample := sample.(actors := sample.actors[receiver := a.(messages :=
        Messages(a.messages.received + [StoredMessage(sender, 0, payloadIndex)], a.messages.sent))]);
    }
    if sender >= 0 {
      var b := sample.actors[sender];
      sample := sample.(actors := sample.actors[sender := b.(messages :=
        Messages(b.messages.received, b.messages.sent + [StoredMessage(0, receiver, payloadIndex)]))]);
    }
  }

  method NewActorSamples(info: Info, n: nat) returns (sample: StoredSample)
    ensures sample == NewSample(info, n)
  {
    var actors: seq<ActorSample> := [];
    while |actors| < n
      invariant |actors| <= n
      invariant forall i: nat | i < |actors| ::
        actors[i] == ActorSample(i, None, None, None, Rewards([], []), Messages([], []))
    {
      actors := actors + [ActorSample(|actors|, None, None, None, Rewards([], []), Messages([], []))];
    }
    assert actors == NewSample(info, n).actors;
    sample := StoredSample(info, actors, []);
  }

  /** `orders[k]` is the order in which the k-th reward meets all actors, should it be for everyone. */
  method TrialSampleFromDatalogSample(actors: seq<Actor>, d: LogSample, orders: seq<seq<nat>>)
    returns (sample: StoredSample)
    requires InputOk(actors, d, orders)
    ensures sample == Converted(actors, d, orders)
  {
    sample := NewActorSamples(d.info, |actors|);
    if d.observations.Some? {
      sample := StoreObservations(sample, d.observations.value);
    }
    sample := StoreActions(sample, d.actions);
    ghost var gifts := Gifts(actors, d.rewards, orders, |d.rewards|);
    GiftsOk(actors, d.rewards, orders, |d.rewards|);
    var acc: map<nat, seq<Source>>;
    sample, acc := StoreRewards(actors, sample, d.rewards, orders);
    RewardedAreActors(actors, d.rewards, orders, |d.rewards|);
    sample := StoreAverages(sample, acc, gifts);
    sample := StoreMessages(actors, sample, d.messages);
  }

  lemma {:induction false} RewardedAreActors(actors: seq<Actor>, rewards: seq<Reward>, orders: seq<seq<nat>>, n: nat)
    requires n <= |rewards| == |orders| && forall k | 0 <= k < |orders| :: AllBelow(orders[k], |actors|)
    ensures forall r | r in Rewarded(actors, rewards, orders, n) :: r < |actors|
  {
    if n > 0 {
      RewardedAreActors(actors, rewards, orders, n - 1);
      ReceiversOk(actors, rewards[n - 1].receiver, orders[n - 1]);
    }
  }
}
