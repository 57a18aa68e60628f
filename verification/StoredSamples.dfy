/** A sample as the datastore keeps it: per actor, references to payloads that are pooled in the sample. */
module StoredSamples {
  import opened Common

  /** `userData` is a reference to a payload. */
  datatype StoredReward = StoredReward(sender: int, receiver: int, value: real, confidence: real, userData: Option<nat>)

  datatype StoredMessage = StoredMessage(sender: int, receiver: int, payload: nat)

  datatype Rewards = Rewards(received: seq<StoredReward>, sent: seq<StoredReward>)

  datatype Messages = Messages(received: seq<StoredMessage>, sent: seq<StoredMessage>)

  /** `observation` and `action` are references to payloads. */
  datatype ActorSample = ActorSample(
    actor: nat, observation: Option<nat>, action: Option<nat>, reward: Option<real>,
    rewards: Rewards, messages: Messages)

  /** What a filter never removes. */
  datatype Info = Info(userID: string, trialID: string, tick: nat, timestamp: nat, state: int)

  datatype StoredSample = StoredSample(info: Info, actors: seq<ActorSample>, payloads: seq<bytes>)

  predicate RefOk(ref: Option<nat>, n: nat) {
    ref.Some? ==> ref.value < n
  }

  predicate RewardRefsOk(rewards: seq<StoredReward>, n: nat) {
    forall i | 0 <= i < |rewards| :: RefOk(rewards[i].userData, n)
  }

  predicate MessageRefsOk(messages: seq<StoredMessage>, n: nat) {
    forall i | 0 <= i < |messages| :: messages[i].payload < n
  }

  predicate ActorRefsOk(a: ActorSample, n: nat) {
    && RefOk(a.observation, n) && RefOk(a.action, n)
    && RewardRefsOk(a.rewards.received, n) && RewardRefsOk(a.rewards.sent, n)
    && MessageRefsOk(a.messages.received, n) && MessageRefsOk(a.messages.sent, n)
  }

  /** Every reference is to a payload of the sample. */
  predicate RefsOk(x: StoredSample) {
    forall i | 0 <= i < |x.actors| :: ActorRefsOk(x.actors[i], |x.payloads|)
  }
}
