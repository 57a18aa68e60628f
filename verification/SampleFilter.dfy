/** The filter of stored samples: which actors and fields are kept, and with them which payloads. */
module SampleFilters {
  import opened Common
  import opened StoredSamples

  datatype ActorParams = ActorParams(name: string, class_: string, implementation: string)

  /** An empty set, or an empty list of fields, asks for everything. */
  datatype TrialSampleFilter = TrialSampleFilter(
    actorNames: set<string>, actorClasses: set<string>, actorImplementations: set<string>, fields: seq<nat>)

  const UNKNOWN: nat := 0
  const OBSERVATION: nat := 1
  const ACTION: nat := 2
  const REWARD: nat := 3
  const RECEIVED_REWARDS: nat := 4
  const SENT_REWARDS: nat := 5
  const RECEIVED_MESSAGES: nat := 6
  const SENT_MESSAGES: nat := 7
  const NB_FIELDS: nat := 8

  // ---- Filters ----

  predicate SelectsID(ids: set<string>, id: string) {
    ids == {} || id in ids
  }

  predicate SelectsActor(f: TrialSampleFilter, a: ActorParams) {
    && SelectsID(f.actorNames, a.name)
    && SelectsID(f.actorClasses, a.class_)
    && SelectsID(f.actorImplementations, a.implementation)
  }

  function ActorsFilter(f: TrialSampleFilter, actors: seq<ActorParams>): (s: seq<bool>)
    ensures |s| == |actors|
  {
    seq(|actors|, i requires 0 <= i < |actors| => SelectsActor(f, actors[i]))
  }

  /** The slot of the unknown field is never set by a list of fields. */
  function FieldsFilter(fields: seq<nat>): (s: seq<bool>)
    ensures |s| == NB_FIELDS
  {
    seq(NB_FIELDS, i requires 0 <= i < NB_FIELDS => fields == [] || (i != UNKNOWN && i in fields))
  }

  predicate All(s: seq<bool>) {
    forall i | 0 <= i < |s| :: s[i]
  }

  /** The filter applied to a trial. */
  datatype Applied = Applied(actors: seq<bool>, fields: seq<bool>) {
    predicate SelectsAll() {
      All(actors) && All(fields)
    }
  }

  predicate AppliedOk(f: Applied) {
    |f.fields| == NB_FIELDS
  }

  /** Every actor of the sample is one of the trial, and every reference is in bounds. */
  predicate SampleOk(x: StoredSample, nbActors: nat) {
    RefsOk(x) && Indexed(x.actors, nbActors)
  }

  /** All fields can be asked for in two ways, and only one of them is the shortcut. */
  lemma ShortcutOnlyWithoutFields(fields: seq<nat>)
    ensures All(FieldsFilter(fields)) <==> fields == []
  {
    assert fields != [] ==> !FieldsFilter(fields)[UNKNOWN];
  }

  // ---- References ----

  ghost function RefSet(ref: Option<nat>): set<nat> {
    if ref.Some? then {ref.value} else {}
  }

  ghost function RewardRefs(rewards: seq<StoredReward>): set<nat> {
    set i | 0 <= i < |rewards| && rewards[i].userData.Some? :: rewards[i].userData.value
  }

  ghost function MessageRefs(messages: seq<StoredMessage>): set<nat> {
    set i | 0 <= i < |messages| :: messages[i].payload
  }

  ghost function RefsOf(a: ActorSample): set<nat> {
    RefSet(a.observation) + RefSet(a.action)
    + RewardRefs(a.rewards.received) + RewardRefs(a.rewards.sent)
    + MessageRefs(a.messages.received) + MessageRefs(a.messages.sent)
  }

  /** The payloads that the actors refer to. */
  ghost function AllRefs(actors: seq<ActorSample>): set<nat> {
    set i, p | 0 <= i < |actors| && p in RefsOf(actors[i]) :: p
  }

  // ---- Filtering ----

  /** The fields of an actor that are kept. */
  function FilteredActor(a: ActorSample, fields: seq<bool>): ActorSample
    requires |fields| == NB_FIELDS
  {
    ActorSample(
      a.actor,
      if fields[OBSERVATION] then a.observation else None,
      if fields[ACTION] then a.action else None,
      if fields[REWARD] then a.reward else None,
      Rewards(if fields[RECEIVED_REWARDS] then a.rewards.received else [],
              if fields[SENT_REWARDS] then a.rewards.sent else []),
      Messages(if fields[RECEIVED_MESSAGES] then a.messages.received else [],
               if fields[SENT_MESSAGES] then a.messages.sent else []))
  }

  predicate Indexed(actors: seq<ActorSample>, nbActors: nat) {
    forall i | 0 <= i < |actors| :: actors[i].actor < nbActors
  }

  /** The first `n` actors, once those not selected are gone. */
  function FilteredActors(actors: seq<ActorSample>, f: Applied, n: nat): seq<ActorSample>
    requires AppliedOk(f) && n <= |actors| && Indexed(actors, |f.actors|)
  {
    if n == 0 then []
    else if f.actors[actors[n - 1].actor] then
      FilteredActors(actors, f, n - 1) + [FilteredActor(actors[n - 1], f.fields)]
    else FilteredActors(actors, f, n - 1)
  }

  /** The payloads referred to stay where they are; the others become empty. */
  ghost function Keep(payloads: seq<bytes>, refs: set<nat>): (kept: seq<bytes>)
    ensures |kept| == |payloads|
  {
    seq(|payloads|, p requires 0 <= p < |payloads| => if p in refs then payloads[p] else [])
  }

  ghost function Filtered(x: StoredSample, f: Applied): StoredSample
    requires AppliedOk(f) && SampleOk(x, |f.actors|)
  {
    if f.SelectsAll() then x
    else
      var actors := FilteredActors(x.actors, f, |x.actors|);
      StoredSample(x.info, actors, Keep(x.payloads, AllRefs(actors)))
  }

  // ---- References stay valid ----

  lemma FilteredActorRefs(a: ActorSample, fields: seq<bool>, n: nat)
    requires |fields| == NB_FIELDS && ActorRefsOk(a, n)
    ensures ActorRefsOk(FilteredActor(a, fields), n)
  {
  }

  predicate ActorOk(a: ActorSample, nbPayloads: nat, nbActors: nat) {
    ActorRefsOk(a, nbPayloads) && a.actor < nbActors
  }

  ghost predicate ActorsOk(actors: seq<ActorSample>, nbPayloads: nat, nbActors: nat) {
    forall i | 0 <= i < |actors| :: ActorOk(actors[i], nbPayloads, nbActors)
  }

  lemma {:induction false} FilteredActorsOk(x: StoredSample, f: Applied, n: nat)
    requires AppliedOk(f) && SampleOk(x, |f.actors|) && n <= |x.actors|
    ensures ActorsOk(FilteredActors(x.actors, f, n), |x.payloads|, |f.actors|)
  {
    if n > 0 {
      FilteredActorsOk(x, f, n - 1);
      FilteredActorRefs(x.actors[n - 1], f.fields, |x.payloads|);
      var front := FilteredActors(x.actors, f, n - 1);
      assert ActorOk(FilteredActor(x.actors[n - 1], f.fields), |x.payloads|, |f.actors|);
      assert forall i | 0 <= i < |front| :: ActorOk(front[i], |x.payloads|, |f.actors|);
    }
  }

  lemma FilteredIsOk(x: StoredSample, f: Applied)
    requires AppliedOk(f) && SampleOk(x, |f.actors|)
    ensures SampleOk(Filtered(x, f), |f.actors|)
  {
    FilteredActorsOk(x, f, |x.actors|);
    var y := Filtered(x, f);
    forall i | 0 <= i < |y.actors| ensures ActorOk(y.actors[i], |y.payloads|, |f.actors|) {
    }
  }

  /**
   * A filtered sample is well formed, keeps its information, and every reference in it leads to the same bytes as
   * before; and, but for the shortcut, a payload that no field kept refers to is gone.
   */
  lemma FilterKeepsReferences(x: StoredSample, f: Applied, p: nat)
    requires AppliedOk(f) && SampleOk(x, |f.actors|) && p < |x.payloads|
    ensures var y := Filtered(x, f);
            && SampleOk(y, |f.actors|) && y.info == x.info && |y.payloads| == |x.payloads|
            && (ReferredTo(y.actors, p) ==> y.payloads[p] == x.payloads[p])
            && (!f.SelectsAll() && !ReferredTo(y.actors, p) ==> y.payloads[p] == [])
  {
    FilteredIsOk(x, f);
    ReferencesOfAll(Filtered(x, f).actors, p);
  }

  /** A field of the actor is a reference to the payload. */
  ghost predicate Refers(a: ActorSample, p: nat) {
    || a.observation == Some(p) || a.action == Some(p)
    || (exists r :: r in a.rewards.received && r.userData == Some(p))
    || (exists r :: r in a.rewards.sent && r.userData == Some(p))
    || (exists m :: m in a.messages.received && m.payload == p)
    || (exists m :: m in a.messages.sent && m.payload == p)
  }

  ghost predicate ReferredTo(actors: seq<ActorSample>, p: nat) {
    exists i :: 0 <= i < |actors| && Refers(actors[i], p)
  }

  lemma RewardReferences(rewards: seq<StoredReward>, p: nat)
    ensures p in RewardRefs(rewards) <==> exists r :: r in rewards && r.userData == Some(p)
  {
    if p in RewardRefs(rewards) {
      var i :| 0 <= i < |rewards| && rewards[i].userData == Some(p);
      assert rewards[i] in rewards;
    }
    if r :| r in rewards && r.userData == Some(p) {
      var i :| 0 <= i < |rewards| && rewards[i] == r;
    }
  }

  lemma MessageReferences(messages: seq<StoredMessage>, p: nat)
    ensures p in MessageRefs(messages) <==> exists m :: m in messages && m.payload == p
  {
    if p in MessageRefs(messages) {
      var i :| 0 <= i < |messages| && messages[i].payload == p;
      assert messages[i] in messages;
    }
    if m :| m in messages && m.payload == p {
      var i :| 0 <= i < |messages| && messages[i] == m;
    }
  }

  lemma ReferencesOfOne(a: ActorSample, p: nat)
    ensures p in RefsOf(a) <==> Refers(a, p)
  {
    RewardReferences(a.rewards.received, p);
    RewardReferences(a.rewards.sent, p);
    MessageReferences(a.messages.received, p);
    MessageReferences(a.messages.sent, p);
  }

  lemma ReferencesOfAll(actors: seq<ActorSample>, p: nat)
    ensures p in AllRefs(actors) <==> ReferredTo(actors, p)
  {
    forall i | 0 <= i < |actors| ensures p in RefsOf(actors[i]) <==> Refers(actors[i], p) {
      ReferencesOfOne(actors[i], p);
    }
  }

  // ---- What a request keeps ----

  /** The request asks for the field: by naming it, or by naming none. */
  predicate Asks(fields: seq<nat>, field: nat) {
    fields == [] || field in fields
  }

  /** The request asks for the actor. */
  predicate Wants(f: TrialSampleFilter, a: ActorParams) {
    && (f.actorNames == {} || a.name in f.actorNames)
    && (f.actorClasses == {} || a.class_ in f.actorClasses)
    && (f.actorImplementations == {} || a.implementation in f.actorImplementations)
  }

  /** The positions of the actors asked for, in order. */
  ghost function Positions(f: TrialSampleFilter, params: seq<ActorParams>, actors: seq<ActorSample>, n: nat): seq<nat>
    requires n <= |actors| && Indexed(actors, |params|)
  {
    if n == 0 then []
    else if Wants(f, params[actors[n - 1].actor]) then Positions(f, params, actors, n - 1) + [n - 1]
    else Positions(f, params, actors, n - 1)
  }

  lemma {:induction false} PositionsAreThose(
    f: TrialSampleFilter, params: seq<ActorParams>, actors: seq<ActorSample>, n: nat)
    requires n <= |actors| && Indexed(actors, |params|)
    ensures var ps := Positions(f, params, actors, n);
            && (forall i, j | 0 <= i < j < |ps| :: ps[i] < ps[j])
            && (forall p: nat :: p in ps <==> p < n && Wants(f, params[actors[p].actor]))
  {
    if n > 0 {
      PositionsAreThose(f, params, actors, n - 1);
      var ps := Positions(f, params, actors, n - 1);
      assert forall i | 0 <= i < |ps| :: ps[i] in ps;
    }
  }

  /** Each field of the actor is kept when it is asked for, and empty otherwise. */
  ghost predicate KeepsAsked(a: ActorSample, b: ActorSample, fields: seq<nat>) {
    && b.actor == a.actor
    && (if Asks(fields, OBSERVATION) then b.observation == a.observation else b.observation.None?)
    && (if Asks(fields, ACTION) then b.action == a.action else b.action.None?)
    && (if Asks(fields, REWARD) then b.reward == a.reward else b.reward.None?)
    && (if Asks(fields, RECEIVED_REWARDS) then b.rewards.received == a.rewards.received else b.rewards.received == [])
    && (if Asks(fields, SENT_REWARDS) then b.rewards.sent == a.rewards.sent else b.rewards.sent == [])
    && (if Asks(fields, RECEIVED_MESSAGES) then b.messages.received == a.messages.received
        else b.messages.received == [])
    && (if Asks(fields, SENT_MESSAGES) then b.messages.sent == a.messages.sent else b.messages.sent == [])
  }

  lemma FieldsAsked(a: ActorSample, fields: seq<nat>)
    ensures KeepsAsked(a, FilteredActor(a, FieldsFilter(fields)), fields)
  {
    assert forall i | 0 < i < NB_FIELDS :: FieldsFilter(fields)[i] == Asks(fields, i);
  }

  ghost predicate KeepsPositions(xs: seq<ActorSample>, ys: seq<ActorSample>, ps: seq<nat>, fields: seq<nat>) {
    && |ys| == |ps|
    && forall k | 0 <= k < |ps| :: ps[k] < |xs| && KeepsAsked(xs[ps[k]], ys[k], fields)
  }

  lemma {:induction false} ActorsAsked(
    f: TrialSampleFilter, params: seq<ActorParams>, actors: seq<ActorSample>, n: nat)
    requires n <= |actors| && Indexed(actors, |params|)
    ensures var applied := Applied(ActorsFilter(f, params), FieldsFilter(f.fields));
            KeepsPositions(actors, FilteredActors(actors, applied, n), Positions(f, params, actors, n), f.fields)
  {
    if n > 0 {
      ActorsAsked(f, params, actors, n - 1);
      FieldsAsked(actors[n - 1], f.fields);
    }
  }

  lemma {:induction false} AllPositions(
    f: TrialSampleFilter, params: seq<ActorParams>, actors: seq<ActorSample>, n: nat)
    requires n <= |actors| && Indexed(actors, |params|) && All(ActorsFilter(f, params))
    ensures Positions(f, params, actors, n) == Upto(n)
  {
    if n > 0 {
      AllPositions(f, params, actors, n - 1);
      assert ActorsFilter(f, params)[actors[n - 1].actor];
    }
  }

  /**
   * A request keeps exactly the actors that its names, classes and implementations all select, in their order, and of
   * each exactly the fields it asks for; no fields and no names ask for all of them.
   */
  lemma RequestKeepsExactly(x: StoredSample, f: TrialSampleFilter, params: seq<ActorParams>)
    requires SampleOk(x, |params|)
    ensures var y := Filtered(x, Applied(ActorsFilter(f, params), FieldsFilter(f.fields)));
            var ps := Positions(f, params, x.actors, |x.actors|);
            && y.info == x.info
            && (forall p: nat :: p in ps <==> p < |x.actors| && Wants(f, params[x.actors[p].actor]))
            && (forall i, j | 0 <= i < j < |ps| :: ps[i] < ps[j])
            && KeepsPositions(x.actors, y.actors, ps, f.fields)
  {
    PositionsAreThose(f, params, x.actors, |x.actors|);
    if Applied(ActorsFilter(f, params), FieldsFilter(f.fields)).SelectsAll() {
      ShortcutOnlyWithoutFields(f.fields);
      AllPositions(f, params, x.actors, |x.actors|);
    } else {
      ActorsAsked(f, params, x.actors, |x.actors|);
    }
  }

  // ---- Filtering twice ----

  function And(s: seq<bool>, t: seq<bool>): (u: seq<bool>)
    requires |s| == |t|
    ensures |u| == |s|
  {
    seq(|s|, i requires 0 <= i < |s| => s[i] && t[i])
  }

  /** Both filters at once. */
  function Both(f: Applied, g: Applied): Applied
    requires |f.actors| == |g.actors| && |f.fields| == |g.fields|
  {
    Applied(And(f.actors, g.actors), And(f.fields, g.fields))
  }

  lemma FieldsTwice(a: ActorSample, f: seq<bool>, g: seq<bool>)
    requires |f| == |g| == NB_FIELDS
    ensures FilteredActor(FilteredActor(a, f), g) == FilteredActor(a, And(f, g))
  {
  }

  /** Filtering a list with one more actor. */
  lemma {:induction false} FilterMore(actors: seq<ActorSample>, a: ActorSample, f: Applied, n: nat)
    requires AppliedOk(f) && n <= |actors| && Indexed(actors, |f.actors|) && Indexed(actors + [a], |f.actors|)
    ensures FilteredActors(actors + [a], f, n) == FilteredActors(actors, f, n)
  {
    if n > 0 {
      FilterMore(actors, a, f, n - 1);
    }
  }

  lemma {:induction false} ActorsTwice(actors: seq<ActorSample>, f: Applied, g: Applied, n: nat)
    requires AppliedOk(f) && AppliedOk(g) && |f.actors| == |g.actors|
    requires Indexed(actors, |f.actors|) && n <= |actors|
    ensures var ys := FilteredActors(actors, f, n);
            Indexed(ys, |g.actors|) && FilteredActors(ys, g, |ys|) == FilteredActors(actors, Both(f, g), n)
  {
    if n > 0 {
      ActorsTwice(actors, f, g, n - 1);
      if f.actors[actors[n - 1].actor] {
        ActorTwice(FilteredActors(actors, f, n - 1), actors[n - 1], f, g);
      }
    }
  }

  /** One actor more, which the first filter keeps. */
  lemma ActorTwice(ys: seq<ActorSample>, a: ActorSample, f: Applied, g: Applied)
    requires AppliedOk(f) && AppliedOk(g) && Indexed(ys, |g.actors|) && a.actor < |g.actors|
    ensures var more, zs := ys + [FilteredActor(a, f.fields)], FilteredActors(ys, g, |ys|);
            && Indexed(more, |g.actors|)
            && FilteredActors(more, g, |more|) ==
                 if g.actors[a.actor] then zs + [FilteredActor(a, And(f.fields, g.fields))] else zs
  {
    FilterMore(ys, FilteredActor(a, f.fields), g, |ys|);
    FieldsTwice(a, f.fields, g.fields);
  }

  lemma KeepTwice(payloads: seq<bytes>, refs: set<nat>, fewer: set<nat>)
    requires fewer <= refs
    ensures Keep(Keep(payloads, refs), fewer) == Keep(payloads, fewer)
  {
  }

  lemma FewerRefs(a: ActorSample, fields: seq<bool>)
    requires |fields| == NB_FIELDS
    ensures RefsOf(FilteredActor(a, fields)) <= RefsOf(a)
  {
  }

  lemma AllRefsMore(actors: seq<ActorSample>, a: ActorSample)
    ensures AllRefs(actors + [a]) == AllRefs(actors) + RefsOf(a)
  {
    var more := actors + [a];
    forall p ensures p in AllRefs(more) <==> p in AllRefs(actors) + RefsOf(a) {
      if p in AllRefs(actors) {
        var i :| 0 <= i < |actors| && p in RefsOf(actors[i]);
        assert p in RefsOf(more[i]);
      }
      if p in RefsOf(a) {
        assert p in RefsOf(more[|actors|]);
      }
    }
  }

  lemma {:induction false} FilteredRefs(actors: seq<ActorSample>, f: Applied, n: nat)
    requires AppliedOk(f) && n <= |actors| && Indexed(actors, |f.actors|)
    ensures AllRefs(FilteredActors(actors, f, n)) <= AllRefs(actors)
  {
    if n > 0 {
      FilteredRefs(actors, f, n - 1);
      RefsWithin(actors, n - 1);
      if f.actors[actors[n - 1].actor] {
        FilteredRefsMore(FilteredActors(actors, f, n - 1), actors[n - 1], f.fields, AllRefs(actors));
      }
    }
  }

  lemma RefsWithin(actors: seq<ActorSample>, i: nat)
    requires i < |actors|
    ensures RefsOf(actors[i]) <= AllRefs(actors)
  {
  }

  lemma FilteredRefsMore(front: seq<ActorSample>, a: ActorSample, fields: seq<bool>, all: set<nat>)
    requires |fields| == NB_FIELDS && AllRefs(front) <= all && RefsOf(a) <= all
    ensures AllRefs(front + [FilteredActor(a, fields)]) <= all
  {
    var b := FilteredActor(a, fields);
    FewerRefs(a, fields);
    AllRefsMore(front, b);
    assert AllRefs(front) + RefsOf(b) <= all;
  }

  lemma AllOfBoth(f: Applied, g: Applied)
    requires |f.actors| == |g.actors| && |f.fields| == |g.fields|
    ensures Both(f, g).SelectsAll() <==> f.SelectsAll() && g.SelectsAll()
    ensures f.SelectsAll() ==> Both(f, g) == g
    ensures g.SelectsAll() ==> Both(f, g) == f
  {
    var b := Both(f, g);
    assert forall i | 0 <= i < |f.actors| :: b.actors[i] == (f.actors[i] && g.actors[i]);
    assert forall i | 0 <= i < |f.fields| :: b.fields[i] == (f.fields[i] && g.fields[i]);
    if f.SelectsAll() {
      assert b.actors == g.actors && b.fields == g.fields;
    }
    if g.SelectsAll() {
      assert b.actors == f.actors && b.fields == f.fields;
    }
  }

  /** Filtering by one filter and then by another is filtering once by both, the shortcut included. */
  lemma FilterTwice(x: StoredSample, f: Applied, g: Applied)
    requires AppliedOk(f) && AppliedOk(g) && |f.actors| == |g.actors| && SampleOk(x, |f.actors|)
    ensures SampleOk(Filtered(x, f), |g.actors|)
    ensures Filtered(Filtered(x, f), g) == Filtered(x, Both(f, g))
  {
    FilteredIsOk(x, f);
    AllOfBoth(f, g);
    if !f.SelectsAll() && !g.SelectsAll() {
      var y := Filtered(x, f);
      ActorsTwice(x.actors, f, g, |x.actors|);
      FilteredRefs(y.actors, g, |y.actors|);
      KeepTwice(x.payloads, AllRefs(y.actors), AllRefs(FilteredActors(y.actors, g, |y.actors|)));
    }
  }

  lemma BothSame(f: Applied)
    ensures Both(f, f) == f
  {
  }

  /** Filtering again by the same filter changes nothing. */
  lemma FilterIsIdempotent(x: StoredSample, f: Applied)
    requires AppliedOk(f) && SampleOk(x, |f.actors|)
    ensures SampleOk(Filtered(x, f), |f.actors|)
    ensures Filtered(Filtered(x, f), f) == Filtered(x, f)
  {
    FilterTwice(x, f, f);
    BothSame(f);
  }
}

/** The filter as the server runs it: arrays of flags, and payloads copied one reference at a time. */
module SampleFilterObjects {
  import opened Common
  import opened StoredSamples
  import opened SampleFilters

  class ArrayFilter {
    const flags: array<bool>

    constructor (size: nat)
      ensures fresh(flags) && flags.Length == size && forall i | 0 <= i < size :: !flags[i]
    {
      var a := new bool[size];
      var index := 0;
      while index < size
        invariant 0 <= index <= size
        invariant forall i | 0 <= i < index :: !a[i]
      {
        a[index] := false;
        index := index + 1;
      }
      flags := a;
    }

    method SetAll(selects: bool)
      modifies flags
      ensures forall i | 0 <= i < flags.Length :: flags[i] == selects
    {
      var index := 0;
      while index < flags.Length
        invariant 0 <= index <= flags.Length
        invariant forall i | 0 <= i < index :: flags[i] == selects
      {
        flags[index] := selects;
        index := index + 1;
      }
    }

    method Set(index: nat, selects: bool)
      requires index < flags.Length
      modifies flags
      ensures flags[..] == old(flags[..])[index := selects]
    {
      flags[index] := selects;
    }

    method SelectsAll() returns (all: bool)
      ensures all == All(flags[..])
    {
      var index := 0;
      while index < flags.Length
        invariant 0 <= index <= flags.Length
        invariant forall i | 0 <= i < index :: flags[..][i]
      {
        if !flags[index] {
          assert !flags[..][index];
          return false;
        }
        index := index + 1;
      }
      all := true;
    }
  }

  method NewActorsFilter(f: TrialSampleFilter, actors: seq<ActorParams>) returns (filter: ArrayFilter)
    ensures fresh(filter) && fresh(filter.flags)
    ensures filter.flags[..] == ActorsFilter(f, actors)
  {
    filter := new ArrayFilter(|actors|);
    if f.actorNames == {} && f.actorClasses == {} && f.actorImplementations == {} {
      filter.SetAll(true);
      assert filter.flags[..] == ActorsFilter(f, actors);
      return;
    }
    filter.SetAll(false);
    var actorIndex := 0;
    while actorIndex < |actors|
      invariant 0 <= actorIndex <= |actors| == filter.flags.Length
      invariant forall i | 0 <= i < actorIndex :: filter.flags[..][i] == SelectsActor(f, actors[i])
    {
      var a := actors[actorIndex];
      var selectName := f.actorNames == {} || a.name in f.actorNames;
      var selectClass := f.actorClasses == {} || a.class_ in f.actorClasses;
      var selectImpl := f.actorImplementations == {} || a.implementation in f.actorImplementations;
      filter.Set(actorIndex, selectName && selectClass && selectImpl);
      actorIndex := actorIndex + 1;
    }
    assert filter.flags[..] == ActorsFilter(f, actors);
  }

  method NewFieldsFilter(fields: seq<nat>) returns (filter: ArrayFilter)
    requires forall i | 0 <= i < |fields| :: fields[i] < NB_FIELDS
    ensures fresh(filter) && fresh(filter.flags)
    ensures filter.flags[..] == FieldsFilter(fields)
  {
    filter := new ArrayFilter(NB_FIELDS);
    if fields == [] {
      filter.SetAll(true);
      assert filter.flags[..] == FieldsFilter(fields);
      return;
    }
    filter.SetAll(false);
    var k := 0;
    while k < |fields|
      invariant 0 <= k <= |fields| && filter.flags.Length == NB_FIELDS
      invariant forall i: nat | i < NB_FIELDS :: filter.flags[..][i] == (i != UNKNOWN && i in fields[..k])
    {
      assert fields[..k + 1] == fields[..k] + [fields[k]];
      if fields[k] != UNKNOWN {
        filter.Set(fields[k], true);
      }
      k := k + 1;
    }
    assert fields[..k] == fields;
    assert filter.flags[..] == FieldsFilter(fields);
  }

  /** What an array of payloads holds once the payloads of more references have been copied to it. */
  ghost function Copied(kept: seq<bytes>, payloads: seq<bytes>, refs: set<nat>): (more: seq<bytes>)
    requires |kept| == |payloads|
    ensures |more| == |kept|
  {
    seq(|kept|, p requires 0 <= p < |kept| => if p in refs then payloads[p] else kept[p])
  }

  lemma CopiedTwice(kept: seq<bytes>, payloads: seq<bytes>, refs: set<nat>, more: set<nat>)
    requires |kept| == |payloads|
    ensures Copied(Copied(kept, payloads, refs), payloads, more) == Copied(kept, payloads, refs + more)
  {
  }

  lemma CopiedNone(kept: seq<bytes>, payloads: seq<bytes>)
    requires |kept| == |payloads|
    ensures Copied(kept, payloads, {}) == kept
  {
  }

  method CopyRef(kept: array<bytes>, payloads: seq<bytes>, ref: Option<nat>)
    requires kept.Length == |payloads| && RefOk(ref, |payloads|)
    modifies kept
    ensures kept[..] == Copied(old(kept[..]), payloads, RefSet(ref))
  {
    if ref.Some? {
      kept[ref.value] := payloads[ref.value];
    }
    assert kept[..] == Copied(old(kept[..]), payloads, RefSet(ref));
  }

  method CopyRewards(kept: array<bytes>, payloads: seq<bytes>, rewards: seq<StoredReward>)
    returns (out: seq<StoredReward>)
    requires kept.Length == |payloads| && RewardRefsOk(rewards, |payloads|)
    modifies kept
    ensures out == rewards
    ensures kept[..] == Copied(old(kept[..]), payloads, RewardRefs(rewards))
  {
    out := [];
    CopiedNone(kept[..], payloads);
    assert RewardRefs([]) == {} && rewards[..0] == [];
    while |out| < |rewards|
      invariant |out| <= |rewards| && out == rewards[..|out|]
      invariant kept[..] == Copied(old(kept[..]), payloads, RewardRefs(out))
    {
      var reward := rewards[|out|];
      ghost var before := out;
      out := out + [reward];
      CopyRef(kept, payloads, reward.userData);
      CopiedTwice(old(kept[..]), payloads, RewardRefs(before), RefSet(reward.userData));
      RewardRefsMore(before, reward);
    }
  }

  lemma RewardRefsMore(rewards: seq<StoredReward>, x: StoredReward)
    ensures RewardRefs(rewards + [x]) == RewardRefs(rewards) + RefSet(x.userData)
  {
    var more := rewards + [x];
    forall p ensures p in RewardRefs(more) <==> p in RewardRefs(rewards) + RefSet(x.userData) {
      if p in RewardRefs(rewards) {
        var i :| 0 <= i < |rewards| && rewards[i].userData == Some(p);
        assert more[i].userData == Some(p);
      }
      if p in RefSet(x.userData) {
        assert more[|rewards|].userData == Some(p);
      }
    }
  }

  method CopyMessages(kept: array<bytes>, payloads: seq<bytes>, messages: seq<StoredMessage>)
    returns (out: seq<StoredMessage>)
    requires kept.Length == |payloads| && MessageRefsOk(messages, |payloads|)
    modifies kept
    ensures out == messages
    ensures kept[..] == Copied(old(kept[..]), payloads, MessageRefs(messages))
  {
    out := [];
    CopiedNone(kept[..], payloads);
    assert MessageRefs([]) == {} && messages[..0] == [];
    while |out| < |messages|
      invariant |out| <= |messages| && out == messages[..|out|]
      invariant kept[..] == Copied(old(kept[..]), payloads, MessageRefs(out))
    {
      var message := messages[|out|];
      ghost var before := out;
      out := out + [message];
      CopyRef(kept, payloads, Some(message.payload));
      CopiedTwice(old(kept[..]), payloads, MessageRefs(before), RefSet(Some(message.payload)));
      MessageRefsMore(before, message);
    }
  }

  lemma MessageRefsMore(messages: seq<StoredMessage>, x: StoredMessage)
    ensures MessageRefs(messages + [x]) == MessageRefs(messages) + RefSet(Some(x.payload))
  {
    var more := messages + [x];
    forall p ensures p in MessageRefs(more) <==> p in MessageRefs(messages) + RefSet(Some(x.payload)) {
      if p in MessageRefs(messages) {
        var i :| 0 <= i < |messages| && messages[i].payload == p;
        assert more[i].payload == p;
      }
      if p == x.payload {
        assert more[|messages|].payload == p;
      }
    }
  }

  /** The two references of an actor. */
  method CopyActorRefs(kept: array<bytes>, payloads: seq<bytes>, a: ActorSample, fields: seq<bool>)
    returns (b: ActorSample)
    requires kept.Length == |payloads| && ActorRefsOk(a, |payloads|) && |fields| == NB_FIELDS
    modifies kept
    ensures var c := FilteredActor(a, fields);
            && b == ActorSample(a.actor, c.observation, c.action, c.reward, Rewards([], []), Messages([], []))
            && kept[..] == Copied(old(kept[..]), payloads, RefSet(c.observation) + RefSet(c.action))
  {
    b := ActorSample(a.actor, None, None, None, Rewards([], []), Messages([], []));
    ghost var start := kept[..];
    if a.observation.Some? && fields[OBSERVATION] {
      b := b.(observation := a.observation);
      CopyRef(kept, payloads, a.observation);
    }
    assert kept[..] == Copied(start, payloads, RefSet(b.observation));
    if a.action.Some? && fields[ACTION] {
      b := b.(action := a.action);
      CopyRef(kept, payloads, a.action);
    }
    CopiedTwice(start, payloads, RefSet(b.observation), RefSet(b.action));
    assert kept[..] == Copied(start, payloads, RefSet(b.observation) + RefSet(b.action));
    if fields[REWARD] {
      b := b.(reward := a.reward);
    }
  }

  method FilterRewards(kept: array<bytes>, payloads: seq<bytes>, rewards: seq<StoredReward>, keep: bool)
    returns (out: seq<StoredReward>)
    requires kept.Length == |payloads| && RewardRefsOk(rewards, |payloads|)
    modifies kept
    ensures out == if keep then rewards else []
    ensures kept[..] == Copied(old(kept[..]), payloads, RewardRefs(out))
  {
    out := [];
    if keep {
      out := CopyRewards(kept, payloads, rewards);
    } else {
      assert RewardRefs([]) == {};
      CopiedNone(kept[..], payloads);
    }
  }

  method FilterMessages(kept: array<bytes>, payloads: seq<bytes>, messages: seq<StoredMessage>, keep: bool)
    returns (out: seq<StoredMessage>)
    requires kept.Length == |payloads| && MessageRefsOk(messages, |payloads|)
    modifies kept
    ensures out == if keep then messages else []
    ensures kept[..] == Copied(old(kept[..]), payloads, MessageRefs(out))
  {
    out := [];
    if keep {
      out := CopyMessages(kept, payloads, messages);
    } else {
      assert MessageRefs([]) == {};
      CopiedNone(kept[..], payloads);
    }
  }

  method FilterActor(kept: array<bytes>, payloads: seq<bytes>, a: ActorSample, fields: seq<bool>)
    returns (b: ActorSample)
    requires kept.Length == |payloads| && ActorRefsOk(a, |payloads|) && |fields| == NB_FIELDS
    modifies kept
    ensures b == FilteredActor(a, fields)
    ensures kept[..] == Copied(old(kept[..]), payloads, RefsOf(b))
  {
    ghost var start := kept[..];
    b := CopyActorRefs(kept, payloads, a, fields);
    ghost var refs := RefSet(b.observation) + RefSet(b.action);
    var received := FilterRewards(kept, payloads, a.rewards.received, fields[RECEIVED_REWARDS]);
    CopiedTwice(start, payloads, refs, RewardRefs(received));
    refs := refs + RewardRefs(received);
    var sent := FilterRewards(kept, payloads, a.rewards.sent, fields[SENT_REWARDS]);
    CopiedTwice(start, payloads, refs, RewardRefs(sent));
    refs := refs + RewardRefs(sent);
    var receivedMessages := FilterMessages(kept, payloads, a.messages.received, fields[RECEIVED_MESSAGES]);
    CopiedTwice(start, payloads, refs, MessageRefs(receivedMessages));
    refs := refs + MessageRefs(receivedMessages);
    var sentMessages := FilterMessages(kept, payloads, a.messages.sent, fields[SENT_MESSAGES]);
    CopiedTwice(start, payloads, refs, MessageRefs(sentMessages));
    b := b.(rewards := Rewards(received, sent), messages := Messages(receivedMessages, sentMessages));
  }

  method Filter(actorsFilter: ArrayFilter, fieldsFilter: ArrayFilter, sample: StoredSample) returns (out: StoredSample)
    requires fieldsFilter.flags.Length == NB_FIELDS && SampleOk(sample, actorsFilter.flags.Length)
    ensures out == Filtered(sample, Applied(actorsFilter.flags[..], fieldsFilter.flags[..]))
  {
    var allActors := actorsFilter.SelectsAll();
    var allFields := fieldsFilter.SelectsAll();
    if allActors && allFields {
      return sample;
    }
    var f := Applied(actorsFilter.flags[..], fieldsFilter.flags[..]);
    var kept := new bytes[|sample.payloads|](_ => []);
    ghost var empty := kept[..];
    var actors := FilterActors(kept, sample, f);
    assert Copied(empty, sample.payloads, AllRefs(actors)) == Keep(sample.payloads, AllRefs(actors));
    out := StoredSample(sample.info, actors, kept[..]);
  }

  method FilterActors(kept: array<bytes>, sample: StoredSample, f: Applied) returns (actors: seq<ActorSample>)
    requires AppliedOk(f) && SampleOk(sample, |f.actors|) && kept.Length == |sample.payloads|
    modifies kept
    ensures actors == FilteredActors(sample.actors, f, |sample.actors|)
    ensures kept[..] == Copied(old(kept[..]), sample.payloads, AllRefs(actors))
  {
    ghost var start := kept[..];
    CopiedNone(start, sample.payloads);
    assert AllRefs([]) == {};
    actors := [];
    var k := 0;
    while k < |sample.actors|
      invariant 0 <= k <= |sample.actors|
      invariant actors == FilteredActors(sample.actors, f, k)
      invariant kept[..] == Copied(start, sample.payloads, AllRefs(actors))
    {
      if f.actors[sample.actors[k].actor] {
        var b := FilterActor(kept, sample.payloads, sample.actors[k], f.fields);
        AllRefsMore(actors, b);
        CopiedTwice(start, sample.payloads, AllRefs(actors), RefsOf(b));
        actors := actors + [b];
      }
      k := k + 1;
    }
  }
}
