/**
 * The trial store in a bolt file: the buckets, and the bodies of the update transactions.
 *
 * A transaction that returns an error changes nothing.  Buckets keyed by numbers are maps from numbers: their keys are
 * written in an order-preserving way, so a cursor visits them in the order of the numbers.
 */
module BoltStores {
  import opened Common
  import opened BoltKeys
  import P = TrialPages

  datatype Params = Params(userID: string, properties: map<string, string>, body: bytes)

  datatype Sample = Sample(trialID: string, tick: nat, state: int, body: bytes)

  /** The bucket of a trial.  `sampleCount` is the number written under its key. */
  datatype Trial = Trial(sampleCount: nat, trialIdx: nat, params: Params, samples: map<nat, Sample>)

  /** `idx` is the bucket of trial indices, `sequence` its sequence number. */
  datatype Bolt = Bolt(trials: map<string, Trial>, idx: map<nat, string>, sequence: nat)

  function NewBolt(): Bolt {
    Bolt(map[], map[], 0)
  }

  // ---- The transaction bodies ----

  /** None for the error that a bucket needs a name. */
  function Created(b: Bolt, id: string, params: Params): Option<Bolt> {
    if id in b.trials then
      Some(b.(trials := b.trials[id := b.trials[id].(params := params)]))
    else if id == "" then None
    else
      var trialIdx := b.sequence + 1;
      Some(Bolt(b.trials[id := Trial(0, trialIdx, params, map[])], b.idx[trialIdx := id], trialIdx))
  }

  function AllCreated(b: Bolt, batch: seq<(string, Params)>, n: nat): Option<Bolt>
    requires n <= |batch|
  {
    if n == 0 then Some(b)
    else
      var front := AllCreated(b, batch, n - 1);
      if front.None? then None else Created(front.value, batch[n - 1].0, batch[n - 1].1)
  }

  function Deleted(b: Bolt, id: string): Bolt {
    if id !in b.trials then b
    else b.(trials := b.trials - {id}, idx := b.idx - {b.trials[id].trialIdx})
  }

  function AllDeleted(b: Bolt, ids: seq<string>, n: nat): Bolt
    requires n <= |ids|
  {
    if n == 0 then b else Deleted(AllDeleted(b, ids, n - 1), ids[n - 1])
  }

  /**
   * The count as it is read back: from its key below 2^31, otherwise by
   * scanning the samples, which gives `scanned`.
   */
  function ReadCount(count: nat, scanned: nat): nat {
    if count <= MAX_INT32 then count else scanned
  }

  function Added(t: Trial, x: Sample, scanned: nat): Trial {
    t.(samples := t.samples[x.tick := x],
       sampleCount := if x.tick in t.samples then t.sampleCount else ReadCount(t.sampleCount, scanned) + 1)
  }

  /** None for an unknown trial. */
  function AllAdded(b: Bolt, samples: seq<Sample>, scanned: nat, n: nat): Option<Bolt>
    requires n <= |samples|
  {
    if n == 0 then Some(b)
    else
      var front, x := AllAdded(b, samples, scanned, n - 1), samples[n - 1];
      if front.None? || x.trialID !in front.value.trials then None
      else
        var trials := front.value.trials;
        Some(front.value.(trials := trials[x.trialID := Added(trials[x.trialID], x, scanned)]))
  }

  // ---- What every transaction keeps ----

  /** Trials and indices point at each other, and indices come from the sequence. */
  ghost predicate IdxOk(b: Bolt) {
    && (forall i | i in b.idx :: 1 <= i <= b.sequence && b.idx[i] in b.trials && b.trials[b.idx[i]].trialIdx == i)
    && (forall id | id in b.trials :: b.trials[id].trialIdx in b.idx && b.idx[b.trials[id].trialIdx] == id)
  }

  /** The cached count is the number of ticks, as long as that can be read back. */
  ghost predicate CountOk(t: Trial) {
    |t.samples| <= MAX_INT32 + 1 ==> t.sampleCount == |t.samples|
  }

  ghost predicate Inv(b: Bolt) {
    IdxOk(b) && CountsOk(b)
  }

  lemma NewKeepsIdx(b: Bolt, id: string, t: Trial)
    requires IdxOk(b) && id !in b.trials && t.trialIdx == b.sequence + 1
    ensures IdxOk(Bolt(b.trials[id := t], b.idx[t.trialIdx := id], t.trialIdx))
  {
    assert t.trialIdx !in b.idx;
  }

  lemma SameIdxKeepsIdx(b: Bolt, id: string, t: Trial)
    requires IdxOk(b) && id in b.trials && t.trialIdx == b.trials[id].trialIdx
    ensures IdxOk(b.(trials := b.trials[id := t]))
  {
  }

  ghost predicate CountsOk(b: Bolt) {
    forall id | id in b.trials :: CountOk(b.trials[id])
  }

  lemma CreatedKeepsCounts(b: Bolt, id: string, params: Params)
    requires CountsOk(b)
    ensures Created(b, id, params).Some? ==> CountsOk(Created(b, id, params).value)
  {
  }

  lemma CreatedKeepsInv(b: Bolt, id: string, params: Params)
    requires Inv(b)
    ensures Created(b, id, params).Some? ==> Inv(Created(b, id, params).value)
  {
    CreatedKeepsCounts(b, id, params);
    if id in b.trials {
      SameIdxKeepsIdx(b, id, b.trials[id].(params := params));
    } else if id != "" {
      NewKeepsIdx(b, id, Trial(0, b.sequence + 1, params, map[]));
    }
  }

  lemma {:induction false} AllCreatedKeepsInv(b: Bolt, batch: seq<(string, Params)>, n: nat)
    requires Inv(b) && n <= |batch|
    ensures AllCreated(b, batch, n).Some? ==> Inv(AllCreated(b, batch, n).value)
  {
    if n > 0 {
      AllCreatedKeepsInv(b, batch, n - 1);
      if AllCreated(b, batch, n - 1).Some? {
        CreatedKeepsInv(AllCreated(b, batch, n - 1).value, batch[n - 1].0, batch[n - 1].1);
      }
    }
  }

  lemma {:induction false} AllDeletedKeepsInv(b: Bolt, ids: seq<string>, n: nat)
    requires Inv(b) && n <= |ids|
    ensures Inv(AllDeleted(b, ids, n))
  {
    if n > 0 {
      AllDeletedKeepsInv(b, ids, n - 1);
    }
  }

  lemma AddedKeepsCount(t: Trial, x: Sample, scanned: nat)
    requires CountOk(t)
    ensures CountOk(Added(t, x, scanned))
  {
    var after := Added(t, x, scanned);
    assert after.samples.Keys == t.samples.Keys + {x.tick};
    assert |t.samples| == |t.samples.Keys| && |after.samples| == |after.samples.Keys|;
  }

  /** A new tick keeps a right count right exactly when the count can be read back, or else the scan is right. */
  lemma CountIsKeptExactly(t: Trial, x: Sample, scanned: nat)
    requires t.sampleCount == |t.samples.Keys| && x.tick !in t.samples
    ensures var after := Added(t, x, scanned);
            after.sampleCount == |after.samples.Keys| <==>
              |t.samples.Keys| <= MAX_INT32 || scanned == |t.samples.Keys|
  {
    assert Added(t, x, scanned).samples.Keys == t.samples.Keys + {x.tick};
  }

  lemma {:induction false} AllAddedKeepsInv(b: Bolt, samples: seq<Sample>, scanned: nat, n: nat)
    requires Inv(b) && n <= |samples|
    ensures AllAdded(b, samples, scanned, n).Some? ==> Inv(AllAdded(b, samples, scanned, n).value)
  {
    if n > 0 {
      AllAddedKeepsInv(b, samples, scanned, n - 1);
      var front, x := AllAdded(b, samples, scanned, n - 1), samples[n - 1];
      if front.Some? && x.trialID in front.value.trials {
        AddedKeepsCount(front.value.trials[x.trialID], x, scanned);
      }
    }
  }

  datatype Update =
    | CreateUpdate(batch: seq<(string, Params)>)
    | DeleteUpdate(ids: seq<string>)
    | AddUpdate(samples: seq<Sample>, scanned: nat)

  /** A body run once; None for an error. */
  function Body(b: Bolt, u: Update): Option<Bolt> {
    match u
    case CreateUpdate(batch) => AllCreated(b, batch, |batch|)
    case DeleteUpdate(ids) => Some(AllDeleted(b, ids, |ids|))
    case AddUpdate(samples, scanned) => AllAdded(b, samples, scanned, |samples|)
  }

  /** The transaction: an error rolls it back. */
  function Commit(b: Bolt, u: Update): Bolt {
    if Body(b, u).Some? then Body(b, u).value else b
  }

  lemma CommitKeepsInv(b: Bolt, u: Update)
    requires Inv(b)
    ensures Inv(Commit(b, u))
  {
    match u {
      case CreateUpdate(batch) => AllCreatedKeepsInv(b, batch, |batch|);
      case DeleteUpdate(ids) => AllDeletedKeepsInv(b, ids, |ids|);
      case AddUpdate(samples, scanned) => AllAddedKeepsInv(b, samples, scanned, |samples|);
    }
  }

  function Run(b: Bolt, updates: seq<Update>): Bolt
    decreases |updates|
  {
    if updates == [] then b else Run(Commit(b, updates[0]), updates[1..])
  }

  lemma {:induction false} RunKeepsInv(b: Bolt, updates: seq<Update>)
    requires Inv(b)
    ensures Inv(Run(b, updates))
    decreases |updates|
  {
    if updates != [] {
      CommitKeepsInv(b, updates[0]);
      RunKeepsInv(Commit(b, updates[0]), updates[1..]);
    }
  }

  /**
   * After any updates: the index bucket is a bijection with the trials, and every cached sample count
   * is the number of ticks stored, up to 2^31 of them.
   */
  lemma StoreIsConsistent(updates: seq<Update>, id: string, i: nat)
    ensures var b := Run(NewBolt(), updates);
            && (id in b.trials && i == b.trials[id].trialIdx <==> i in b.idx && b.idx[i] == id)
            && (id in b.trials && |b.trials[id].samples| <= MAX_INT32 + 1 ==>
                  b.trials[id].sampleCount == |b.trials[id].samples.Keys|)
  {
    RunKeepsInv(NewBolt(), updates);
    var b := Run(NewBolt(), updates);
    assert id in b.trials ==> CountOk(b.trials[id]);
  }

  // ---- Every body may be run again ----

  /** The last parameters that the first `n` entries of the batch give to the trial. */
  ghost function LastParams(batch: seq<(string, Params)>, n: nat, id: string): (p: Option<Params>)
    requires n <= |batch|
    ensures p.Some? <==> exists i :: 0 <= i < n && batch[i].0 == id
  {
    if n == 0 then None
    else if batch[n - 1].0 == id then Some(batch[n - 1].1)
    else LastParams(batch, n - 1, id)
  }

  lemma {:induction false} CreatedParams(b: Bolt, batch: seq<(string, Params)>, n: nat)
    requires n <= |batch| && AllCreated(b, batch, n).Some?
    ensures var c := AllCreated(b, batch, n).value;
            && (forall id | id in b.trials :: id in c.trials)
            && (forall id :: LastParams(batch, n, id).Some? ==>
                  id in c.trials && c.trials[id].params == LastParams(batch, n, id).value)
  {
    if n > 0 {
      CreatedParams(b, batch, n - 1);
    }
  }

  /** On trials that all exist, a batch only changes parameters. */
  lemma {:induction false} CreatingExisting(b: Bolt, batch: seq<(string, Params)>, n: nat)
    requires n <= |batch| && forall i | 0 <= i < n :: batch[i].0 in b.trials
    ensures AllCreated(b, batch, n).Some?
    ensures var c := AllCreated(b, batch, n).value;
            && c.idx == b.idx && c.sequence == b.sequence && c.trials.Keys == b.trials.Keys
            && forall id | id in b.trials :: c.trials[id] ==
                 if LastParams(batch, n, id).Some? then b.trials[id].(params := LastParams(batch, n, id).value)
                 else b.trials[id]
  {
    if n > 0 {
      CreatingExisting(b, batch, n - 1);
    }
  }

  lemma CreatingTwice(b: Bolt, batch: seq<(string, Params)>)
    requires AllCreated(b, batch, |batch|).Some?
    ensures AllCreated(AllCreated(b, batch, |batch|).value, batch, |batch|) == AllCreated(b, batch, |batch|)
  {
    var n, c := |batch|, AllCreated(b, batch, |batch|).value;
    CreatedParams(b, batch, n);
    forall i | 0 <= i < n ensures batch[i].0 in c.trials {
      assert LastParams(batch, n, batch[i].0).Some?;
    }
    CreatingExisting(c, batch, n);
    var d := AllCreated(c, batch, n).value;
    forall id | id in c.trials ensures d.trials[id] == c.trials[id] {
    }
    assert d.trials == c.trials;
  }

  lemma {:induction false} DeletedAreGone(b: Bolt, ids: seq<string>, n: nat)
    requires n <= |ids|
    ensures AllDeleted(b, ids, n).trials.Keys == b.trials.Keys - Elements(ids[..n])
  {
    if n > 0 {
      DeletedAreGone(b, ids, n - 1);
      assert ids[..n] == ids[..n - 1] + [ids[n - 1]];
    }
  }

  lemma {:induction false} DeletingUnknown(b: Bolt, ids: seq<string>, n: nat)
    requires n <= |ids| && forall i | 0 <= i < n :: ids[i] !in b.trials
    ensures AllDeleted(b, ids, n) == b
  {
    if n > 0 {
      DeletingUnknown(b, ids, n - 1);
    }
  }

  lemma DeletingTwice(b: Bolt, ids: seq<string>)
    ensures AllDeleted(AllDeleted(b, ids, |ids|), ids, |ids|) == AllDeleted(b, ids, |ids|)
  {
    DeletedAreGone(b, ids, |ids|);
    assert ids[..|ids|] == ids;
    DeletingUnknown(AllDeleted(b, ids, |ids|), ids, |ids|);
  }

  /** The last of the first `n` samples for that tick of the trial. */
  ghost function LastFor(samples: seq<Sample>, n: nat, id: string, tick: nat): (x: Option<Sample>)
    requires n <= |samples|
    ensures x.Some? ==> x.value.tick == tick && x.value.trialID == id
  {
    if n == 0 then None
    else if samples[n - 1].trialID == id && samples[n - 1].tick == tick then Some(samples[n - 1])
    else LastFor(samples, n - 1, id, tick)
  }

  lemma {:induction false} LastForExists(samples: seq<Sample>, n: nat, i: nat)
    requires i < n <= |samples|
    ensures LastFor(samples, n, samples[i].trialID, samples[i].tick).Some?
  {
    if i < n - 1 {
      LastForExists(samples, n - 1, i);
    }
  }

  lemma {:induction false} AddedSamples(b: Bolt, samples: seq<Sample>, scanned: nat, n: nat)
    requires n <= |samples| && AllAdded(b, samples, scanned, n).Some?
    ensures var c := AllAdded(b, samples, scanned, n).value;
            && c.trials.Keys == b.trials.Keys
            && (forall i | 0 <= i < n :: samples[i].trialID in b.trials)
            && (forall id, tick: nat | id in c.trials && LastFor(samples, n, id, tick).Some? ::
                  tick in c.trials[id].samples && c.trials[id].samples[tick] == LastFor(samples, n, id, tick).value)
  {
    if n > 0 {
      AddedSamples(b, samples, scanned, n - 1);
    }
  }

  /** On samples whose ticks are all stored, a batch changes only what it stores. */
  ghost predicate SameButSamples(b: Bolt, c: Bolt, samples: seq<Sample>, n: nat)
    requires n <= |samples|
  {
    && c.idx == b.idx && c.sequence == b.sequence && c.trials.Keys == b.trials.Keys
    && forall id | id in b.trials :: SameTicks(b.trials[id], c.trials[id], samples, n, id)
  }

  lemma AddingOneExisting(b: Bolt, c: Bolt, samples: seq<Sample>, scanned: nat, n: nat)
    requires 0 < n <= |samples| && SameButSamples(b, c, samples, n - 1) && Holds(b, samples[n - 1])
    ensures var x := samples[n - 1];
            SameButSamples(b, c.(trials := c.trials[x.trialID := Added(c.trials[x.trialID], x, scanned)]), samples, n)
  {
    var x := samples[n - 1];
    forall id | id in b.trials
      ensures SameTicks(b.trials[id], if id == x.trialID then Added(c.trials[id], x, scanned) else c.trials[id],
                        samples, n, id)
    {
      OneMoreTick(b.trials[id], c.trials[id], samples, n, id, scanned);
    }
  }

  lemma {:induction false} AddingExisting(b: Bolt, samples: seq<Sample>, scanned: nat, n: nat)
    requires n <= |samples| && forall i | 0 <= i < n :: Holds(b, samples[i])
    ensures AllAdded(b, samples, scanned, n).Some?
    ensures SameButSamples(b, AllAdded(b, samples, scanned, n).value, samples, n)
  {
    if n > 0 {
      AddingExisting(b, samples, scanned, n - 1);
      assert Holds(b, samples[n - 1]);
      AddingOneExisting(b, AllAdded(b, samples, scanned, n - 1).value, samples, scanned, n);
    }
  }

  lemma OneMoreTick(t: Trial, u: Trial, samples: seq<Sample>, n: nat, id: string, scanned: nat)
    requires 0 < n <= |samples| && SameTicks(t, u, samples, n - 1, id)
    requires samples[n - 1].trialID == id ==> samples[n - 1].tick in t.samples
    ensures var x := samples[n - 1];
            SameTicks(t, if x.trialID == id then Added(u, x, scanned) else u, samples, n, id)
  {
  }

  ghost predicate Holds(b: Bolt, x: Sample) {
    x.trialID in b.trials && x.tick in b.trials[x.trialID].samples
  }

  ghost predicate SameTicks(t: Trial, u: Trial, samples: seq<Sample>, n: nat, id: string)
    requires n <= |samples|
  {
    && u.sampleCount == t.sampleCount && u.trialIdx == t.trialIdx && u.params == t.params
    && u.samples.Keys == t.samples.Keys
    && forall tick: nat | tick in t.samples :: u.samples[tick] ==
         if LastFor(samples, n, id, tick).Some? then LastFor(samples, n, id, tick).value else t.samples[tick]
  }

  lemma AddingTwice(b: Bolt, samples: seq<Sample>, scanned: nat, scannedAgain: nat)
    requires AllAdded(b, samples, scanned, |samples|).Some?
    ensures AllAdded(AllAdded(b, samples, scanned, |samples|).value, samples, scannedAgain, |samples|)
              == AllAdded(b, samples, scanned, |samples|)
  {
    var n, c := |samples|, AllAdded(b, samples, scanned, |samples|).value;
    AddedSamples(b, samples, scanned, n);
    forall i | 0 <= i < n ensures Holds(c, samples[i]) {
      LastForExists(samples, n, i);
    }
    AddingExisting(c, samples, scannedAgain, n);
    var d := AllAdded(c, samples, scannedAgain, n).value;
    forall id | id in c.trials ensures d.trials[id] == c.trials[id] {
      assert SameTicks(c.trials[id], d.trials[id], samples, n, id);
      assert d.trials[id].samples == c.trials[id].samples;
    }
    assert d.trials == c.trials;
  }

  /** The same update, with whatever a scan gives this time. */
  ghost predicate SameUpdate(u: Update, v: Update) {
    u == v || (u.AddUpdate? && v.AddUpdate? && u.samples == v.samples)
  }

  /** Each transaction body, when it succeeds, does when run again, and then changes nothing. */
  lemma BodiesAreIdempotent(b: Bolt, u: Update, v: Update)
    requires SameUpdate(u, v) && Body(b, u).Some?
    ensures Body(Body(b, u).value, v) == Body(b, u)
  {
    match u {
      case CreateUpdate(batch) => CreatingTwice(b, batch);
      case DeleteUpdate(ids) => DeletingTwice(b, ids);
      case AddUpdate(samples, scanned) => AddingTwice(b, samples, scanned, v.scanned);
    }
  }

  // ---- Pages ----

  /** The trials by creation position: indices start at 1. */
  ghost function Entries(b: Bolt): (es: seq<P.Entry>)
    requires IdxOk(b)
    ensures |es| == b.sequence
    ensures forall p | 0 <= p < |es| :: es[p] == EntryAt(b, p)
  {
    seq(b.sequence, p requires 0 <= p < b.sequence => EntryAt(b, p))
  }

  ghost function EntryAt(b: Bolt, p: nat): P.Entry
    requires IdxOk(b)
  {
    if p + 1 in b.idx then P.Entry(b.idx[p + 1], true, b.trials[b.idx[p + 1]].params.properties)
    else P.Entry("", false, map[])
  }

  /** The position of the first trial from `p` on that is still there, or the number of trials ever created. */
  function NextLive(b: Bolt, p: nat): nat
    decreases b.sequence - p
  {
    if p >= b.sequence then b.sequence else if p + 1 in b.idx then p else NextLive(b, p + 1)
  }

  /** After a page that is full, the next trial whatever the filter; otherwise, the end. */
  function NextAfter(b: Bolt, page: seq<nat>, from: nat, count: int): nat {
    if 0 < count <= |page| && page != [] then NextLive(b, page[|page| - 1] + 1) else b.sequence
  }

  datatype TrialInfo = TrialInfo(trialID: string, userID: string, state: int, samplesCount: nat)

  const UNKNOWN: int := 0

  lemma {:induction false} LastTickExists(ticks: set<nat>)
    requires ticks != {}
    ensures exists k :: k in ticks && forall j | j in ticks :: j <= k
  {
    var x :| x in ticks;
    var rest := ticks - {x};
    if rest == {} {
      assert ticks == {x};
    } else {
      LastTickExists(rest);
      var k :| k in rest && forall j | j in rest :: j <= k;
      assert forall j | j in ticks :: j == x || j in rest;
      assert forall j | j in ticks :: j <= if x > k then x else k;
    }
  }

  /** The last key of the bucket of samples. */
  function LastTick(ticks: set<nat>): (k: nat)
    requires ticks != {}
    ensures k in ticks && forall j | j in ticks :: j <= k
  {
    LastTickExists(ticks);
    var k :| k in ticks && forall j | j in ticks :: j <= k;
    k
  }

  /** The state of the last stored sample; a value that is not there reads as an empty message. */
  function LastState(samples: map<nat, Sample>): int {
    if samples == map[] then UNKNOWN else samples[LastTick(samples.Keys)].state
  }

  function InfoOf(id: string, t: Trial): TrialInfo {
    var count := ReadCount(t.sampleCount, |t.samples|);
    TrialInfo(id, t.params.userID, if count > 0 then LastState(t.samples) else UNKNOWN, count)
  }

  /**
   * In a consistent store and up to 2^31 samples, a trial has the state of
   * its latest sample, and is unknown without one.
   */
  lemma InfoIsLatest(id: string, t: Trial)
    requires CountOk(t) && |t.samples| <= MAX_INT32 + 1
    ensures InfoOf(id, t).trialID == id && InfoOf(id, t).userID == t.params.userID
    ensures InfoOf(id, t).samplesCount == |t.samples.Keys|
    ensures t.samples == map[] ==> InfoOf(id, t).state == UNKNOWN
    ensures t.samples != map[] ==> InfoOf(id, t).state == t.samples[LastTick(t.samples.Keys)].state
  {
    assert |t.samples| == |t.samples.Keys|;
    if t.samples != map[] {
      assert LastTick(t.samples.Keys) in t.samples.Keys;
    }
  }

  ghost predicate InfosOf(b: Bolt, infos: seq<TrialInfo>, page: seq<nat>) {
    && |infos| == |page|
    && forall i | 0 <= i < |page| ::
         && page[i] + 1 in b.idx && b.idx[page[i] + 1] in b.trials
         && infos[i] == InfoOf(b.idx[page[i] + 1], b.trials[b.idx[page[i] + 1]])
  }

  lemma InfosMore(b: Bolt, infos: seq<TrialInfo>, page: seq<nat>, p: nat)
    requires InfosOf(b, infos, page) && p + 1 in b.idx && b.idx[p + 1] in b.trials
    ensures InfosOf(b, infos + [InfoOf(b.idx[p + 1], b.trials[b.idx[p + 1]])], page + [p])
  {
  }

  /** The position of a cursor: that of its key, or the end. */
  function PositionOf(b: Bolt, key: Option<nat>): nat {
    if key.Some? && key.value > 0 then key.value - 1 else b.sequence
  }

  /** A cursor that seeks the key of a position stops at the next trial still there. */
  lemma {:induction false} SeekIsNextLive(b: Bolt, p: nat)
    requires IdxOk(b) && p <= b.sequence
    ensures var key := SeekNumber(b.idx.Keys, p + 1, b.sequence);
            PositionOf(b, key) == NextLive(b, p) && (key.Some? <==> NextLive(b, p) < b.sequence)
    decreases b.sequence - p
  {
    if p < b.sequence && p + 1 !in b.idx {
      SeekIsNextLive(b, p + 1);
    }
  }

  /** No trial is passed over on the way to the next live one. */
  lemma {:induction false} NextLiveSkipsNone(b: Bolt, f: P.Filter, p: nat)
    requires IdxOk(b) && p <= b.sequence
    ensures p <= NextLive(b, p) <= b.sequence
    ensures forall q | p <= q < NextLive(b, p) :: !P.Matches(Entries(b)[q], f)
    ensures P.MatchesFrom(Entries(b), f, p) == P.MatchesFrom(Entries(b), f, NextLive(b, p))
    decreases b.sequence - p
  {
    if p < b.sequence && p + 1 !in b.idx {
      NextLiveSkipsNone(b, f, p + 1);
      assert !P.Matches(Entries(b)[p], f);
    }
  }

  /** A scan whose cursor is at the key `i` goes on to the next trial there is. */
  lemma CursorMoves(b: Bolt, f: P.Filter, from: nat, i: nat, page: seq<nat>)
    requires IdxOk(b) && i > 0 && i in b.idx && P.Scanned(Entries(b), f, from, i - 1, page)
    ensures var key := SeekNumber(b.idx.Keys, i + 1, b.sequence);
            && (P.Matches(EntryAt(b, i - 1), f) ==> P.Scanned(Entries(b), f, from, PositionOf(b, key), page + [i - 1]))
            && (!P.Matches(EntryAt(b, i - 1), f) ==> P.Scanned(Entries(b), f, from, PositionOf(b, key), page))
            && PositionOf(b, key) == NextLive(b, i)
            && (key.Some? ==> key.value in b.idx && i < key.value <= b.sequence)
  {
    P.ScanOne(Entries(b), f, from, i - 1, page);
    SeekIsNextLive(b, i);
    NextLiveSkipsNone(b, f, i);
  }

  /** `es` are the store's entries. */
  ghost predicate ScanOk(
    b: Bolt, es: seq<P.Entry>, f: P.Filter, from: nat, count: int,
    key: Option<nat>, infos: seq<TrialInfo>, page: seq<nat>)
  {
    && (key.Some? ==> key.value in b.idx && 1 <= key.value <= b.sequence)
    && P.Scanned(es, f, from, PositionOf(b, key), page)
    && InfosOf(b, infos, page) && (count > 0 ==> |page| <= count)
    && (0 < count == |page| ==> PositionOf(b, key) == NextLive(b, page[|page| - 1] + 1))
  }

  lemma OntoThePage(
    b: Bolt, es: seq<P.Entry>, f: P.Filter, from: nat, count: int, key: Option<nat>,
    i: nat, infos: seq<TrialInfo>, page: seq<nat>)
    requires i > 0 && i in b.idx && b.idx[i] in b.trials && InfosOf(b, infos, page) && (count > 0 ==> |page| < count)
    requires P.Scanned(es, f, from, PositionOf(b, key), page + [i - 1]) && PositionOf(b, key) == NextLive(b, i)
    requires key.Some? ==> key.value in b.idx && 1 <= key.value <= b.sequence
    ensures ScanOk(b, es, f, from, count, key, infos + [InfoOf(b.idx[i], b.trials[b.idx[i]])], page + [i - 1])
  {
    InfosMore(b, infos, page, i - 1);
  }

  lemma NotOntoThePage(
    b: Bolt, es: seq<P.Entry>, f: P.Filter, from: nat, count: int, key: Option<nat>,
    infos: seq<TrialInfo>, page: seq<nat>)
    requires InfosOf(b, infos, page) && (count > 0 ==> |page| < count)
    requires P.Scanned(es, f, from, PositionOf(b, key), page)
    requires key.Some? ==> key.value in b.idx && 1 <= key.value <= b.sequence
    ensures ScanOk(b, es, f, from, count, key, infos, page)
  {
  }

  /** What a turn of the loop needs of the scan so far. */
  lemma ScanSoFar(
    b: Bolt, es: seq<P.Entry>, f: P.Filter, from: nat, count: int, i: nat, infos: seq<TrialInfo>, page: seq<nat>)
    requires IdxOk(b) && ScanOk(b, es, f, from, count, Some(i), infos, page) && !(count > 0 && |infos| >= count)
    ensures i in b.idx && i > 0 && b.idx[i] in b.trials && InfosOf(b, infos, page) && (count > 0 ==> |page| < count)
    ensures P.Scanned(es, f, from, i - 1, page)
  {
  }

  /** A turn of the loop at a trial that is selected, and at one that is not. */
  lemma TakingTurn(b: Bolt, f: P.Filter, from: nat, count: int, i: nat, infos: seq<TrialInfo>, page: seq<nat>)
    requires IdxOk(b) && ScanOk(b, Entries(b), f, from, count, Some(i), infos, page) && !(count > 0 && |infos| >= count)
    requires i > 0 && P.Matches(EntryAt(b, i - 1), f)
    ensures i in b.idx && b.idx[i] in b.trials
    ensures var key := SeekNumber(b.idx.Keys, i + 1, b.sequence);
            && (key.Some? ==> i < key.value <= b.sequence)
            && ScanOk(b, Entries(b), f, from, count, key,
                      infos + [InfoOf(b.idx[i], b.trials[b.idx[i]])], page + [i - 1])
  {
    var es, key := Entries(b), SeekNumber(b.idx.Keys, i + 1, b.sequence);
    ScanSoFar(b, es, f, from, count, i, infos, page);
    CursorMoves(b, f, from, i, page);
    OntoThePage(b, es, f, from, count, key, i, infos, page);
  }

  lemma PassingTurn(b: Bolt, f: P.Filter, from: nat, count: int, i: nat, infos: seq<TrialInfo>, page: seq<nat>)
    requires IdxOk(b) && ScanOk(b, Entries(b), f, from, count, Some(i), infos, page) && !(count > 0 && |infos| >= count)
    requires i > 0 && !P.Matches(EntryAt(b, i - 1), f)
    ensures var key := SeekNumber(b.idx.Keys, i + 1, b.sequence);
            && (key.Some? ==> i < key.value <= b.sequence)
            && ScanOk(b, Entries(b), f, from, count, key, infos, page)
  {
    var es, key := Entries(b), SeekNumber(b.idx.Keys, i + 1, b.sequence);
    ScanSoFar(b, es, f, from, count, i, infos, page);
    CursorMoves(b, f, from, i, page);
    NotOntoThePage(b, es, f, from, count, key, infos, page);
  }

  /** A scan starts at the first trial there is from a position on. */
  lemma CursorStarts(b: Bolt, f: P.Filter, from: nat)
    requires IdxOk(b) && from <= b.sequence
    ensures var key := SeekNumber(b.idx.Keys, from + 1, b.sequence);
            && P.Scanned(Entries(b), f, from, PositionOf(b, key), [])
            && (key.Some? ==> key.value in b.idx && 1 <= key.value <= b.sequence)
  {
    SeekIsNextLive(b, from);
    NextLiveSkipsNone(b, f, from);
  }
}

/** The store as the object the service keeps: one database, changed by transactions. */
module BoltBackends {
  import opened Common
  import opened BoltKeys
  import opened B = BoltStores
  import P = TrialPages

  class BoltBackend {
    var trials: map<string, Trial>
    var idx: map<nat, string>
    var sequence: nat

    ghost function View(): Bolt
      reads this
    {
      Bolt(trials, idx, sequence)
    }

    constructor ()
      ensures View() == NewBolt() && B.Inv(View())
    {
      trials, idx, sequence := map[], map[], 0;
    }

    /** A transaction that fails restores what it found. */
    method Rollback(t: map<string, Trial>, i: map<nat, string>, n: nat)
      modifies this
      ensures View() == Bolt(t, i, n)
    {
      trials, idx, sequence := t, i, n;
    }

    method CreateOrUpdateTrials(batch: seq<(string, Params)>) returns (ok: bool)
      modifies this
      ensures ok == Body(old(View()), CreateUpdate(batch)).Some?
      ensures View() == Commit(old(View()), CreateUpdate(batch))
    {
      var t, i, n := trials, idx, sequence;
      var k := 0;
      while k < |batch|
        invariant 0 <= k <= |batch|
        invariant AllCreated(old(View()), batch, k) == Some(View())
      {
        var (id, params) := batch[k];
        if id !in trials {
          if id == "" {
            FailedCreate(old(View()), batch, k, |batch|);
            Rollback(t, i, n);
            return false;
          }
          sequence := sequence + 1;
          idx := idx[sequence := id];
          trials := trials[id := Trial(0, sequence, params, map[])];
        } else {
          trials := trials[id := trials[id].(params := params)];
        }
        k := k + 1;
      }
      ok := true;
    }

    method DeleteTrials(ids: seq<string>)
      modifies this
      ensures View() == Commit(old(View()), DeleteUpdate(ids))
    {
      for k := 0 to |ids|
        invariant View() == AllDeleted(old(View()), ids, k)
      {
        var id := ids[k];
        if id in trials {
          var trialIdx := trials[id].trialIdx;
          trials := trials - {id};
          idx := idx - {trialIdx};
        }
      }
    }

    /** `scanned` is what a scan of the samples gives when the count cannot be read. */
    method AddSamples(samples: seq<Sample>, scanned: nat) returns (ok: bool)
      modifies this
      ensures ok == Body(old(View()), AddUpdate(samples, scanned)).Some?
      ensures View() == Commit(old(View()), AddUpdate(samples, scanned))
    {
      var t, i, n := trials, idx, sequence;
      var k := 0;
      while k < |samples|
        invariant 0 <= k <= |samples|
        invariant AllAdded(old(View()), samples, scanned, k) == Some(View())
      {
        var x := samples[k];
        if x.trialID !in trials {
          FailedAdd(old(View()), samples, scanned, k, |samples|);
          Rollback(t, i, n);
          return false;
        }
        AddSample(x, scanned);
        k := k + 1;
      }
      ok := true;
    }

    method AddSample(x: Sample, scanned: nat)
      requires x.trialID in trials
      modifies this`trials
      ensures trials == old(trials)[x.trialID := Added(old(trials)[x.trialID], x, scanned)]
    {
      var trial := trials[x.trialID];
      var tickExists := x.tick in trial.samples;
      trial := trial.(samples := trial.samples[x.tick := x]);
      if !tickExists {
        var prevCount := if trial.sampleCount <= MAX_INT32 then trial.sampleCount else scanned;
        trial := trial.(sampleCount := prevCount + 1);
      }
      trials := trials[x.trialID := trial];
    }

    /** The loop of the cursor, from the key it is given; it stops at the end or at a full page. */
    method ScanTrials(filter: P.Filter, first: Option<nat>, count: int, ghost from: nat)
      returns (infos: seq<TrialInfo>, key: Option<nat>, ghost page: seq<nat>)
      requires IdxOk(View()) && from <= sequence
      requires first == SeekNumber(idx.Keys, from + 1, sequence)
      ensures ScanOk(View(), Entries(View()), filter, from, count, key, infos, page)
      ensures key.None? || (0 < count == |page|)
    {
      ghost var b := View();
      CursorStarts(b, filter, from);
      key := first;
      infos, page := [], [];
      while key.Some? && !(count > 0 && |infos| >= count)
        invariant ScanOk(b, Entries(b), filter, from, count, key, infos, page)
        decreases if key.Some? then sequence + 1 - key.value else 0
      {
        var trialIdx, id := key.value, idx[key.value];
        assert EntryAt(b, trialIdx - 1) == P.Entry(id, true, trials[id].params.properties);
        if !(filter.SelectsID(id) && filter.SelectsProperties(trials[id].params.properties)) {
          PassingTurn(b, filter, from, count, trialIdx, infos, page);
        } else {
          TakingTurn(b, filter, from, count, trialIdx, infos, page);
          infos := infos + [InfoOf(id, trials[id])];
          page := page + [trialIdx - 1];
        }
        key := SeekNumber(idx.Keys, trialIdx + 1, sequence);
      }
    }

    /** False for the error that the key of the next trial cannot be read back. */
    method RetrieveTrials(filter: P.Filter, fromTrialIdx: int, count: int)
      returns (ok: bool, infos: seq<TrialInfo>, nextTrialIdx: int)
      requires IdxOk(View())
      ensures var page := P.Page(Entries(View()), filter, fromTrialIdx, count);
              && (ok <==> NextReads(View(), page, P.Start(fromTrialIdx), count))
              && (ok ==> InfosOf(View(), infos, page))
              && (ok ==> nextTrialIdx == NextAfter(View(), page, P.Start(fromTrialIdx), count))
    {
      var from := if fromTrialIdx <= 0 then 0 else fromTrialIdx;
      var key: Option<nat> := None;
      ghost var b := View();
      infos := [];
      ghost var page := [];
      if from <= sequence {
        key := SeekNumber(idx.Keys, from + 1, sequence);
        infos, key, page := ScanTrials(filter, key, count, from);
        P.ScanEnds(Entries(b), filter, fromTrialIdx, PositionOf(b, key), page, count);
      } else {
        P.ScanEnds(Entries(b), filter, fromTrialIdx, from, [], count);
      }
      if key.Some? {
        if key.value > MAX_INT32 {
          return false, [], 0;
        }
        nextTrialIdx := key.value - 1;
      } else {
        nextTrialIdx := sequence;
      }
      ok := true;
    }
  }

  /** The next position comes from the sequence, or from a key that can be read back. */
  ghost predicate NextReads(b: Bolt, page: seq<nat>, from: nat, count: int) {
    var next := NextAfter(b, page, from, count);
    next == b.sequence || next + 1 <= MAX_INT32
  }

  lemma {:induction false} FailedCreate(b: Bolt, batch: seq<(string, Params)>, k: nat, n: nat)
    requires k < n <= |batch| && AllCreated(b, batch, k).Some?
    requires Created(AllCreated(b, batch, k).value, batch[k].0, batch[k].1).None?
    ensures AllCreated(b, batch, n).None?
  {
    if n > k + 1 {
      FailedCreate(b, batch, k, n - 1);
    }
  }

  lemma {:induction false} FailedAdd(b: Bolt, samples: seq<Sample>, scanned: nat, k: nat, n: nat)
    requires k < n <= |samples| && AllAdded(b, samples, scanned, k).Some?
    requires samples[k].trialID !in AllAdded(b, samples, scanned, k).value.trials
    ensures AllAdded(b, samples, scanned, n).None?
  {
    if n > k + 1 {
      FailedAdd(b, samples, scanned, k, n - 1);
    }
  }
}
