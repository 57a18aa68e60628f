/**
 * The trial store in memory: every trial with its samples, and the list that tells which trial is evicted first.
 *
 * Operations are atomic.  Sizes are counted on 32 bits, so every sum wraps around.
 */
module MemoryStores {
  import opened Common
  import P = TrialPages

  const WORD: nat := 0x1_0000_0000

  /** `listed` tells whether the trial has an element in the eviction list. */
  datatype TrialData = TrialData(
    params: TrialParams, trialState: int, samplesCount: nat,
    stored: StoredSamples, storedSize: nat, listed: bool, deleted: bool)

  datatype TrialParams = TrialParams(userID: string, properties: map<string, string>)

  /** The observable list of the serialized samples. */
  datatype StoredSamples = StoredSamples(samples: seq<bytes>, ended: bool)

  /** `state` is the trial's state when the sample was taken. */
  datatype Sample = Sample(trialID: string, state: int, serialized: bytes)

  const ENDED: int := 5

  /** What moved a trial in the eviction list: it was created, or used while in the list. */
  datatype Touch = Creation(id: string) | Use(id: string)

  /** What was accepted: parameters, a sample, an eviction, a deletion. */
  datatype Entry =
    | Configured(id: string, params: TrialParams)
    | Took(sample: Sample)
    | Emptied(id: string)
    | Removed(id: string)

  /**
   * The front of `evList` is the next to be evicted: a new trial is put there, a trial that is used is moved to the
   * back.  `evicted`, `touches` and `log` are history.
   */
  datatype Store = Store(
    trials: map<string, TrialData>, evList: seq<string>, trialIDs: seq<string>,
    samplesSize: nat, maxSamplesSize: nat, evicted: set<string>, touches: seq<Touch>, log: seq<Entry>)

  // ---- Arithmetic on 32 bits ----

  function Add32(a: int, b: int): nat {
    (a + b) % WORD
  }

  /** The complement of all 32 bits. */
  function Not32(a: nat): int {
    WORD - 1 - a
  }

  /** The subtraction of `x` as it is written: the complement of `x - 1` is added. */
  function Subtracted(size: nat, x: nat): nat {
    Add32(size, Not32((x - 1) % WORD))
  }

  lemma AddingTheComplementSubtracts(size: nat, x: nat)
    requires size < WORD && x < WORD
    ensures Subtracted(size, x) == (size - x) % WORD
  {
    if x == 0 {
      assert (x - 1) % WORD == WORD - 1;
    } else {
      assert (x - 1) % WORD == x - 1;
      assert size + Not32(x - 1) == (size - x) + WORD;
      assert ((size - x) + WORD) % WORD == (size - x) % WORD;
    }
  }

  lemma Wraps(a: int, b: int)
    ensures ((a % WORD) + b) % WORD == (a + b) % WORD
    ensures (a + (b % WORD)) % WORD == (a + b) % WORD
    ensures (a - (b % WORD)) % WORD == (a - b) % WORD
  {
    var q, r := a / WORD, b / WORD;
    assert a == q * WORD + a % WORD && b == r * WORD + b % WORD;
    Shift((a % WORD) + b, q);
    Shift(a + (b % WORD), r);
    Shift(a - b, r);
  }

  lemma Shift(a: int, q: int)
    ensures (a + q * WORD) % WORD == a % WORD
  {
    var p := a / WORD;
    assert a + q * WORD == (p + q) * WORD + a % WORD;
    assert 0 <= a % WORD < WORD;
  }

  lemma SumWraps(total: nat, n: nat)
    ensures Add32(total % WORD, n % WORD) == (total + n) % WORD
  {
    Wraps(total, n % WORD);
    Wraps(total, n);
  }

  /** Adding to a size and to one of its parts alike. */
  lemma PartWraps(size: nat, part: nat, n: nat)
    ensures Add32(size, n) == (size + Add32(part, n) - part) % WORD
  {
    Wraps(size - part, part + n);
  }

  lemma DifferenceWraps(size: int, n: nat, part: nat)
    requires part < WORD
    ensures Subtracted((size - n) % WORD, part) == (size - (n + part)) % WORD
  {
    AddingTheComplementSubtracts((size - n) % WORD, part);
    Wraps(size - n, 0 - part);
  }

  // ---- Specification of the operations ----

  function NewStore(maxSamplesSize: nat): (s: Store)
    ensures Inv(s)
  {
    Store(map[], [], [], 0, maxSamplesSize, {}, [], [])
  }

  function Without(list: seq<string>, id: string): seq<string> {
    if list == [] then [] else if list[0] == id then list[1..] else [list[0]] + Without(list[1..], id)
  }

  /** A trial in the list goes to its back. */
  function Used(s: Store, id: string): Store
    requires id in s.trials
  {
    if s.trials[id].listed then s.(evList := Without(s.evList, id) + [id], touches := s.touches + [Use(id)]) else s
  }

  /** How many of the ids are known before the first unknown one. */
  function KnownPrefix(trials: map<string, TrialData>, ids: seq<string>, n: nat): (k: nat)
    requires n <= |ids|
    ensures k <= n
    ensures forall i | 0 <= i < k :: ids[i] in trials
    ensures k < n ==> ids[k] !in trials
  {
    if n == 0 then 0
    else
      var k := KnownPrefix(trials, ids, n - 1);
      if k < n - 1 then k else if ids[n - 1] in trials then n else n - 1
  }

  /** Looking up trials uses each in turn, also those before an unknown one. */
  function LookedUp(s: Store, ids: seq<string>, n: nat): (t: Store)
    requires n <= |ids| && forall i | 0 <= i < n :: ids[i] in s.trials
    ensures t.trials == s.trials
  {
    if n == 0 then s else Used(LookedUp(s, ids, n - 1), ids[n - 1])
  }

  function NewData(params: TrialParams): TrialData {
    TrialData(params, 0, 0, StoredSamples([], false), 0, true, false)
  }

  function Created(s: Store, id: string, params: TrialParams): Store {
    if id in s.trials then
      var t := Used(s, id);
      t.(trials := t.trials[id := t.trials[id].(params := params)], log := t.log + [Configured(id, params)])
    else
      s.(trials := s.trials[id := NewData(params)], evList := [id] + s.evList, trialIDs := s.trialIDs + [id],
         touches := s.touches + [Creation(id)], log := s.log + [Configured(id, params)])
  }

  function AllCreated(s: Store, batch: seq<(string, TrialParams)>, n: nat): Store
    requires n <= |batch|
  {
    if n == 0 then s else Created(AllCreated(s, batch, n - 1), batch[n - 1].0, batch[n - 1].1)
  }

  const DELETED := TrialData(TrialParams("", map[]), 0, 0, StoredSamples([], false), 0, false, true)

  function Deleted(s: Store, id: string): Store {
    if id !in s.trials then s
    else
      s.(evList := if s.trials[id].listed then Without(s.evList, id) else s.evList,
         samplesSize := Subtracted(s.samplesSize, s.trials[id].storedSize),
         trials := s.trials[id := DELETED], log := s.log + [Removed(id)])
  }

  function AllDeleted(s: Store, ids: seq<string>, n: nat): Store
    requires n <= |ids|
  {
    if n == 0 then s else Deleted(AllDeleted(s, ids, n - 1), ids[n - 1])
  }

  function SampleIDs(samples: seq<Sample>): (ids: seq<string>)
    ensures |ids| == |samples| && forall i | 0 <= i < |ids| :: ids[i] == samples[i].trialID
  {
    seq(|samples|, i requires 0 <= i < |samples| => samples[i].trialID)
  }

  function WithSample(d: TrialData, x: Sample): TrialData {
    d.(storedSize := Add32(d.storedSize, |x.serialized| % WORD),
       stored := StoredSamples(d.stored.samples + [x.serialized], x.state == ENDED),
       trialState := x.state, samplesCount := d.samplesCount + 1)
  }

  /** The trial has a list of samples. */
  predicate Addable(s: Store, x: Sample) {
    x.trialID in s.trials && !s.trials[x.trialID].deleted
  }

  function Added(s: Store, x: Sample): Store {
    if !Addable(s, x) then s
    else
      s.(samplesSize := Add32(s.samplesSize, |x.serialized| % WORD),
         trials := s.trials[x.trialID := WithSample(s.trials[x.trialID], x)], log := s.log + [Took(x)])
  }

  function AllAdded(s: Store, samples: seq<Sample>, n: nat): (t: Store)
    requires n <= |samples|
  {
    if n == 0 then s else Added(AllAdded(s, samples, n - 1), samples[n - 1])
  }

  /** A deleted trial has no sample list left to append to: the append crashes. */
  datatype AddOutcome = Stored(store: Store) | UnknownTrial(store: Store) | Crashed

  function AddSamples(s: Store, samples: seq<Sample>): AddOutcome {
    var ids := SampleIDs(samples);
    var k := KnownPrefix(s.trials, ids, |ids|);
    if k < |ids| then UnknownTrial(LookedUp(s, ids, k))
    else if exists i :: 0 <= i < |samples| && !Addable(s, samples[i]) then Crashed
    else Stored(AllAdded(LookedUp(s, ids, |ids|), samples, |samples|))
  }

  // ---- Eviction ----

  /** The front trial loses its samples. */
  function FrontEvicted(s: Store): Store
    requires s.evList != [] && s.evList[0] in s.trials
  {
    var id := s.evList[0];
    s.(samplesSize := Subtracted(s.samplesSize, s.trials[id].storedSize),
       trials := s.trials[id := s.trials[id].(stored := StoredSamples([], false), storedSize := 0, listed := false)],
       evList := s.evList[1..],
       evicted := s.evicted + {id}, log := s.log + [Emptied(id)])
  }

  /** The stored bytes of the first `k` trials of the eviction list. */
  ghost function FrontSize(s: Store, k: nat): nat
    requires k <= |s.evList| && forall i | 0 <= i < k :: s.evList[i] in s.trials
  {
    if k == 0 then 0 else FrontSize(s, k - 1) + s.trials[s.evList[k - 1]].storedSize
  }

  /** Eviction stops after `k` trials: the size fits, no trial is left, or the next one is still going on. */
  ghost predicate StopsAt(s: Store, k: nat)
    requires k <= |s.evList| && forall id | id in s.evList :: id in s.trials
  {
    || (s.samplesSize - FrontSize(s, k)) % WORD <= s.maxSamplesSize
    || k == |s.evList|
    || !s.trials[s.evList[k]].stored.ended
  }

  ghost function Emptyings(list: seq<string>): (entries: seq<Entry>)
    ensures |entries| == |list| && forall i | 0 <= i < |list| :: entries[i] == Emptied(list[i])
  {
    seq(|list|, i requires 0 <= i < |list| => Emptied(list[i]))
  }

  /** The store once exactly the first `k` trials of the eviction list have lost their samples. */
  ghost predicate EvictedTo(s: Store, t: Store, k: nat)
    requires k <= |s.evList| && forall id | id in s.evList :: id in s.trials
  {
    && t.evList == s.evList[k..]
    && t.samplesSize == (s.samplesSize - FrontSize(s, k)) % WORD
    && t.trialIDs == s.trialIDs && t.maxSamplesSize == s.maxSamplesSize
    && t.evicted == s.evicted + Elements(s.evList[..k]) && t.touches == s.touches
    && t.log == s.log + Emptyings(s.evList[..k])
    && t.trials.Keys == s.trials.Keys
    && forall id | id in s.trials :: t.trials[id] ==
         if id in s.evList[..k] then s.trials[id].(stored := StoredSamples([], false), storedSize := 0, listed := false)
         else s.trials[id]
  }

  // ---- Pages ----

  ghost predicate KnownIDs(s: Store) {
    forall i | 0 <= i < |s.trialIDs| :: s.trialIDs[i] in s.trials
  }

  /** The trials by creation position. */
  ghost function Entries(s: Store): (es: seq<P.Entry>)
    requires KnownIDs(s)
    ensures |es| == |s.trialIDs|
    ensures forall i | 0 <= i < |es| ::
      es[i] == P.Entry(s.trialIDs[i], !s.trials[s.trialIDs[i]].deleted, s.trials[s.trialIDs[i]].params.properties)
  {
    seq(|s.trialIDs|, i requires 0 <= i < |s.trialIDs| =>
      P.Entry(s.trialIDs[i], !s.trials[s.trialIDs[i]].deleted, s.trials[s.trialIDs[i]].params.properties))
  }

  /** The next position to ask for: after the last trial returned, or 0 when there is none. */
  function NextAfter(page: seq<nat>): nat {
    if page == [] then 0 else page[|page| - 1] + 1
  }

  datatype TrialInfo = TrialInfo(
    trialID: string, userID: string, state: int, samplesCount: nat, storedSamplesCount: nat)

  function InfoOf(id: string, d: TrialData): TrialInfo {
    TrialInfo(id, d.params.userID, d.trialState, d.samplesCount, |d.stored.samples|)
  }

  ghost predicate InfosOf(s: Store, infos: seq<TrialInfo>, page: seq<nat>) {
    && |infos| == |page|
    && forall i | 0 <= i < |page| ::
         && page[i] < |s.trialIDs| && s.trialIDs[page[i]] in s.trials
         && infos[i] == InfoOf(s.trialIDs[page[i]], s.trials[s.trialIDs[page[i]]])
  }

  lemma InfosMore(s: Store, infos: seq<TrialInfo>, page: seq<nat>, p: nat)
    requires InfosOf(s, infos, page) && p < |s.trialIDs| && s.trialIDs[p] in s.trials
    ensures InfosOf(s, infos + [InfoOf(s.trialIDs[p], s.trials[s.trialIDs[p]])], page + [p])
    ensures NextAfter(page + [p]) == p + 1
  {
  }

  /** The trials at the positions from `from` up to `to` have been looked at in turn. */
  ghost function UsedUpTo(s: Store, from: nat, to: nat): (t: Store)
    requires KnownIDs(s) && to <= |s.trialIDs|
    ensures t.trials == s.trials && t.trialIDs == s.trialIDs
  {
    if to <= from then s else Used(UsedUpTo(s, from, to - 1), s.trialIDs[to - 1])
  }

  // ---- What every operation keeps ----

  /** The sum of the stored sizes of the first `n` trials, in creation order. */
  ghost function SumSizes(trials: map<string, TrialData>, ids: seq<string>, n: nat): nat
    requires n <= |ids| && forall i | 0 <= i < n :: ids[i] in trials
  {
    if n == 0 then 0 else SumSizes(trials, ids, n - 1) + trials[ids[n - 1]].storedSize
  }

  function TotalBytes(samples: seq<bytes>): nat {
    if samples == [] then 0 else TotalBytes(samples[..|samples| - 1]) + |samples[|samples| - 1]|
  }

  ghost predicate DataOk(d: TrialData) {
    && d.storedSize == TotalBytes(d.stored.samples) % WORD
    && (d.deleted ==> d.storedSize == 0 && !d.listed)
  }

  /** The list holds exactly the trials neither deleted nor evicted, each once. */
  ghost predicate ListOk(s: Store) {
    && NoDup(s.evList)
    && (forall id :: id in s.evList <==> id in s.trials && s.trials[id].listed)
    && (forall id | id in s.trials :: s.trials[id].listed <==> !s.trials[id].deleted && id !in s.evicted)
  }

  ghost predicate IdsOk(s: Store) {
    NoDup(s.trialIDs) && forall id :: id in s.trialIDs <==> id in s.trials
  }

  ghost predicate SizeOk(s: Store)
    requires IdsOk(s)
  {
    s.samplesSize == SumSizes(s.trials, s.trialIDs, |s.trialIDs|) % WORD
  }

  ghost predicate Inv(s: Store) {
    && IdsOk(s) && ListOk(s) && SizeOk(s)
    && s.evicted <= s.trials.Keys
    && forall id | id in s.trials :: DataOk(s.trials[id])
  }

  lemma {:induction false} WithoutOk(list: seq<string>, id: string)
    requires NoDup(list)
    ensures NoDup(Without(list, id))
    ensures forall x :: x in Without(list, id) <==> x in list && x != id
  {
    if list != [] {
      assert list == [list[0]] + list[1..];
      WithoutOk(list[1..], id);
      if list[0] != id {
        var rest := Without(list[1..], id);
        assert forall i | 0 <= i < |rest| :: rest[i] in rest;
      }
    }
  }

  /** Changing one trial changes the sum by the difference. */
  lemma {:induction false} SumAfterUpdate(
    trials: map<string, TrialData>, ids: seq<string>, n: nat, id: string, d: TrialData)
    requires n <= |ids| && NoDup(ids) && (forall i | 0 <= i < n :: ids[i] in trials) && id in trials
    ensures SumSizes(trials[id := d], ids, n) ==
              SumSizes(trials, ids, n) + if id in ids[..n] then d.storedSize - trials[id].storedSize else 0
  {
    if n > 0 {
      SumAfterUpdate(trials, ids, n - 1, id, d);
      assert ids[..n] == ids[..n - 1] + [ids[n - 1]];
    }
  }

  lemma {:induction false} SumOfMore(
    trials: map<string, TrialData>, ids: seq<string>, more: seq<string>, id: string, d: TrialData, n: nat)
    requires n <= |ids| && (forall i | 0 <= i < n :: ids[i] in trials) && id !in trials
    ensures SumSizes(trials[id := d], ids + more, n) == SumSizes(trials, ids, n)
  {
    if n > 0 {
      SumOfMore(trials, ids, more, id, d, n - 1);
    }
  }

  lemma {:induction false} BytesOfMore(samples: seq<bytes>, x: bytes)
    ensures TotalBytes(samples + [x]) == TotalBytes(samples) + |x|
  {
    assert (samples + [x])[..|samples|] == samples;
  }

  /** A change of one trial, and of the total by the difference, keeps the total right. */
  lemma UpdateKeepsSize(s: Store, id: string, d: TrialData, size: nat)
    requires IdsOk(s) && SizeOk(s) && id in s.trials
    requires size == (s.samplesSize + d.storedSize - s.trials[id].storedSize) % WORD
    ensures SizeOk(s.(trials := s.trials[id := d], samplesSize := size))
  {
    var n, sum := |s.trialIDs|, SumSizes(s.trials, s.trialIDs, |s.trialIDs|);
    SumAfterUpdate(s.trials, s.trialIDs, n, id, d);
    assert s.trialIDs[..n] == s.trialIDs;
    Wraps(sum, d.storedSize - s.trials[id].storedSize);
  }

  lemma UsedKeepsInv(s: Store, id: string)
    requires Inv(s) && id in s.trials
    ensures Inv(Used(s, id))
  {
    WithoutOk(s.evList, id);
    var list := Without(s.evList, id);
    assert forall i | 0 <= i < |list| :: list[i] in list;
  }

  lemma NewKeepsSize(s: Store, id: string, params: TrialParams)
    requires IdsOk(s) && SizeOk(s) && id !in s.trials
    ensures IdsOk(Created(s, id, params)) && SizeOk(Created(s, id, params))
  {
    var t, n := Created(s, id, params), |s.trialIDs|;
    SumOfMore(s.trials, s.trialIDs, [id], id, NewData(params), n);
    assert forall i | 0 <= i < n :: s.trialIDs[i] in s.trialIDs;
    assert t.trialIDs[n] == id;
    assert SumSizes(t.trials, t.trialIDs, n + 1) == SumSizes(t.trials, t.trialIDs, n);
  }

  lemma NewKeepsList(s: Store, id: string, params: TrialParams)
    requires ListOk(s) && s.evicted <= s.trials.Keys && id !in s.trials
    ensures ListOk(Created(s, id, params))
  {
    var t := Created(s, id, params);
    assert forall i | 0 <= i < |s.evList| :: s.evList[i] in s.evList;
    assert t.evList[0] == id && t.evList[1..] == s.evList;
  }

  lemma ParamsKeepInv(s: Store, id: string, params: TrialParams)
    requires Inv(s) && id in s.trials
    ensures Inv(s.(trials := s.trials[id := s.trials[id].(params := params)]))
  {
    UpdateKeepsSize(s, id, s.trials[id].(params := params), s.samplesSize);
  }

  lemma CreatedKeepsInv(s: Store, id: string, params: TrialParams)
    requires Inv(s)
    ensures Inv(Created(s, id, params))
  {
    if id in s.trials {
      UsedKeepsInv(s, id);
      ParamsKeepInv(Used(s, id), id, params);
    } else {
      NewKeepsSize(s, id, params);
      NewKeepsList(s, id, params);
    }
  }

  lemma DeletedKeepsList(s: Store, id: string)
    requires ListOk(s) && id in s.trials
    ensures ListOk(Deleted(s, id))
  {
    WithoutOk(s.evList, id);
    var t := Deleted(s, id);
    assert t.trials == s.trials[id := DELETED] && t.evicted == s.evicted;
  }

  lemma DeletedKeepsSize(s: Store, id: string)
    requires IdsOk(s) && SizeOk(s) && id in s.trials && s.trials[id].storedSize < WORD
    ensures IdsOk(Deleted(s, id)) && SizeOk(Deleted(s, id))
  {
    AddingTheComplementSubtracts(s.samplesSize, s.trials[id].storedSize);
    UpdateKeepsSize(s, id, DELETED, Deleted(s, id).samplesSize);
  }

  lemma DeletedKeepsInv(s: Store, id: string)
    requires Inv(s)
    ensures Inv(Deleted(s, id))
  {
    if id in s.trials {
      assert DataOk(s.trials[id]);
      DeletedKeepsList(s, id);
      DeletedKeepsSize(s, id);
    }
  }

  lemma AddedKeepsInv(s: Store, x: Sample)
    requires Inv(s)
    ensures Inv(Added(s, x))
  {
    if Addable(s, x) {
      var d, n := s.trials[x.trialID], |x.serialized|;
      BytesOfMore(d.stored.samples, x.serialized);
      SumWraps(TotalBytes(d.stored.samples), n);
      PartWraps(s.samplesSize, d.storedSize, n % WORD);
      UpdateKeepsSize(s, x.trialID, WithSample(d, x), Added(s, x).samplesSize);
    }
  }

  lemma FrontEvictedKeepsList(s: Store)
    requires ListOk(s) && s.evList != []
    ensures s.evList[0] in s.trials && ListOk(FrontEvicted(s))
  {
    assert s.evList[0] in s.evList;
    assert s.evList == [s.evList[0]] + s.evList[1..];
  }

  lemma FrontEvictedKeepsSize(s: Store)
    requires IdsOk(s) && SizeOk(s) && s.evList != [] && s.evList[0] in s.trials
    requires s.trials[s.evList[0]].storedSize < WORD
    ensures IdsOk(FrontEvicted(s)) && SizeOk(FrontEvicted(s))
  {
    var id := s.evList[0];
    AddingTheComplementSubtracts(s.samplesSize, s.trials[id].storedSize);
    UpdateKeepsSize(s, id, FrontEvicted(s).trials[id], FrontEvicted(s).samplesSize);
  }

  lemma FrontEvictedKeepsInv(s: Store)
    requires Inv(s) && s.evList != []
    ensures s.evList[0] in s.trials && Inv(FrontEvicted(s))
  {
    FrontEvictedKeepsList(s);
    assert DataOk(s.trials[s.evList[0]]);
    FrontEvictedKeepsSize(s);
  }

  lemma {:induction false} LookedUpKeepsInv(s: Store, ids: seq<string>, n: nat)
    requires Inv(s) && n <= |ids| && forall i | 0 <= i < n :: ids[i] in s.trials
    ensures Inv(LookedUp(s, ids, n))
  {
    if n > 0 {
      LookedUpKeepsInv(s, ids, n - 1);
      UsedKeepsInv(LookedUp(s, ids, n - 1), ids[n - 1]);
    }
  }

  lemma {:induction false} AllCreatedKeepsInv(s: Store, batch: seq<(string, TrialParams)>, n: nat)
    requires Inv(s) && n <= |batch|
    ensures Inv(AllCreated(s, batch, n))
  {
    if n > 0 {
      AllCreatedKeepsInv(s, batch, n - 1);
      CreatedKeepsInv(AllCreated(s, batch, n - 1), batch[n - 1].0, batch[n - 1].1);
    }
  }

  lemma {:induction false} AllDeletedKeepsInv(s: Store, ids: seq<string>, n: nat)
    requires Inv(s) && n <= |ids|
    ensures Inv(AllDeleted(s, ids, n))
  {
    if n > 0 {
      AllDeletedKeepsInv(s, ids, n - 1);
      DeletedKeepsInv(AllDeleted(s, ids, n - 1), ids[n - 1]);
    }
  }

  lemma {:induction false} AllAddedKeepsInv(s: Store, samples: seq<Sample>, n: nat)
    requires Inv(s) && n <= |samples|
    ensures Inv(AllAdded(s, samples, n))
  {
    if n > 0 {
      AllAddedKeepsInv(s, samples, n - 1);
      AddedKeepsInv(AllAdded(s, samples, n - 1), samples[n - 1]);
    }
  }

  lemma AddSamplesKeepsInv(s: Store, samples: seq<Sample>)
    requires Inv(s)
    ensures !AddSamples(s, samples).Crashed? ==> Inv(AddSamples(s, samples).store)
  {
    var ids := SampleIDs(samples);
    var k := KnownPrefix(s.trials, ids, |ids|);
    LookedUpKeepsInv(s, ids, k);
    if AddSamples(s, samples).Stored? {
      AllAddedKeepsInv(LookedUp(s, ids, k), samples, |samples|);
    }
  }

  /** One more trial evicted. */
  lemma EvictOneMore(s: Store, t: Store, k: nat)
    requires Inv(s) && Inv(t) && k < |s.evList| && EvictedTo(s, t, k)
    ensures t.evList[0] == s.evList[k] && t.evList[0] in t.trials
    ensures t.trials[t.evList[0]] == s.trials[s.evList[k]]
    ensures EvictedTo(s, FrontEvicted(t), k + 1)
  {
    var id := s.evList[k];
    assert id in s.evList && id !in s.evList[..k];
    assert DataOk(s.trials[id]);
    EvictedOneMore(s, t, k);
  }

  lemma EvictedOneMore(s: Store, t: Store, k: nat)
    requires k < |s.evList| && (forall id | id in s.evList :: id in s.trials) && EvictedTo(s, t, k)
    requires s.evList[k] !in s.evList[..k] && s.trials[s.evList[k]].storedSize < WORD
    ensures EvictedTo(s, FrontEvicted(t), k + 1)
  {
    var id, u := s.evList[k], FrontEvicted(t);
    assert s.evList[..k + 1] == s.evList[..k] + [id];
    assert u.evList == s.evList[k + 1..];
    DifferenceWraps(s.samplesSize, FrontSize(s, k), s.trials[id].storedSize);
    assert u.samplesSize == (s.samplesSize - FrontSize(s, k + 1)) % WORD;
    assert u.evicted == s.evicted + Elements(s.evList[..k + 1]);
  }

  // ---- Runs ----

  datatype Op =
    | CreateOp(batch: seq<(string, TrialParams)>)
    | DeleteOp(ids: seq<string>)
    | LookUpOp(ids: seq<string>)
    | AddOp(samples: seq<Sample>)
    | EvictOp

  /** How many trials an eviction evicts. */
  ghost function EvictCount(s: Store, k: nat): (n: nat)
    requires k <= |s.evList| && forall id | id in s.evList :: id in s.trials
    ensures k <= n <= |s.evList| && StopsAt(s, n) && forall j | k <= j < n :: !StopsAt(s, j)
    decreases |s.evList| - k
  {
    if StopsAt(s, k) then k else EvictCount(s, k + 1)
  }

  ghost function EvictFronts(s: Store, n: nat): (t: Store)
    requires Inv(s) && n <= |s.evList|
    ensures Inv(t) && EvictedTo(s, t, n)
  {
    if n == 0 then
      assert s.evList[..0] == [];
      s
    else
      var t := EvictFronts(s, n - 1);
      EvictOneMore(s, t, n - 1);
      FrontEvictedKeepsInv(t);
      FrontEvicted(t)
  }

  ghost function Apply(s: Store, op: Op): (t: Option<Store>)
    requires Inv(s)
  {
    match op
    case CreateOp(batch) => Some(AllCreated(s, batch, |batch|))
    case DeleteOp(ids) => Some(AllDeleted(s, ids, |ids|))
    case LookUpOp(ids) => Some(LookedUp(s, ids, KnownPrefix(s.trials, ids, |ids|)))
    case AddOp(samples) => if AddSamples(s, samples).Crashed? then None else Some(AddSamples(s, samples).store)
    case EvictOp => Some(EvictFronts(s, EvictCount(s, 0)))
  }

  lemma ApplyKeepsInv(s: Store, op: Op)
    requires Inv(s)
    ensures Apply(s, op).Some? ==> Inv(Apply(s, op).value)
  {
    match op {
      case CreateOp(batch) => AllCreatedKeepsInv(s, batch, |batch|);
      case DeleteOp(ids) => AllDeletedKeepsInv(s, ids, |ids|);
      case LookUpOp(ids) => LookedUpKeepsInv(s, ids, KnownPrefix(s.trials, ids, |ids|));
      case AddOp(samples) => AddSamplesKeepsInv(s, samples);
      case EvictOp =>
    }
  }

  ghost function Run(s: Store, ops: seq<Op>): (end: Option<Store>)
    requires Inv(s)
    ensures end.Some? ==> Inv(end.value)
    decreases |ops|
  {
    if ops == [] then Some(s)
    else
      ApplyKeepsInv(s, ops[0]);
      if Apply(s, ops[0]).None? then None else Run(Apply(s, ops[0]).value, ops[1..])
  }

  /**
   * After every run: the size is the sum of the stored sizes, each of which counts the trial's stored bytes, all modulo
   * 2^32; the eviction list has no duplicate and holds exactly the trials neither deleted nor evicted.
   */
  lemma AccountingIsExact(maxSamplesSize: nat, ops: seq<Op>)
    requires Run(NewStore(maxSamplesSize), ops).Some?
    ensures var s := Run(NewStore(maxSamplesSize), ops).value;
            && NoDup(s.trialIDs) && (forall id :: id in s.trialIDs <==> id in s.trials)
            && s.samplesSize == SumSizes(s.trials, s.trialIDs, |s.trialIDs|) % WORD
            && (forall id | id in s.trials ::
                  s.trials[id].storedSize == TotalBytes(s.trials[id].stored.samples) % WORD)
            && NoDup(s.evList)
            && (forall id :: id in s.evList <==> id in s.trials && !s.trials[id].deleted && id !in s.evicted)
  {
    var s := Run(NewStore(maxSamplesSize), ops).value;
    assert forall id | id in s.trials :: DataOk(s.trials[id]);
  }

  // ---- The order of the eviction list ----

  /** One more than the position of the last touch of a trial; 0 when it was never touched. */
  function LastTouch(touches: seq<Touch>, id: string): (k: nat)
    ensures k <= |touches| && (k > 0 ==> touches[k - 1].id == id)
    ensures forall j | k <= j < |touches| :: touches[j].id != id
  {
    if touches == [] then 0
    else if touches[|touches| - 1].id == id then |touches|
    else LastTouch(touches[..|touches| - 1], id)
  }

  /**
   * Where a trial stands in the list: the used ones by their last use,
   * those never used before them, youngest first.
   */
  function Stamp(touches: seq<Touch>, id: string): int {
    var k := LastTouch(touches, id);
    if k > 0 && touches[k - 1].Creation? then 0 - k else k
  }

  lemma TouchMoves(touches: seq<Touch>, e: Touch, id: string)
    ensures LastTouch(touches + [e], id) == if e.id == id then |touches| + 1 else LastTouch(touches, id)
    ensures Stamp(touches + [e], id) ==
            if e.id != id then Stamp(touches, id) else if e.Creation? then 0 - |touches| - 1 else |touches| + 1
  {
    assert (touches + [e])[..|touches|] == touches;
  }

  ghost predicate AscendingBy(touches: seq<Touch>, list: seq<string>) {
    forall i, j | 0 <= i < j < |list| :: Stamp(touches, list[i]) < Stamp(touches, list[j])
  }

  /** A trial is touched by its creation first. */
  ghost predicate CreatedFirst(touches: seq<Touch>) {
    forall i, j | 0 <= i < j < |touches| && touches[j].Creation? :: touches[i].id != touches[j].id
  }

  ghost predicate OrderOk(s: Store) {
    && AscendingBy(s.touches, s.evList)
    && CreatedFirst(s.touches)
    && (forall e | e in s.touches :: e.id in s.trials)
    && (forall id | id in s.evList :: LastTouch(s.touches, id) > 0)
  }

  /** The first occurrence is taken out, if there is one. */
  lemma {:induction false} WithoutSplits(list: seq<string>, id: string) returns (p: nat)
    ensures p <= |list| && id !in list[..p]
    ensures p < |list| ==> list[p] == id && Without(list, id) == list[..p] + list[p + 1..]
    ensures p == |list| ==> Without(list, id) == list && id !in list
  {
    if list == [] || list[0] == id {
      p := 0;
    } else {
      var q := WithoutSplits(list[1..], id);
      p := q + 1;
      assert list == [list[0]] + list[1..];
      assert list[..p] == [list[0]] + list[1..][..q];
    }
  }

  lemma WithoutAscends(touches: seq<Touch>, list: seq<string>, id: string)
    requires AscendingBy(touches, list)
    ensures AscendingBy(touches, Without(list, id)) && id !in Without(list, id)
    ensures forall x | x in Without(list, id) :: x in list
  {
    var p := WithoutSplits(list, id);
    var rest := Without(list, id);
    if p < |list| {
      assert forall i | 0 <= i < |rest| :: rest[i] == list[if i < p then i else i + 1];
      assert forall i | 0 <= i < |list| && i != p :: Stamp(touches, list[i]) != Stamp(touches, id);
    }
  }

  lemma UsedAscends(touches: seq<Touch>, list: seq<string>, id: string)
    requires AscendingBy(touches, list) && id !in list
    ensures AscendingBy(touches + [Use(id)], list + [id])
  {
    var e, more := Use(id), list + [id];
    forall i, j | 0 <= i < j < |more| ensures Stamp(touches + [e], more[i]) < Stamp(touches + [e], more[j]) {
      TouchMoves(touches, e, more[i]);
      TouchMoves(touches, e, more[j]);
      assert more[i] in list;
    }
  }

  lemma NewAscends(touches: seq<Touch>, list: seq<string>, id: string)
    requires AscendingBy(touches, list) && id !in list
    ensures AscendingBy(touches + [Creation(id)], [id] + list)
  {
    var e, more := Creation(id), [id] + list;
    forall i, j | 0 <= i < j < |more| ensures Stamp(touches + [e], more[i]) < Stamp(touches + [e], more[j]) {
      TouchMoves(touches, e, more[i]);
      TouchMoves(touches, e, more[j]);
      assert more[j] in list;
    }
  }

  lemma TouchesStay(touches: seq<Touch>, e: Touch, list: seq<string>)
    requires forall id | id in list :: id == e.id || LastTouch(touches, id) > 0
    ensures forall id | id in list :: LastTouch(touches + [e], id) > 0
  {
    forall id | id in list ensures LastTouch(touches + [e], id) > 0 {
      TouchMoves(touches, e, id);
    }
  }

  lemma UsedKeepsOrder(s: Store, id: string)
    requires OrderOk(s) && id in s.trials
    ensures OrderOk(Used(s, id))
  {
    if s.trials[id].listed {
      WithoutAscends(s.touches, s.evList, id);
      UsedAscends(s.touches, Without(s.evList, id), id);
      TouchesStay(s.touches, Use(id), Without(s.evList, id) + [id]);
    }
  }

  lemma CreatedKeepsOrder(s: Store, id: string, params: TrialParams)
    requires OrderOk(s) && forall x | x in s.evList :: x in s.trials
    ensures OrderOk(Created(s, id, params))
  {
    if id in s.trials {
      UsedKeepsOrder(s, id);
    } else {
      NewAscends(s.touches, s.evList, id);
      TouchesStay(s.touches, Creation(id), [id] + s.evList);
      assert forall i | 0 <= i < |s.touches| :: s.touches[i] in s.touches;
    }
  }

  lemma DeletedKeepsOrder(s: Store, id: string)
    requires OrderOk(s)
    ensures OrderOk(Deleted(s, id))
  {
    WithoutAscends(s.touches, s.evList, id);
  }

  lemma {:induction false} LookedUpKeepsOrder(s: Store, ids: seq<string>, n: nat)
    requires OrderOk(s) && n <= |ids| && forall i | 0 <= i < n :: ids[i] in s.trials
    ensures OrderOk(LookedUp(s, ids, n))
  {
    if n > 0 {
      LookedUpKeepsOrder(s, ids, n - 1);
      UsedKeepsOrder(LookedUp(s, ids, n - 1), ids[n - 1]);
    }
  }

  lemma {:induction false} AllCreatedKeepsOrder(s: Store, batch: seq<(string, TrialParams)>, n: nat)
    requires Inv(s) && OrderOk(s) && n <= |batch|
    ensures OrderOk(AllCreated(s, batch, n))
  {
    if n > 0 {
      AllCreatedKeepsOrder(s, batch, n - 1);
      AllCreatedKeepsInv(s, batch, n - 1);
      ListedAreKnown(AllCreated(s, batch, n - 1));
      CreatedKeepsOrder(AllCreated(s, batch, n - 1), batch[n - 1].0, batch[n - 1].1);
    }
  }

  lemma ListedAreKnown(s: Store)
    requires Inv(s)
    ensures forall id | id in s.evList :: id in s.trials
  {
  }

  lemma {:induction false} AllDeletedKeepsOrder(s: Store, ids: seq<string>, n: nat)
    requires OrderOk(s) && n <= |ids|
    ensures OrderOk(AllDeleted(s, ids, n))
  {
    if n > 0 {
      AllDeletedKeepsOrder(s, ids, n - 1);
      DeletedKeepsOrder(AllDeleted(s, ids, n - 1), ids[n - 1]);
    }
  }

  lemma {:induction false} AllAddedKeepsOrder(s: Store, samples: seq<Sample>, n: nat)
    requires OrderOk(s) && n <= |samples|
    ensures OrderOk(AllAdded(s, samples, n))
  {
    if n > 0 {
      AllAddedKeepsOrder(s, samples, n - 1);
    }
  }

  lemma EvictedKeepsOrder(s: Store, t: Store, k: nat)
    requires OrderOk(s) && k <= |s.evList| && (forall id | id in s.evList :: id in s.trials) && EvictedTo(s, t, k)
    ensures OrderOk(t)
  {
  }

  lemma ApplyKeepsOrder(s: Store, op: Op)
    requires Inv(s) && OrderOk(s)
    ensures Apply(s, op).Some? ==> OrderOk(Apply(s, op).value)
  {
    match op {
      case CreateOp(batch) => AllCreatedKeepsOrder(s, batch, |batch|);
      case DeleteOp(ids) => AllDeletedKeepsOrder(s, ids, |ids|);
      case LookUpOp(ids) => LookedUpKeepsOrder(s, ids, KnownPrefix(s.trials, ids, |ids|));
      case AddOp(samples) =>
        var ids := SampleIDs(samples);
        var k := KnownPrefix(s.trials, ids, |ids|);
        LookedUpKeepsOrder(s, ids, k);
        AllAddedKeepsOrder(LookedUp(s, ids, k), samples, |samples|);
      case EvictOp => EvictedKeepsOrder(s, EvictFronts(s, EvictCount(s, 0)), EvictCount(s, 0));
    }
  }

  lemma {:induction false} RunKeepsOrder(s: Store, ops: seq<Op>)
    requires Inv(s) && OrderOk(s)
    ensures Run(s, ops).Some? ==> OrderOk(Run(s, ops).value)
    decreases |ops|
  {
    if ops != [] && Apply(s, ops[0]).Some? {
      ApplyKeepsInv(s, ops[0]);
      ApplyKeepsOrder(s, ops[0]);
      RunKeepsOrder(Apply(s, ops[0]).value, ops[1..]);
    }
  }

  /** The list runs from the trial touched longest ago to the one touched last. */
  ghost predicate InOrderOfTouch(touches: seq<Touch>, list: seq<string>) {
    forall i, j | 0 <= i < j < |list| :: LastTouch(touches, list[i]) < LastTouch(touches, list[j])
  }

  /** A trial never used was created after another one of the list was last touched. */
  ghost predicate UnusedIsYounger(touches: seq<Touch>, list: seq<string>, unused: string, other: string) {
    && unused in list && other in list && Use(unused) !in touches
    && LastTouch(touches, other) < LastTouch(touches, unused)
  }

  lemma UnusedStamp(touches: seq<Touch>, id: string)
    requires CreatedFirst(touches) && LastTouch(touches, id) > 0
    ensures Stamp(touches, id) == if Use(id) in touches then LastTouch(touches, id) else 0 - LastTouch(touches, id)
  {
    var k := LastTouch(touches, id);
    if touches[k - 1].Use? {
      assert touches[k - 1] == Use(id);
    } else {
      forall i | 0 <= i < |touches| ensures touches[i] != Use(id) {
        assert i < k - 1 ==> touches[i].id != touches[k - 1].id;
      }
    }
  }

  lemma OrderOfTouch(touches: seq<Touch>, list: seq<string>)
    requires AscendingBy(touches, list)
    requires forall id | id in list ::
               && LastTouch(touches, id) > 0
               && Stamp(touches, id) ==
                    if Use(id) in touches then LastTouch(touches, id) else 0 - LastTouch(touches, id)
    ensures InOrderOfTouch(touches, list) <==> !exists x, y :: UnusedIsYounger(touches, list, x, y)
  {
    if x, y :| UnusedIsYounger(touches, list, x, y) {
      var i :| 0 <= i < |list| && list[i] == x;
      var j :| 0 <= j < |list| && list[j] == y;
      assert Stamp(touches, x) < 0;
      assert i < j;
    } else {
      forall i, j | 0 <= i < j < |list| ensures LastTouch(touches, list[i]) < LastTouch(touches, list[j]) {
        assert list[i] in list && list[j] in list;
        assert !UnusedIsYounger(touches, list, list[i], list[j]);
        assert Stamp(touches, list[i]) < Stamp(touches, list[j]);
        assert LastTouch(touches, list[i]) != LastTouch(touches, list[j]);
      }
    }
  }

  /**
   * After every run the list is in the order of the stamps: first the trials never used, the youngest first, then those
   * used, by their last use.  So it is in the order of last touch exactly when no trial never used was created after
   * another one of the list was last touched.
   */
  lemma ListOrder(maxSamplesSize: nat, ops: seq<Op>)
    requires Run(NewStore(maxSamplesSize), ops).Some?
    ensures var s := Run(NewStore(maxSamplesSize), ops).value;
            && AscendingBy(s.touches, s.evList)
            && (forall id | id in s.evList ::
                  && LastTouch(s.touches, id) > 0
                  && (Stamp(s.touches, id) < 0 <==> Use(id) !in s.touches))
            && (InOrderOfTouch(s.touches, s.evList) <==>
                  !exists x, y :: UnusedIsYounger(s.touches, s.evList, x, y))
  {
    RunKeepsOrder(NewStore(maxSamplesSize), ops);
    var s := Run(NewStore(maxSamplesSize), ops).value;
    forall id | id in s.evList
      ensures LastTouch(s.touches, id) > 0
              && Stamp(s.touches, id) ==
                 if Use(id) in s.touches then LastTouch(s.touches, id) else 0 - LastTouch(s.touches, id)
    {
      UnusedStamp(s.touches, id);
    }
    OrderOfTouch(s.touches, s.evList);
  }

  /** Of two trials created one after the other, the younger is the next to be evicted. */
  lemma YoungerIsNext(maxSamplesSize: nat, a: string, b: string, params: TrialParams)
    requires a != b
    ensures var end := Run(NewStore(maxSamplesSize), [CreateOp([(a, params), (b, params)])]);
            && end.Some? && end.value.evList == [b, a]
            && UnusedIsYounger(end.value.touches, end.value.evList, b, a)
            && !InOrderOfTouch(end.value.touches, end.value.evList)
  {
    var s0, batch := NewStore(maxSamplesSize), [(a, params), (b, params)];
    var s1 := Created(s0, a, params);
    var s2 := Created(s1, b, params);
    assert AllCreated(s0, batch, 0) == s0 && AllCreated(s0, batch, 1) == s1 && AllCreated(s0, batch, 2) == s2;
    RunOnce(s0, CreateOp(batch));
    assert s1.evList == [a] && s1.touches == [Creation(a)];
    assert s2.evList == [b, a] && s2.touches == [Creation(a), Creation(b)];
    TwoCreations(a, b);
  }

  lemma TwoCreations(a: string, b: string)
    requires a != b
    ensures UnusedIsYounger([Creation(a), Creation(b)], [b, a], b, a)
    ensures !InOrderOfTouch([Creation(a), Creation(b)], [b, a])
  {
    var touches, list := [Creation(a), Creation(b)], [b, a];
    assert touches[0].id == a && touches[1].id == b;
    assert LastTouch(touches, b) == 2 && LastTouch(touches, a) == 1;
    assert list[0] == b && list[1] == a;
  }

  lemma RunOnce(s: Store, op: Op)
    requires Inv(s)
    ensures Run(s, [op]) == Apply(s, op)
  {
    ApplyKeepsInv(s, op);
    var end := Apply(s, op);
    assert [op][1..] == [];
    if end.Some? {
      RunNothing(end.value);
    }
  }

  lemma RunNothing(s: Store)
    requires Inv(s)
    ensures Run(s, []) == Some(s)
  {
  }

  /**
   * In every reachable store: eviction takes exactly the shortest prefix of the eviction list after which the size
   * fits, the list is empty, or the next trial is still going on; every trial it takes is an ended one, and has a
   * lower stamp than any trial it leaves.
   */
  lemma EvictionIsShortest(maxSamplesSize: nat, ops: seq<Op>)
    requires Run(NewStore(maxSamplesSize), ops).Some?
    ensures var s := Run(NewStore(maxSamplesSize), ops).value;
            var n := EvictCount(s, 0);
            && Apply(s, EvictOp).Some? && EvictedTo(s, Apply(s, EvictOp).value, n)
            && StopsAt(s, n) && (forall j | 0 <= j < n :: !StopsAt(s, j))
            && (forall j | 0 <= j < n :: s.trials[s.evList[j]].stored.ended)
            && (forall i, j | 0 <= i < n <= j < |s.evList| ::
                  Stamp(s.touches, s.evList[i]) < Stamp(s.touches, s.evList[j]))
  {
    RunKeepsOrder(NewStore(maxSamplesSize), ops);
    var s := Run(NewStore(maxSamplesSize), ops).value;
    var n := EvictCount(s, 0);
    forall j | 0 <= j < n ensures s.trials[s.evList[j]].stored.ended {
      assert !StopsAt(s, j);
    }
  }

  /** A trial that has been deleted stays deleted, even when it is created again. */
  lemma {:induction false} DeletedForGood(s: Store, ops: seq<Op>, id: string)
    requires Inv(s) && id in s.trials && s.trials[id].deleted && Run(s, ops).Some?
    ensures id in Run(s, ops).value.trials && Run(s, ops).value.trials[id].deleted
    decreases |ops|
  {
    if ops != [] {
      ApplyKeepsInv(s, ops[0]);
      ApplyKeepsDeleted(s, ops[0], id);
      DeletedForGood(Apply(s, ops[0]).value, ops[1..], id);
    }
  }

  lemma ApplyKeepsDeleted(s: Store, op: Op, id: string)
    requires Inv(s) && id in s.trials && s.trials[id].deleted && Apply(s, op).Some?
    ensures id in Apply(s, op).value.trials && Apply(s, op).value.trials[id].deleted
  {
    match op {
      case CreateOp(batch) => DeletionsStay(s, batch, |batch|, id);
      case DeleteOp(ids) => DeletingKeepsDeleted(s, ids, |ids|, id);
      case AddOp(samples) => AddingKeepsDeleted(s, samples, id);
      case _ =>
    }
  }

  /** After a creation, every trial of the batch can be retrieved but those deleted before. */
  lemma {:induction false} CreatedUnlessDeleted(s: Store, batch: seq<(string, TrialParams)>, n: nat, i: nat)
    requires i < n <= |batch|
    ensures var t, id := AllCreated(s, batch, n), batch[i].0;
            && id in t.trials
            && (t.trials[id].deleted <==> id in s.trials && s.trials[id].deleted)
  {
    DeletionsStay(s, batch, n - 1, batch[n - 1].0);
    if i < n - 1 {
      CreatedUnlessDeleted(s, batch, n - 1, i);
    }
  }

  /** A creation neither deletes a trial nor brings one back. */
  lemma {:induction false} DeletionsStay(s: Store, batch: seq<(string, TrialParams)>, n: nat, id: string)
    requires n <= |batch|
    ensures var t := AllCreated(s, batch, n);
            && (id in s.trials ==> id in t.trials && t.trials[id].deleted == s.trials[id].deleted)
            && (id in t.trials && t.trials[id].deleted ==> id in s.trials)
  {
    if n > 0 {
      DeletionsStay(s, batch, n - 1, id);
    }
  }

  lemma {:induction false} DeletingKeepsDeleted(s: Store, ids: seq<string>, n: nat, id: string)
    requires n <= |ids| && id in s.trials && s.trials[id].deleted
    ensures id in AllDeleted(s, ids, n).trials && AllDeleted(s, ids, n).trials[id].deleted
  {
    if n > 0 {
      DeletingKeepsDeleted(s, ids, n - 1, id);
    }
  }

  lemma AddingKeepsDeleted(s: Store, samples: seq<Sample>, id: string)
    requires id in s.trials && s.trials[id].deleted && !AddSamples(s, samples).Crashed?
    ensures id in AddSamples(s, samples).store.trials && AddSamples(s, samples).store.trials[id].deleted
  {
    var ids := SampleIDs(samples);
    if AddSamples(s, samples).Stored? {
      AllAddedKeepsDeleted(LookedUp(s, ids, |ids|), samples, |samples|, id);
    }
  }

  lemma {:induction false} AllAddedKeepsDeleted(s: Store, samples: seq<Sample>, n: nat, id: string)
    requires n <= |samples| && id in s.trials && s.trials[id].deleted
    ensures id in AllAdded(s, samples, n).trials && AllAdded(s, samples, n).trials[id].deleted
  {
    if n > 0 {
      AllAddedKeepsDeleted(s, samples, n - 1, id);
    }
  }
}

/** The store as the object the service keeps. */
module MemoryBackends {
  import opened Common
  import P = TrialPages
  import opened M = MemoryStores

  datatype AddResult = Done | Unknown | Panicked

  class MemoryBackend {
    var trials: map<string, TrialData>
    var trialsEvList: seq<string>
    var trialIDs: seq<string>
    var samplesSize: nat
    const maxSamplesSize: nat
    ghost var evicted: set<string>
    ghost var touches: seq<Touch>
    ghost var log: seq<Entry>

    ghost function View(): Store
      reads this
    {
      Store(trials, trialsEvList, trialIDs, samplesSize, maxSamplesSize, evicted, touches, log)
    }

    constructor (maxSamplesSize: nat)
      ensures View() == NewStore(maxSamplesSize) && M.Inv(View())
    {
      trials, trialsEvList, trialIDs, samplesSize, evicted, touches, log := map[], [], [], 0, {}, [], [];
      this.maxSamplesSize := maxSamplesSize;
    }

    method RemoveFromEvList(id: string)
      modifies this`trialsEvList
      ensures trialsEvList == Without(old(trialsEvList), id)
    {
      var i := 0;
      assert trialsEvList[0..] == trialsEvList;
      while i < |trialsEvList|
        invariant 0 <= i <= |trialsEvList| && trialsEvList == old(trialsEvList)
        invariant Without(trialsEvList, id) == trialsEvList[..i] + Without(trialsEvList[i..], id)
      {
        var rest := trialsEvList[i..];
        assert rest[1..] == trialsEvList[i + 1..];
        if trialsEvList[i] == id {
          trialsEvList := trialsEvList[..i] + trialsEvList[i + 1..];
          return;
        }
        assert trialsEvList[..i + 1] == trialsEvList[..i] + [trialsEvList[i]];
        i := i + 1;
      }
      assert trialsEvList[..i] == trialsEvList;
    }

    method MoveToBack(id: string)
      requires id in trials
      modifies this`trialsEvList, this`touches
      ensures View() == Used(old(View()), id)
    {
      if trials[id].listed {
        RemoveFromEvList(id);
        trialsEvList := trialsEvList + [id];
        touches := touches + [Use(id)];
      }
    }

    /** False at the first unknown trial. */
    method RetrieveTrialDatas(ids: seq<string>) returns (ok: bool)
      modifies this`trialsEvList, this`touches
      ensures var k := KnownPrefix(old(trials), ids, |ids|);
              ok == (k == |ids|) && View() == LookedUp(old(View()), ids, k)
    {
      var i := 0;
      while i < |ids|
        invariant 0 <= i <= |ids|
        invariant forall j | 0 <= j < i :: ids[j] in trials
        invariant KnownPrefix(trials, ids, i) == i
        invariant View() == LookedUp(old(View()), ids, i)
      {
        if ids[i] !in trials {
          KnownStops(trials, ids, i, |ids|);
          return false;
        }
        MoveToBack(ids[i]);
        i := i + 1;
      }
      ok := true;
    }

    method CreateOrUpdateTrials(batch: seq<(string, TrialParams)>)
      modifies this
      ensures View() == AllCreated(old(View()), batch, |batch|)
    {
      for i := 0 to |batch|
        invariant View() == AllCreated(old(View()), batch, i)
      {
        CreateOrUpdateTrial(batch[i].0, batch[i].1);
      }
    }

    method CreateOrUpdateTrial(id: string, params: TrialParams)
      modifies this
      ensures View() == Created(old(View()), id, params)
    {
      if id in trials {
        MoveToBack(id);
        trials := trials[id := trials[id].(params := params)];
        log := log + [Configured(id, params)];
      } else {
        trialsEvList := [id] + trialsEvList;
        trials := trials[id := TrialData(params, 0, 0, StoredSamples([], false), 0, true, false)];
        trialIDs := trialIDs + [id];
        touches := touches + [Creation(id)];
        log := log + [Configured(id, params)];
      }
    }

    method DeleteTrials(ids: seq<string>)
      modifies this
      ensures View() == AllDeleted(old(View()), ids, |ids|)
    {
      for i := 0 to |ids|
        invariant View() == AllDeleted(old(View()), ids, i)
      {
        if ids[i] in trials {
          if trials[ids[i]].listed {
            RemoveFromEvList(ids[i]);
          }
          Subtract(trials[ids[i]].storedSize);
          trials := trials[ids[i] := DELETED];
          log := log + [Removed(ids[i])];
        }
      }
    }

    /** The atomic addition of the complement of `size - 1`. */
    method Subtract(size: nat)
      modifies this`samplesSize
      ensures samplesSize == Subtracted(old(samplesSize), size)
    {
      var lessOne := (size - 1) % WORD;
      samplesSize := (samplesSize + (WORD - 1 - lessOne)) % WORD;
    }

    method AddSamples(samples: seq<Sample>) returns (result: AddResult)
      modifies this
      ensures var outcome := M.AddSamples(old(View()), samples);
              && (result.Done? <==> outcome.Stored?) && (result.Unknown? <==> outcome.UnknownTrial?)
              && (!outcome.Crashed? ==> View() == outcome.store)
    {
      var ids: seq<string> := [];
      while |ids| < |samples|
        invariant |ids| <= |samples|
        invariant forall j | 0 <= j < |ids| :: ids[j] == samples[j].trialID
      {
        ids := ids + [samples[|ids|].trialID];
      }
      assert ids == SampleIDs(samples);
      var ok := RetrieveTrialDatas(ids);
      if !ok {
        return Unknown;
      }
      ghost var before := trials;
      ok := AppendSamples(samples);
      result := if ok then Done else Panicked;
      assert forall i | 0 <= i < |samples| :: samples[i].trialID in before;
    }

    /** False at the first sample of a deleted trial. */
    method AppendSamples(samples: seq<Sample>) returns (ok: bool)
      requires forall i | 0 <= i < |samples| :: samples[i].trialID in trials
      modifies this`samplesSize, this`trials, this`log
      ensures ok <==> forall i | 0 <= i < |samples| :: Addable(old(View()), samples[i])
      ensures ok ==> View() == AllAdded(old(View()), samples, |samples|)
    {
      for i := 0 to |samples|
        invariant View() == AllAdded(old(View()), samples, i)
        invariant forall j | 0 <= j < i :: Addable(old(View()), samples[j])
        invariant trials.Keys == old(trials).Keys
        invariant forall id | id in trials :: trials[id].deleted == old(trials)[id].deleted
      {
        var x := samples[i];
        if trials[x.trialID].deleted {
          assert !Addable(old(View()), samples[i]);
          return false;
        }
        AppendSample(x);
      }
      ok := true;
    }

    method AppendSample(x: Sample)
      requires Addable(View(), x)
      modifies this`samplesSize, this`trials, this`log
      ensures View() == Added(old(View()), x)
    {
      samplesSize := (samplesSize + |x.serialized| % WORD) % WORD;
      var t := trials[x.trialID];
      t := t.(storedSize := (t.storedSize + |x.serialized| % WORD) % WORD);
      t := t.(stored := StoredSamples(t.stored.samples + [x.serialized], x.state == ENDED));
      t := t.(trialState := x.state);
      t := t.(samplesCount := t.samplesCount + 1);
      trials := trials[x.trialID := t];
      log := log + [Took(x)];
    }

    /** How many trials to return at most: when no positive count is given, a number that cannot be exceeded. */
    method PageLimit(filter: P.Filter, count: int) returns (limit: nat)
      requires KnownIDs(View()) && NoDup(trialIDs)
      ensures count > 0 ==> limit == count
      ensures count <= 0 ==> forall from: nat :: |P.MatchesFrom(Entries(View()), filter, from)| <= limit
    {
      if count > 0 {
        return count;
      }
      limit := |trialIDs|;
      if filter.ids != {} && limit > |filter.ids| {
        limit := |filter.ids|;
      }
      forall from: nat ensures |P.MatchesFrom(Entries(View()), filter, from)| <= limit {
        P.MatchesAtMost(Entries(View()), filter, from);
      }
    }

    /** Looks at one more trial of a scan that found the store in state `s`; the trial is used by it. */
    method Visit(filter: P.Filter, ghost s: Store, ghost from: nat, trialIdx: nat)
      returns (selected: bool, info: TrialInfo)
      requires KnownIDs(s) && from <= trialIdx < |s.trialIDs| && View() == UsedUpTo(s, from, trialIdx)
      modifies this`trialsEvList, this`touches
      ensures View() == UsedUpTo(s, from, trialIdx + 1)
      ensures selected == P.Matches(Entries(s)[trialIdx], filter)
      ensures info == InfoOf(s.trialIDs[trialIdx], s.trials[s.trialIDs[trialIdx]])
    {
      var id := trialIDs[trialIdx];
      MoveToBack(id);
      var data := trials[id];
      info := InfoOf(id, data);
      selected := !data.deleted && filter.SelectsID(id) && filter.SelectsProperties(data.params.properties);
    }

    /** `page` are the positions of the trials returned; the trials looked at, up to `end`, are used in order. */
    method RetrieveTrials(filter: P.Filter, fromTrialIdx: int, count: int)
      returns (infos: seq<TrialInfo>, nextTrialIdx: nat, ghost page: seq<nat>, ghost end: nat)
      requires KnownIDs(View()) && NoDup(trialIDs)
      modifies this`trialsEvList, this`touches
      ensures page == P.Page(Entries(old(View())), filter, fromTrialIdx, count)
      ensures nextTrialIdx == NextAfter(page)
      ensures InfosOf(old(View()), infos, page)
      ensures end <= |trialIDs| && View() == UsedUpTo(old(View()), P.Start(fromTrialIdx), end)
    {
      var from := if fromTrialIdx < 0 then 0 else fromTrialIdx;
      var limit := PageLimit(filter, count);
      ghost var s := View();
      infos, nextTrialIdx, page, end := [], 0, [], 0;
      if from < |trialIDs| {
        infos, nextTrialIdx, page, end := ScanTrials(filter, from, limit);
      }
      P.ScanEnds(Entries(s), filter, fromTrialIdx, if from < |trialIDs| then end else from, page, count);
    }

    /** The loop over the trials, which stops at the end or at `limit` trials. */
    method ScanTrials(filter: P.Filter, from: nat, limit: nat)
      returns (infos: seq<TrialInfo>, nextTrialIdx: nat, ghost page: seq<nat>, ghost end: nat)
      requires KnownIDs(View()) && from < |trialIDs|
      modifies this`trialsEvList, this`touches
      ensures end <= |trialIDs| && View() == UsedUpTo(old(View()), from, end)
      ensures P.Scanned(Entries(old(View())), filter, from, end, page)
      ensures |page| <= limit && (end == |trialIDs| || |page| == limit)
      ensures nextTrialIdx == NextAfter(page) && InfosOf(old(View()), infos, page)
    {
      ghost var s := View();
      var trialIdx := from;
      infos, nextTrialIdx, page := [], 0, [];
      while trialIdx < |trialIDs| && |infos| < limit
        invariant from <= trialIdx <= |s.trialIDs| && |page| <= limit
        invariant View() == UsedUpTo(s, from, trialIdx)
        invariant P.Scanned(Entries(s), filter, from, trialIdx, page)
        invariant nextTrialIdx == NextAfter(page) && InfosOf(s, infos, page)
      {
        P.ScanOne(Entries(s), filter, from, trialIdx, page);
        var selected, info := Visit(filter, s, from, trialIdx);
        if selected {
          InfosMore(s, infos, page, trialIdx);
          infos := infos + [info];
          nextTrialIdx := trialIdx + 1;
          page := page + [trialIdx];
        }
        trialIdx := trialIdx + 1;
      }
      end := trialIdx;
    }

    /** One turn of the eviction loop; `done` when it was the last. */
    method EvictOne() returns (done: bool, reclaimed: nat)
      requires M.Inv(View())
      modifies this
      ensures M.Inv(View())
      ensures done <== StopsAt(old(View()), 0)
      ensures View() == if StopsAt(old(View()), 0) then old(View()) else FrontEvicted(old(View()))
      ensures !StopsAt(old(View()), 0) ==> (done <==> samplesSize <= maxSamplesSize)
      ensures reclaimed == if StopsAt(old(View()), 0) then 0 else old(trials[trialsEvList[0]]).storedSize
    {
      reclaimed := 0;
      if samplesSize <= maxSamplesSize || trialsEvList == [] {
        return true, 0;
      }
      var front := trialsEvList[0];
      assert front in trialsEvList;
      if !trials[front].stored.ended {
        return true, 0;
      }
      FrontEvictedKeepsInv(View());
      done, reclaimed := EvictFront();
    }

    method EvictFront() returns (done: bool, reclaimed: nat)
      requires trialsEvList != [] && trialsEvList[0] in trials
      modifies this
      ensures View() == FrontEvicted(old(View()))
      ensures done <==> samplesSize <= maxSamplesSize
      ensures reclaimed == old(trials[trialsEvList[0]]).storedSize
    {
      var front := trialsEvList[0];
      reclaimed := trials[front].storedSize;
      Subtract(reclaimed);
      trials := trials[front := trials[front].(stored := StoredSamples([], false), storedSize := 0, listed := false)];
      trialsEvList := trialsEvList[1..];
      evicted := evicted + {front};
      log := log + [Emptied(front)];
      done := samplesSize <= maxSamplesSize;
    }

    /** One turn, when `n` trials have been evicted of the store `start`. */
    method EvictNext(ghost start: Store, ghost n: nat, ghost reclaimedBefore: nat)
      returns (done: bool, reclaimed: nat, ghost m: nat)
      requires Progress(start, View(), n, false, reclaimedBefore)
      modifies this
      ensures Progress(start, View(), m, done, reclaimed)
      ensures done || |trialsEvList| < |old(trialsEvList)|
    {
      ghost var t := View();
      StopsLater(start, t, n);
      done, reclaimed := EvictOne();
      m := n;
      if StopsAt(start, n) {
        WentToTheStop(start, t.samplesSize, n, reclaimedBefore);
      } else {
        TurnEvicts(start, t, n);
        WentOneMore(start, t.samplesSize, n, reclaimedBefore, samplesSize, done, reclaimed);
        m := n + 1;
      }
    }

    /**
     * Evicts the shortest prefix of the eviction list that `StopsAt` allows, `n` trials long.  The amount returned
     * is what the last turn of the loop reclaimed, not the total.
     */
    method EvictLruTrials() returns (reclaimed: nat, ghost n: nat)
      requires M.Inv(View())
      modifies this
      ensures Progress(old(View()), View(), n, true, reclaimed)
    {
      n, reclaimed := 0, 0;
      assert trialsEvList[..0] == [];
      var done := false;
      while !done
        invariant Progress(old(View()), View(), n, done, reclaimed)
        decreases |trialsEvList|, !done
      {
        done, reclaimed, n := EvictNext(old(View()), n, reclaimed);
      }
    }
  }

  /** Where the eviction loop is: `n` trials have been evicted, and it had to go on after each but maybe the last. */
  ghost predicate Progress(s: Store, t: Store, n: nat, done: bool, reclaimed: nat) {
    && M.Inv(s) && M.Inv(t) && n <= |s.evList| && EvictedTo(s, t, n)
    && WentOn(s, t.samplesSize, n, done, reclaimed)
  }

  ghost function LastReclaimed(s: Store, size: nat, n: nat): nat
    requires n <= |s.evList| && forall id | id in s.evList :: id in s.trials
  {
    if n > 0 && size <= s.maxSamplesSize then s.trials[s.evList[n - 1]].storedSize else 0
  }

  lemma TurnEvicts(s: Store, t: Store, n: nat)
    requires M.Inv(s) && M.Inv(t) && n <= |s.evList| && EvictedTo(s, t, n)
    requires t.evList != [] && t.evList[0] in t.trials && !StopsAt(s, n)
    ensures n < |s.evList| && EvictedTo(s, FrontEvicted(t), n + 1)
    ensures s.trials[s.evList[n]].storedSize == t.trials[t.evList[0]].storedSize
    ensures FrontEvicted(t).samplesSize <= s.maxSamplesSize ==> StopsAt(s, n + 1)
  {
    EvictOneMore(s, t, n);
    StopsLater(s, FrontEvicted(t), n + 1);
  }

  /** The part of `Progress` that is not about the trials evicted. */
  ghost predicate WentOn(s: Store, size: nat, n: nat, done: bool, reclaimed: nat)
    requires n <= |s.evList| && forall id | id in s.evList :: id in s.trials
  {
    && (forall j | 0 <= j < n :: !StopsAt(s, j))
    && (!done && n > 0 ==> size > s.maxSamplesSize)
    && (done ==> StopsAt(s, n) && reclaimed == LastReclaimed(s, size, n))
  }

  lemma WentToTheStop(s: Store, size: nat, n: nat, before: nat)
    requires n <= |s.evList| && (forall id | id in s.evList :: id in s.trials)
    requires WentOn(s, size, n, false, before) && StopsAt(s, n)
    ensures WentOn(s, size, n, true, 0)
  {
  }

  lemma WentOneMore(s: Store, size: nat, n: nat, before: nat, after: nat, done: bool, reclaimed: nat)
    requires n < |s.evList| && (forall id | id in s.evList :: id in s.trials)
    requires WentOn(s, size, n, false, before) && !StopsAt(s, n)
    requires (done <==> after <= s.maxSamplesSize) && (done ==> StopsAt(s, n + 1))
    requires reclaimed == s.trials[s.evList[n]].storedSize
    ensures WentOn(s, after, n + 1, done, reclaimed)
  {
  }

  /** The loop ends where the eviction of a run does. */
  lemma EvictionIsDone(s: Store)
    requires M.Inv(s)
    ensures var n := EvictCount(s, 0);
            var t := EvictFronts(s, n);
            Progress(s, t, n, true, LastReclaimed(s, t.samplesSize, n))
  {
  }

  /**
   * The amount returned is the total exactly when nothing was evicted, or when all that was reclaimed was by the turn
   * after which the size fits, or when nothing at all was.
   */
  lemma ReturnsTheTotalExactly(s: Store, t: Store, n: nat, reclaimed: nat)
    requires Progress(s, t, n, true, reclaimed)
    ensures reclaimed == FrontSize(s, n) <==>
            || n == 0
            || (t.samplesSize <= s.maxSamplesSize && FrontSize(s, n - 1) == 0)
            || (t.samplesSize > s.maxSamplesSize && FrontSize(s, n) == 0)
  {
  }

  /** To stop after `k` trials is to stop at once when `k` have been evicted. */
  lemma StopsLater(s: Store, t: Store, k: nat)
    requires M.Inv(s) && k <= |s.evList| && EvictedTo(s, t, k)
    ensures forall id | id in t.evList :: id in t.trials
    ensures t.samplesSize <= t.maxSamplesSize ==> StopsAt(s, k)
    ensures StopsAt(t, 0) <==> StopsAt(s, k)
  {
    assert forall id | id in t.evList :: id in s.evList;
    assert FrontSize(t, 0) == 0;
    assert t.samplesSize < WORD;
    if k < |s.evList| {
      assert t.evList[0] == s.evList[k];
      assert s.evList[k] !in s.evList[..k];
    }
  }

  lemma {:induction false} KnownStops(trials: map<string, TrialData>, ids: seq<string>, k: nat, n: nat)
    requires k < n <= |ids| && ids[k] !in trials && KnownPrefix(trials, ids, k) == k
    ensures KnownPrefix(trials, ids, n) == k
  {
    if n > k + 1 {
      KnownStops(trials, ids, k, n - 1);
    }
  }
}
