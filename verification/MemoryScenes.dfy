/** A run of the memory store after which the amount an eviction returns is not what it has reclaimed. */
module MemoryScenes {
  import opened Common
  import opened M = MemoryStores
  import B = MemoryBackends

  function TwoTrials(params: TrialParams): M.Op {
    CreateOp([("a", params), ("b", params)])
  }

  /** Both trials end, each with one byte stored. */
  function TwoEnds(): seq<Sample> {
    [Sample("a", ENDED, [0]), Sample("b", ENDED, [0])]
  }

  function OneByte(params: TrialParams): TrialData {
    TrialData(params, ENDED, 1, StoredSamples([[0]], true), 1, true, false)
  }

  lemma EndsOne(s: Store, x: Sample, params: TrialParams)
    requires x.trialID in s.trials && s.trials[x.trialID] == NewData(params) && x.state == ENDED && x.serialized == [0]
    requires s.samplesSize < 2
    ensures Added(s, x) == s.(samplesSize := s.samplesSize + 1, trials := s.trials[x.trialID := OneByte(params)],
                             log := s.log + [Took(x)])
  {
    assert |x.serialized| % WORD == 1;
    assert [] + [x.serialized] == [[0]];
  }

  lemma CreateTwo(params: TrialParams)
    ensures var s := AllCreated(NewStore(0), TwoTrials(params).batch, 2);
            && Apply(NewStore(0), TwoTrials(params)) == Some(s)
            && s.trials == map["a" := NewData(params), "b" := NewData(params)]
            && s.evList == ["b", "a"] && s.samplesSize == 0 && s.maxSamplesSize == 0
  {
    var s0, batch := NewStore(0), TwoTrials(params).batch;
    var s1 := Created(s0, "a", params);
    assert "a"[0] != "b"[0];
    assert AllCreated(s0, batch, 0) == s0 && AllCreated(s0, batch, 1) == s1;
    assert s1.evList == ["a"];
  }

  lemma UseTwo(s: Store, params: TrialParams)
    requires s.trials == map["a" := NewData(params), "b" := NewData(params)] && s.evList == ["b", "a"]
    ensures var t := LookedUp(s, SampleIDs(TwoEnds()), 2); t.evList == ["a", "b"] && t.samplesSize == s.samplesSize
    ensures LookedUp(s, SampleIDs(TwoEnds()), 2).maxSamplesSize == s.maxSamplesSize
    ensures KnownPrefix(s.trials, SampleIDs(TwoEnds()), 2) == 2
  {
    var ids := SampleIDs(TwoEnds());
    assert ids[0] == "a" && ids[1] == "b" && "a"[0] != "b"[0];
    var t0, t1 := LookedUp(s, ids, 0), LookedUp(s, ids, 1);
    assert s.evList[1..] == ["a"] && Without(["a"], "a") == [];
    assert t1.evList == ["b"] + ["a"];
    assert t1.evList[1..] == ["a"];
    assert KnownPrefix(s.trials, ids, 0) == 0 && KnownPrefix(s.trials, ids, 1) == 1;
  }

  /** The store holds one byte of each of two ended trials, and may hold none. */
  ghost predicate TwoBytes(s: Store, params: TrialParams) {
    && s.samplesSize == 2 && s.maxSamplesSize == 0 && s.evList == ["a", "b"]
    && s.trials == map["a" := OneByte(params), "b" := OneByte(params)]
  }

  lemma EndsBoth(s: Store, params: TrialParams)
    requires s.trials == map["a" := NewData(params), "b" := NewData(params)] && s.samplesSize == 0
    ensures var t := AllAdded(s, TwoEnds(), 2);
            && t.samplesSize == 2 && t.maxSamplesSize == s.maxSamplesSize && t.evList == s.evList
            && t.trials == map["a" := OneByte(params), "b" := OneByte(params)]
  {
    var samples := TwoEnds();
    assert samples[0].trialID == "a" && samples[1].trialID == "b" && "a"[0] != "b"[0];
    EndsOne(s, samples[0], params);
    var t := Added(s, samples[0]);
    EndsOne(t, samples[1], params);
    assert AllAdded(s, samples, 0) == s && AllAdded(s, samples, 1) == t;
  }

  lemma FillTwo(s: Store, params: TrialParams)
    requires s.trials == map["a" := NewData(params), "b" := NewData(params)]
    requires s.evList == ["b", "a"] && s.samplesSize == 0 && s.maxSamplesSize == 0
    ensures AddSamples(s, TwoEnds()).Stored? && TwoBytes(AddSamples(s, TwoEnds()).store, params)
  {
    var samples := TwoEnds();
    UseTwo(s, params);
    EndsBoth(LookedUp(s, SampleIDs(samples), 2), params);
    assert Addable(s, samples[0]) && Addable(s, samples[1]);
  }

  lemma StopsAfterTwo(s: Store, params: TrialParams)
    requires TwoBytes(s, params)
    ensures (forall id | id in s.evList :: id in s.trials) && FrontSize(s, 1) == 1 && FrontSize(s, 2) == 2
    ensures s.trials[s.evList[1]].storedSize == 1
    ensures !StopsAt(s, 0) && !StopsAt(s, 1) && StopsAt(s, 2)
  {
    assert s.evList[0] == "a" && s.evList[1] == "b";
    assert FrontSize(s, 0) == 0;
  }

  lemma CountsTwo(s: Store)
    requires |s.evList| == 2 && forall id | id in s.evList :: id in s.trials
    requires !StopsAt(s, 0) && !StopsAt(s, 1) && StopsAt(s, 2)
    ensures EvictCount(s, 0) == 2
  {
    assert EvictCount(s, 1) == 2;
  }

  /** The last turn of an eviction of two trials reclaims one byte. */
  lemma LastOfTwo(s: Store)
    requires M.Inv(s) && |s.evList| == 2 && EvictCount(s, 0) == 2
    requires FrontSize(s, 2) == s.samplesSize && s.trials[s.evList[1]].storedSize == 1
    ensures B.Progress(s, Apply(s, EvictOp).value, 2, true, 1)
  {
    B.EvictionIsDone(s);
    assert EvictFronts(s, 2).samplesSize == 0;
  }

  lemma EvictTwo(s: Store, params: TrialParams)
    requires M.Inv(s) && TwoBytes(s, params)
    ensures EvictCount(s, 0) == 2 && FrontSize(s, 2) == 2
    ensures B.Progress(s, Apply(s, EvictOp).value, 2, true, 1)
  {
    StopsAfterTwo(s, params);
    CountsTwo(s);
    LastOfTwo(s);
  }

  /** Two bytes are reclaimed from a store that some run reaches, and one is returned. */
  lemma ReturnsLessThanTheTotal(params: TrialParams) returns (s: Store)
    ensures M.Run(NewStore(0), [TwoTrials(params), AddOp(TwoEnds())]) == Some(s)
    ensures EvictCount(s, 0) == 2 && FrontSize(s, 2) == 2
    ensures B.Progress(s, Apply(s, EvictOp).value, 2, true, 1)
  {
    CreateTwo(params);
    var s0, add := NewStore(0), AddOp(TwoEnds());
    var s1 := Apply(s0, TwoTrials(params)).value;
    ApplyKeepsInv(s0, TwoTrials(params));
    FillTwo(s1, params);
    ApplyKeepsInv(s1, add);
    s := Apply(s1, add).value;
    RunOnce(s1, add);
    assert [TwoTrials(params), add][1..] == [add];
    EvictTwo(s, params);
  }
}
