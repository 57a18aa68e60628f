/**
 * What the memory store holds, told from what it has accepted: over every run each trial neither deleted nor unknown is
 * what its entries of the log make it.
 */
module MemoryLogs {
  import opened Common
  import opened M = MemoryStores

  // ---- Reading the log ----

  /** The samples taken for the trial since it was last emptied. */
  ghost function Since(log: seq<Entry>, id: string): seq<Sample> {
    if log == [] then []
    else
      var front, e := log[..|log| - 1], log[|log| - 1];
      if e == Emptied(id) then []
      else if e.Took? && e.sample.trialID == id then Since(front, id) + [e.sample]
      else Since(front, id)
  }

  /** All samples ever taken for the trial. */
  ghost function Taken(log: seq<Entry>, id: string): seq<Sample> {
    if log == [] then []
    else
      var front, e := log[..|log| - 1], log[|log| - 1];
      if e.Took? && e.sample.trialID == id then Taken(front, id) + [e.sample] else Taken(front, id)
  }

  /** The parameters last given to the trial. */
  ghost function LastParams(log: seq<Entry>, id: string): Option<TrialParams> {
    if log == [] then None
    else
      var e := log[|log| - 1];
      if e.Configured? && e.id == id then Some(e.params) else LastParams(log[..|log| - 1], id)
  }

  ghost function IdOf(e: Entry): string {
    if e.Took? then e.sample.trialID else e.id
  }

  ghost function Bodies(samples: seq<Sample>): (bodies: seq<bytes>)
    ensures |bodies| == |samples| && forall i | 0 <= i < |samples| :: bodies[i] == samples[i].serialized
  {
    seq(|samples|, i requires 0 <= i < |samples| => samples[i].serialized)
  }

  ghost function LastState(samples: seq<Sample>): int {
    if samples == [] then 0 else samples[|samples| - 1].state
  }

  lemma OneEntry(log: seq<Entry>, e: Entry, id: string)
    ensures var more := log + [e];
            && Since(more, id) == (if e == Emptied(id) then []
                                   else if e.Took? && e.sample.trialID == id then Since(log, id) + [e.sample]
                                   else Since(log, id))
            && Taken(more, id) ==
                 (if e.Took? && e.sample.trialID == id then Taken(log, id) + [e.sample] else Taken(log, id))
            && LastParams(more, id) == (if e.Configured? && e.id == id then Some(e.params) else LastParams(log, id))
  {
    assert (log + [e])[..|log|] == log;
  }

  // ---- Every operation keeps the log ----

  /** The trial is what the log makes it. */
  ghost predicate FromLog(d: TrialData, log: seq<Entry>, id: string) {
    && d.stored.samples == Bodies(Since(log, id))
    && (d.stored.ended <==> Since(log, id) != [] && LastState(Since(log, id)) == ENDED)
    && d.samplesCount == |Taken(log, id)|
    && d.trialState == LastState(Taken(log, id))
    && LastParams(log, id) == Some(d.params)
  }

  ghost predicate TrialLogged(s: Store, id: string)
    requires id in s.trials
  {
    && (s.trials[id].deleted <==> Removed(id) in s.log)
    && (!s.trials[id].deleted ==> FromLog(s.trials[id], s.log, id))
  }

  ghost predicate LogOk(s: Store) {
    && (forall id | id in s.trials :: TrialLogged(s, id))
    && (forall e | e in s.log :: IdOf(e) in s.trials)
  }

  /** An entry of another trial. */
  lemma OtherEntry(d: TrialData, log: seq<Entry>, e: Entry, id: string)
    requires FromLog(d, log, id) && IdOf(e) != id
    ensures FromLog(d, log + [e], id)
  {
    OneEntry(log, e, id);
  }

  /** One trial and the log change together. */
  lemma UpdateKeepsLog(s: Store, t: Store, id: string, e: Entry)
    requires LogOk(s) && t.log == s.log + [e] && IdOf(e) == id
    requires id in t.trials && t.trials == s.trials[id := t.trials[id]] && TrialLogged(t, id)
    ensures LogOk(t)
  {
    forall x | x in t.trials ensures TrialLogged(t, x) {
      if x != id {
        assert TrialLogged(s, x);
        if !s.trials[x].deleted {
          OtherEntry(s.trials[x], s.log, e, x);
        }
      }
    }
  }

  lemma SameTrialsKeepLog(s: Store, t: Store)
    requires LogOk(s) && t.trials == s.trials && t.log == s.log
    ensures LogOk(t)
  {
    forall id | id in t.trials ensures TrialLogged(t, id) {
      assert TrialLogged(s, id);
    }
  }

  lemma {:induction false} NothingOf(log: seq<Entry>, id: string)
    requires forall e | e in log :: IdOf(e) != id
    ensures Since(log, id) == [] && Taken(log, id) == []
  {
    if log != [] {
      var front := log[..|log| - 1];
      assert log[|log| - 1] in log && forall e | e in front :: e in log;
      NothingOf(front, id);
    }
  }

  lemma CreatedKeepsLog(s: Store, id: string, params: TrialParams)
    requires LogOk(s)
    ensures LogOk(Created(s, id, params))
  {
    var t := Created(s, id, params);
    OneEntry(s.log, Configured(id, params), id);
    if id in s.trials {
      assert TrialLogged(s, id);
    } else {
      NothingOf(s.log, id);
    }
    UpdateKeepsLog(s, t, id, Configured(id, params));
  }

  lemma DeletedKeepsLog(s: Store, id: string)
    requires LogOk(s)
    ensures LogOk(Deleted(s, id))
  {
    if id in s.trials {
      assert Removed(id) == (s.log + [Removed(id)])[|s.log|];
      UpdateKeepsLog(s, Deleted(s, id), id, Removed(id));
    }
  }

  lemma AddedKeepsLog(s: Store, x: Sample)
    requires LogOk(s)
    ensures LogOk(Added(s, x))
  {
    if Addable(s, x) {
      var id := x.trialID;
      assert TrialLogged(s, id);
      OneEntry(s.log, Took(x), id);
      assert Bodies(Since(s.log, id) + [x]) == Bodies(Since(s.log, id)) + [x.serialized];
      UpdateKeepsLog(s, Added(s, x), id, Took(x));
    }
  }

  lemma {:induction false} EmptyingsOf(log: seq<Entry>, list: seq<string>, id: string)
    ensures var more := log + Emptyings(list);
            && Since(more, id) == (if id in list then [] else Since(log, id))
            && Taken(more, id) == Taken(log, id) && LastParams(more, id) == LastParams(log, id)
  {
    if list == [] {
      assert log + Emptyings([]) == log;
    } else {
      var front, x := list[..|list| - 1], list[|list| - 1];
      EmptyingsOf(log, front, id);
      assert list == front + [x];
      OneEntry(log + Emptyings(front), Emptied(x), id);
      OneEmptying(log, front, x);
    }
  }

  lemma OneEmptying(log: seq<Entry>, list: seq<string>, x: string)
    ensures log + Emptyings(list + [x]) == (log + Emptyings(list)) + [Emptied(x)]
  {
  }

  lemma EvictedTrial(s: Store, t: Store, k: nat, id: string)
    requires k <= |s.evList| && (forall x | x in s.evList :: x in s.trials) && EvictedTo(s, t, k)
    requires id in s.trials && TrialLogged(s, id) && (id in s.evList ==> !s.trials[id].deleted)
    ensures id in t.trials && TrialLogged(t, id)
  {
    var list := s.evList[..k];
    EmptyingsOf(s.log, list, id);
    assert forall i | 0 <= i < k :: Emptyings(list)[i] != Removed(id);
    assert Removed(id) in t.log <==> Removed(id) in s.log;
    assert id in list ==> id in s.evList;
  }

  lemma EvictedKeepsLog(s: Store, t: Store, k: nat)
    requires k <= |s.evList| && (forall id | id in s.evList :: id in s.trials && !s.trials[id].deleted)
    requires LogOk(s) && EvictedTo(s, t, k)
    ensures LogOk(t)
  {
    forall id | id in t.trials ensures TrialLogged(t, id) {
      assert TrialLogged(s, id);
      EvictedTrial(s, t, k, id);
    }
  }

  lemma {:induction false} AllCreatedKeepsLog(s: Store, batch: seq<(string, TrialParams)>, n: nat)
    requires LogOk(s) && n <= |batch|
    ensures LogOk(AllCreated(s, batch, n))
  {
    if n > 0 {
      AllCreatedKeepsLog(s, batch, n - 1);
      CreatedKeepsLog(AllCreated(s, batch, n - 1), batch[n - 1].0, batch[n - 1].1);
    }
  }

  lemma {:induction false} AllDeletedKeepsLog(s: Store, ids: seq<string>, n: nat)
    requires LogOk(s) && n <= |ids|
    ensures LogOk(AllDeleted(s, ids, n))
  {
    if n > 0 {
      AllDeletedKeepsLog(s, ids, n - 1);
      DeletedKeepsLog(AllDeleted(s, ids, n - 1), ids[n - 1]);
    }
  }

  lemma {:induction false} AllAddedKeepsLog(s: Store, samples: seq<Sample>, n: nat)
    requires LogOk(s) && n <= |samples|
    ensures LogOk(AllAdded(s, samples, n))
  {
    if n > 0 {
      AllAddedKeepsLog(s, samples, n - 1);
      AddedKeepsLog(AllAdded(s, samples, n - 1), samples[n - 1]);
    }
  }

  lemma {:induction false} LookedUpLeavesLog(s: Store, ids: seq<string>, n: nat)
    requires n <= |ids| && forall i | 0 <= i < n :: ids[i] in s.trials
    ensures LookedUp(s, ids, n).log == s.log && LookedUp(s, ids, n).trials == s.trials
  {
    if n > 0 {
      LookedUpLeavesLog(s, ids, n - 1);
    }
  }

  lemma ListedAreLive(s: Store)
    requires Inv(s)
    ensures forall id | id in s.evList :: id in s.trials && !s.trials[id].deleted
  {
  }

  lemma ApplyKeepsLog(s: Store, op: Op)
    requires Inv(s) && LogOk(s)
    ensures Apply(s, op).Some? ==> LogOk(Apply(s, op).value)
  {
    match op {
      case CreateOp(batch) => AllCreatedKeepsLog(s, batch, |batch|);
      case DeleteOp(ids) => AllDeletedKeepsLog(s, ids, |ids|);
      case LookUpOp(ids) =>
        var k := KnownPrefix(s.trials, ids, |ids|);
        LookedUpLeavesLog(s, ids, k);
        SameTrialsKeepLog(s, LookedUp(s, ids, k));
      case AddOp(samples) =>
        var ids := SampleIDs(samples);
        var k := KnownPrefix(s.trials, ids, |ids|);
        LookedUpLeavesLog(s, ids, k);
        SameTrialsKeepLog(s, LookedUp(s, ids, k));
        AllAddedKeepsLog(LookedUp(s, ids, k), samples, |samples|);
      case EvictOp =>
        ListedAreLive(s);
        EvictedKeepsLog(s, EvictFronts(s, EvictCount(s, 0)), EvictCount(s, 0));
    }
  }

  lemma {:induction false} RunKeepsLog(s: Store, ops: seq<Op>)
    requires Inv(s) && LogOk(s)
    ensures Run(s, ops).Some? ==> LogOk(Run(s, ops).value)
    decreases |ops|
  {
    if ops != [] && Apply(s, ops[0]).Some? {
      ApplyKeepsInv(s, ops[0]);
      ApplyKeepsLog(s, ops[0]);
      RunKeepsLog(Apply(s, ops[0]).value, ops[1..]);
    }
  }

  // ---- What each operation accepts ----

  lemma {:induction false} CreationIsLogged(s: Store, batch: seq<(string, TrialParams)>, n: nat)
    requires n <= |batch|
    ensures var t := AllCreated(s, batch, n);
            && |t.log| == |s.log| + n && t.log[..|s.log|] == s.log
            && (forall i | 0 <= i < n :: t.log[|s.log| + i] == Configured(batch[i].0, batch[i].1))
            && (forall id :: id in t.trials <==> id in s.trials || exists i :: 0 <= i < n && batch[i].0 == id)
  {
    if n > 0 {
      CreationIsLogged(s, batch, n - 1);
      OneCreation(AllCreated(s, batch, n - 1), batch[n - 1].0, batch[n - 1].1);
    }
  }

  lemma OneCreation(s: Store, id: string, params: TrialParams)
    ensures Created(s, id, params).log == s.log + [Configured(id, params)]
    ensures Created(s, id, params).trials.Keys == s.trials.Keys + {id}
  {
  }

  /** The deletions of the ids that are known, in order. */
  ghost function Removals(trials: set<string>, ids: seq<string>, n: nat): seq<Entry>
    requires n <= |ids|
  {
    if n == 0 then []
    else if ids[n - 1] in trials then Removals(trials, ids, n - 1) + [Removed(ids[n - 1])]
    else Removals(trials, ids, n - 1)
  }

  lemma {:induction false} DeletionIsLogged(s: Store, ids: seq<string>, n: nat)
    requires n <= |ids|
    ensures var t := AllDeleted(s, ids, n);
            t.log == s.log + Removals(s.trials.Keys, ids, n) && t.trials.Keys == s.trials.Keys
  {
    if n > 0 {
      DeletionIsLogged(s, ids, n - 1);
    } else {
      assert s.log + [] == s.log;
    }
  }

  lemma {:induction false} AdditionIsLogged(s: Store, samples: seq<Sample>, n: nat)
    requires n <= |samples| && forall i | 0 <= i < n :: Addable(s, samples[i])
    ensures var t := AllAdded(s, samples, n);
            && |t.log| == |s.log| + n && t.log[..|s.log|] == s.log
            && (forall i | 0 <= i < n :: t.log[|s.log| + i] == Took(samples[i]))
            && (forall x :: Addable(t, x) <==> Addable(s, x))
  {
    if n > 0 {
      AdditionIsLogged(s, samples, n - 1);
    }
  }

  /** An addition takes every sample of the batch, in order, when all trials are known and not deleted. */
  lemma AddingTakesAll(s: Store, samples: seq<Sample>)
    requires forall i | 0 <= i < |samples| ::
               samples[i].trialID in s.trials && !s.trials[samples[i].trialID].deleted
    ensures var outcome := AddSamples(s, samples);
            && outcome.Stored?
            && |outcome.store.log| == |s.log| + |samples| && outcome.store.log[..|s.log|] == s.log
            && forall i | 0 <= i < |samples| :: outcome.store.log[|s.log| + i] == Took(samples[i])
  {
    var ids := SampleIDs(samples);
    assert forall i | 0 <= i < |ids| :: ids[i] in s.trials;
    LookedUpLeavesLog(s, ids, |ids|);
    AdditionIsLogged(LookedUp(s, ids, |ids|), samples, |samples|);
  }

  /** Otherwise it takes none: it fails for an unknown trial, and crashes when a known one is deleted. */
  lemma AddingTakesNone(s: Store, samples: seq<Sample>)
    ensures AddSamples(s, samples).UnknownTrial? <==> exists i :: 0 <= i < |samples| && samples[i].trialID !in s.trials
    ensures AddSamples(s, samples).UnknownTrial? ==>
              AddSamples(s, samples).store.log == s.log && AddSamples(s, samples).store.trials == s.trials
    ensures AddSamples(s, samples).Crashed? <==>
              && (forall i | 0 <= i < |samples| :: samples[i].trialID in s.trials)
              && exists i :: 0 <= i < |samples| && s.trials[samples[i].trialID].deleted
  {
    var ids := SampleIDs(samples);
    var k := KnownPrefix(s.trials, ids, |ids|);
    LookedUpLeavesLog(s, ids, k);
    if i :| 0 <= i < |samples| && samples[i].trialID !in s.trials {
      assert ids[i] !in s.trials;
    }
  }

  /** Looking trials up uses those that are in the eviction list, in order, and changes nothing else of the history. */
  ghost function Uses(trials: map<string, TrialData>, ids: seq<string>, n: nat): seq<Touch>
    requires n <= |ids| && forall i | 0 <= i < n :: ids[i] in trials
  {
    if n == 0 then []
    else if trials[ids[n - 1]].listed then Uses(trials, ids, n - 1) + [Use(ids[n - 1])]
    else Uses(trials, ids, n - 1)
  }

  lemma {:induction false} LookUpIsUse(s: Store, ids: seq<string>, n: nat)
    requires n <= |ids| && forall i | 0 <= i < n :: ids[i] in s.trials
    ensures LookedUp(s, ids, n).touches == s.touches + Uses(s.trials, ids, n)
  {
    if n > 0 {
      LookUpIsUse(s, ids, n - 1);
    } else {
      assert s.touches + [] == s.touches;
    }
  }

  /** What one operation adds to the log. */
  lemma EveryOpIsLogged(s: Store, op: Op)
    requires Inv(s) && Apply(s, op).Some?
    ensures var t := Apply(s, op).value;
            match op
            case CreateOp(batch) =>
              && |t.log| == |s.log| + |batch| && t.log[..|s.log|] == s.log
              && forall i | 0 <= i < |batch| :: t.log[|s.log| + i] == Configured(batch[i].0, batch[i].1)
            case DeleteOp(ids) => t.log == s.log + Removals(s.trials.Keys, ids, |ids|)
            case LookUpOp(ids) => t.log == s.log
            case AddOp(samples) =>
              if forall i | 0 <= i < |samples| :: samples[i].trialID in s.trials then
                && |t.log| == |s.log| + |samples| && t.log[..|s.log|] == s.log
                && forall i | 0 <= i < |samples| :: t.log[|s.log| + i] == Took(samples[i])
              else t.log == s.log
            case EvictOp => t.log == s.log + Emptyings(s.evList[..EvictCount(s, 0)])
  {
    match op {
      case CreateOp(batch) => CreationIsLogged(s, batch, |batch|);
      case DeleteOp(ids) => DeletionIsLogged(s, ids, |ids|);
      case LookUpOp(ids) => LookedUpLeavesLog(s, ids, KnownPrefix(s.trials, ids, |ids|));
      case AddOp(samples) =>
        AddingTakesNone(s, samples);
        if AddSamples(s, samples).Stored? {
          AddingTakesAll(s, samples);
        }
      case EvictOp =>
    }
  }

  // ---- The theorem ----

  /**
   * Over every run: a trial is deleted exactly when a deletion of it was accepted; any other trial has stored exactly
   * the samples accepted since it was last evicted, in order, is ended exactly when the last of these has the state
   * ENDED, and has the count and the last state of all its samples and the parameters last given.
   */
  lemma TrialsAreTheirLog(maxSamplesSize: nat, ops: seq<Op>, id: string)
    requires Run(NewStore(maxSamplesSize), ops).Some? && id in Run(NewStore(maxSamplesSize), ops).value.trials
    ensures var s := Run(NewStore(maxSamplesSize), ops).value;
            var d, since, taken := s.trials[id], Since(s.log, id), Taken(s.log, id);
            && (d.deleted <==> Removed(id) in s.log)
            && (!d.deleted ==>
                  && |d.stored.samples| == |since|
                  && (forall i | 0 <= i < |since| :: d.stored.samples[i] == since[i].serialized)
                  && (d.stored.ended <==> since != [] && since[|since| - 1].state == ENDED)
                  && d.samplesCount == |taken|
                  && d.trialState == (if taken == [] then 0 else taken[|taken| - 1].state)
                  && LastParams(s.log, id) == Some(d.params))
  {
    RunKeepsLog(NewStore(maxSamplesSize), ops);
    assert TrialLogged(Run(NewStore(maxSamplesSize), ops).value, id);
  }

  /** The information returned with a page is that of the log. */
  lemma InfoIsOfTheLog(maxSamplesSize: nat, ops: seq<Op>, id: string)
    requires Run(NewStore(maxSamplesSize), ops).Some? && id in Run(NewStore(maxSamplesSize), ops).value.trials
    requires !Run(NewStore(maxSamplesSize), ops).value.trials[id].deleted
    ensures var s := Run(NewStore(maxSamplesSize), ops).value;
            var info, taken := InfoOf(id, s.trials[id]), Taken(s.log, id);
            && info.trialID == id && LastParams(s.log, id).Some? && info.userID == LastParams(s.log, id).value.userID
            && info.state == (if taken == [] then 0 else taken[|taken| - 1].state)
            && info.samplesCount == |taken| && info.storedSamplesCount == |Since(s.log, id)|
  {
    TrialsAreTheirLog(maxSamplesSize, ops, id);
  }

  /** Eviction takes only trials whose last sample since they were last evicted has the state ENDED. */
  lemma OnlyEndedAreEvicted(maxSamplesSize: nat, ops: seq<Op>, k: nat)
    requires Run(NewStore(maxSamplesSize), ops).Some?
    requires k < EvictCount(Run(NewStore(maxSamplesSize), ops).value, 0)
    ensures var s := Run(NewStore(maxSamplesSize), ops).value;
            var since := Since(s.log, s.evList[k]);
            since != [] && since[|since| - 1].state == ENDED
  {
    var s := Run(NewStore(maxSamplesSize), ops).value;
    EvictionIsShortest(maxSamplesSize, ops);
    assert s.evList[k] in s.evList;
    TrialsAreTheirLog(maxSamplesSize, ops, s.evList[k]);
  }
}
