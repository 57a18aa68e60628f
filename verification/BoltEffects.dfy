/**
 * What each transaction of the bolt store does to every trial, and exactly when it fails.
 */
module BoltEffects {
  import opened Common
  import opened BoltStores

  // ---- Additions ----

  /** The samples of a trial once a batch has been added: at each tick the last one of the batch, or what was there. */
  ghost predicate SamplesAfter(before: Trial, after: Trial, samples: seq<Sample>, n: nat, id: string)
    requires n <= |samples|
  {
    && after.trialIdx == before.trialIdx && after.params == before.params
    && forall tick: nat ::
         var last := LastFor(samples, n, id, tick);
         && (tick in after.samples <==> tick in before.samples || last.Some?)
         && (tick in after.samples ==>
               after.samples[tick] == if last.Some? then last.value else before.samples[tick])
  }

  ghost predicate BatchAdded(b: Bolt, c: Bolt, samples: seq<Sample>, n: nat)
    requires n <= |samples|
  {
    && c.idx == b.idx && c.sequence == b.sequence && c.trials.Keys == b.trials.Keys
    && forall id | id in b.trials :: SamplesAfter(b.trials[id], c.trials[id], samples, n, id)
  }

  lemma OneSampleMore(before: Trial, t: Trial, samples: seq<Sample>, n: nat, id: string, scanned: nat)
    requires 0 < n <= |samples| && SamplesAfter(before, t, samples, n - 1, id)
    ensures var x := samples[n - 1];
            SamplesAfter(before, if x.trialID == id then Added(t, x, scanned) else t, samples, n, id)
  {
  }

  lemma BatchMore(b: Bolt, c: Bolt, samples: seq<Sample>, scanned: nat, n: nat)
    requires 0 < n <= |samples| && BatchAdded(b, c, samples, n - 1) && samples[n - 1].trialID in c.trials
    ensures var x := samples[n - 1];
            BatchAdded(b, c.(trials := c.trials[x.trialID := Added(c.trials[x.trialID], x, scanned)]), samples, n)
  {
    var x := samples[n - 1];
    forall id | id in b.trials
      ensures SamplesAfter(b.trials[id], if x.trialID == id then Added(c.trials[id], x, scanned) else c.trials[id],
                           samples, n, id)
    {
      OneSampleMore(b.trials[id], c.trials[id], samples, n, id, scanned);
    }
  }

  lemma {:induction false} AdditionEffect(b: Bolt, samples: seq<Sample>, scanned: nat, n: nat)
    requires n <= |samples|
    ensures AllAdded(b, samples, scanned, n).None? <==> exists i :: 0 <= i < n && samples[i].trialID !in b.trials
    ensures AllAdded(b, samples, scanned, n).Some? ==> BatchAdded(b, AllAdded(b, samples, scanned, n).value, samples, n)
  {
    if n > 0 {
      AdditionEffect(b, samples, scanned, n - 1);
      if AllAdded(b, samples, scanned, n).Some? {
        BatchMore(b, AllAdded(b, samples, scanned, n - 1).value, samples, scanned, n);
      }
    }
  }

  /**
   * An addition fails, and then changes nothing, exactly when some trial is unknown.  Otherwise each trial has at each
   * tick the last sample of the batch, or else the one it had; and nothing but samples and their counts has changed.
   */
  lemma AdditionIsExact(b: Bolt, samples: seq<Sample>, scanned: nat)
    ensures var c := Commit(b, AddUpdate(samples, scanned));
            if exists i :: 0 <= i < |samples| && samples[i].trialID !in b.trials then c == b
            else BatchAdded(b, c, samples, |samples|)
  {
    AdditionEffect(b, samples, scanned, |samples|);
  }

  // ---- Deletions ----

  lemma {:induction false} DeletionEffect(b: Bolt, ids: seq<string>, n: nat)
    requires n <= |ids| && IdxOk(b)
    ensures var c := AllDeleted(b, ids, n);
            && IdxOk(c) && c.sequence == b.sequence
            && (forall id :: id in c.trials <==> id in b.trials && id !in ids[..n])
            && (forall id | id in c.trials :: c.trials[id] == b.trials[id])
  {
    if n > 0 {
      DeletionEffect(b, ids, n - 1);
      assert ids[..n] == ids[..n - 1] + [ids[n - 1]];
      DeletedKeepsIdx(AllDeleted(b, ids, n - 1), ids[n - 1]);
    }
  }

  lemma DeletedKeepsIdx(b: Bolt, id: string)
    requires IdxOk(b)
    ensures IdxOk(Deleted(b, id))
  {
  }

  /** A deletion takes away exactly the trials it names, and their index entries. */
  lemma DeletionIsExact(b: Bolt, ids: seq<string>)
    requires Inv(b)
    ensures var c := Commit(b, DeleteUpdate(ids));
            && c.sequence == b.sequence
            && (forall id :: id in c.trials <==> id in b.trials && id !in ids)
            && (forall id | id in c.trials :: c.trials[id] == b.trials[id])
            && (forall i :: i in c.idx <==> i in b.idx && b.idx[i] !in ids)
            && (forall i | i in c.idx :: c.idx[i] == b.idx[i])
  {
    DeletionEffect(b, ids, |ids|);
    assert ids[..|ids|] == ids;
    var c := Commit(b, DeleteUpdate(ids));
    forall i | i in c.idx ensures i in b.idx && b.idx[i] == c.idx[i] && c.idx[i] !in ids {
      assert c.trials[c.idx[i]] == b.trials[c.idx[i]];
    }
    forall i | i in b.idx && b.idx[i] !in ids ensures i in c.idx {
      assert c.trials[b.idx[i]].trialIdx == i;
    }
  }

  // ---- Creations ----

  /** The first entry of the batch for the trial. */
  ghost predicate FirstFor(batch: seq<(string, Params)>, i: nat, id: string) {
    i < |batch| && batch[i].0 == id && forall j | 0 <= j < i :: batch[j].0 != id
  }

  /** The numbers of new trials follow the order of their first entries. */
  ghost predicate NumberedInOrder(b: Bolt, c: Bolt, batch: seq<(string, Params)>, n: nat) {
    forall i: nat, j: nat, x, y | i < j < n && FirstFor(batch, i, x) && FirstFor(batch, j, y)
                                  && x !in b.trials && y !in b.trials && x in c.trials && y in c.trials ::
      c.trials[x].trialIdx < c.trials[y].trialIdx
  }

  /** The trial after the creation: as before but for its parameters, or new and empty. */
  ghost predicate TrialAfter(b: Bolt, t: Trial, batch: seq<(string, Params)>, n: nat, id: string)
    requires n <= |batch|
  {
    var last := LastParams(batch, n, id);
    if id in b.trials then t == b.trials[id].(params := if last.Some? then last.value else b.trials[id].params)
    else last.Some? && t.params == last.value && t.samples == map[] && t.sampleCount == 0 && t.trialIdx > b.sequence
  }

  ghost predicate TrialsAfter(b: Bolt, c: Bolt, batch: seq<(string, Params)>, n: nat)
    requires n <= |batch|
  {
    && (forall id :: id in c.trials <==> id in b.trials || LastParams(batch, n, id).Some?)
    && (forall id | id in c.trials :: TrialAfter(b, c.trials[id], batch, n, id))
  }

  /** New numbers follow the others without a gap. */
  ghost predicate NumbersAfter(b: Bolt, c: Bolt) {
    b.sequence <= c.sequence && forall i :: i in c.idx <==> i in b.idx || b.sequence < i <= c.sequence
  }

  ghost predicate BatchCreated(b: Bolt, c: Bolt, batch: seq<(string, Params)>, n: nat)
    requires n <= |batch|
  {
    TrialsAfter(b, c, batch, n) && NumbersAfter(b, c)
  }

  lemma OneCreationMore(b: Bolt, c: Bolt, batch: seq<(string, Params)>, n: nat)
    requires 0 < n <= |batch| && BatchCreated(b, c, batch, n - 1) && IdxOk(c)
    requires Created(c, batch[n - 1].0, batch[n - 1].1).Some?
    ensures BatchCreated(b, Created(c, batch[n - 1].0, batch[n - 1].1).value, batch, n)
  {
    TrialsMore(b, c, batch, n);
    NumberMore(c, batch[n - 1].0, batch[n - 1].1);
    NumbersFurther(b, c, Created(c, batch[n - 1].0, batch[n - 1].1).value);
  }

  lemma NumbersFurther(b: Bolt, c: Bolt, d: Bolt)
    requires NumbersAfter(b, c) && NumbersAfter(c, d)
    ensures NumbersAfter(b, d)
  {
  }

  lemma TrialsMore(b: Bolt, c: Bolt, batch: seq<(string, Params)>, n: nat)
    requires 0 < n <= |batch| && TrialsAfter(b, c, batch, n - 1) && b.sequence <= c.sequence
    requires Created(c, batch[n - 1].0, batch[n - 1].1).Some?
    ensures TrialsAfter(b, Created(c, batch[n - 1].0, batch[n - 1].1).value, batch, n)
  {
    var d := Created(c, batch[n - 1].0, batch[n - 1].1).value;
    forall x | x in d.trials ensures TrialAfter(b, d.trials[x], batch, n, x) {
      TrialMore(b, c, batch, n, x);
    }
  }

  lemma TrialMore(b: Bolt, c: Bolt, batch: seq<(string, Params)>, n: nat, x: string)
    requires 0 < n <= |batch| && b.sequence <= c.sequence
    requires x in c.trials ==> TrialAfter(b, c.trials[x], batch, n - 1, x)
    requires x in b.trials ==> x in c.trials
    requires Created(c, batch[n - 1].0, batch[n - 1].1).Some?
    ensures var d := Created(c, batch[n - 1].0, batch[n - 1].1).value;
            x in d.trials ==> TrialAfter(b, d.trials[x], batch, n, x)
  {
  }

  lemma NumberMore(c: Bolt, id: string, params: Params)
    requires IdxOk(c) && Created(c, id, params).Some?
    ensures var d := Created(c, id, params).value;
            NumbersAfter(c, d)
  {
  }

  lemma NumbersFollow(b: Bolt, c: Bolt, batch: seq<(string, Params)>, n: nat)
    requires 0 < n <= |batch| && BatchCreated(b, c, batch, n - 1) && IdxOk(c) && NumberedInOrder(b, c, batch, n - 1)
    requires Created(c, batch[n - 1].0, batch[n - 1].1).Some?
    ensures NumberedInOrder(b, Created(c, batch[n - 1].0, batch[n - 1].1).value, batch, n)
  {
    var (id, params) := batch[n - 1];
    var d := Created(c, id, params).value;
    forall i: nat, j: nat, x, y | i < j < n && FirstFor(batch, i, x) && FirstFor(batch, j, y) && x !in b.trials
                        && y !in b.trials && x in d.trials && y in d.trials
      ensures d.trials[x].trialIdx < d.trials[y].trialIdx
    {
      assert LastParams(batch, n - 1, x).Some?;
      if j == n - 1 {
        assert y == id && y !in c.trials;
        assert d.trials[y].trialIdx == c.sequence + 1;
      } else {
        assert LastParams(batch, n - 1, y).Some?;
      }
    }
  }

  lemma {:induction false} CreationEffect(b: Bolt, batch: seq<(string, Params)>, n: nat)
    requires n <= |batch| && Inv(b)
    ensures AllCreated(b, batch, n).None? <==> exists i :: 0 <= i < n && batch[i].0 == "" && "" !in b.trials
    ensures AllCreated(b, batch, n).Some? ==>
              var c := AllCreated(b, batch, n).value;
              BatchCreated(b, c, batch, n) && NumberedInOrder(b, c, batch, n)
  {
    if n > 0 {
      CreationEffect(b, batch, n - 1);
      AllCreatedKeepsInv(b, batch, n - 1);
      var front := AllCreated(b, batch, n - 1);
      if front.Some? {
        NextCreation(b, front.value, batch, n);
      }
    }
  }

  lemma NextCreation(b: Bolt, c: Bolt, batch: seq<(string, Params)>, n: nat)
    requires 0 < n <= |batch| && IdxOk(c) && BatchCreated(b, c, batch, n - 1) && NumberedInOrder(b, c, batch, n - 1)
    requires !exists i :: 0 <= i < n - 1 && batch[i].0 == "" && "" !in b.trials
    ensures var d := Created(c, batch[n - 1].0, batch[n - 1].1);
            && (d.None? <==> batch[n - 1].0 == "" && "" !in b.trials)
            && (d.Some? ==> BatchCreated(b, d.value, batch, n) && NumberedInOrder(b, d.value, batch, n))
  {
    NameIsMissing(b, c, batch, n - 1);
    if Created(c, batch[n - 1].0, batch[n - 1].1).Some? {
      OneCreationMore(b, c, batch, n);
      NumbersFollow(b, c, batch, n);
    }
  }

  lemma NameIsMissing(b: Bolt, c: Bolt, batch: seq<(string, Params)>, n: nat)
    requires n <= |batch| && BatchCreated(b, c, batch, n)
    requires !exists i :: 0 <= i < n && batch[i].0 == "" && "" !in b.trials
    ensures "" in c.trials <==> "" in b.trials
  {
  }

  /**
   * A creation fails, and then changes nothing, exactly when a trial to create has no name.  Otherwise the trials are
   * those before and those of the batch, each with the parameters last given; a trial there was keeps its samples and
   * number, a new one has no sample; new numbers follow those before without a gap, in the order of the batch.
   */
  lemma CreationIsExact(b: Bolt, batch: seq<(string, Params)>)
    requires Inv(b)
    ensures var c := Commit(b, CreateUpdate(batch));
            if exists i :: 0 <= i < |batch| && batch[i].0 == "" && "" !in b.trials then c == b
            else BatchCreated(b, c, batch, |batch|) && NumberedInOrder(b, c, batch, |batch|)
  {
    CreationEffect(b, batch, |batch|);
  }
}
