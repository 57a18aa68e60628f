/**
 * Both stores page alike: after the same operations, each retrieves the same trials for the same request, and following
 * either one's next positions visits every matching trial once, in the order of creation.
 */
module PagingRefinement {
  import opened Common
  import P = TrialPages
  import M = MemoryStores
  import B = BoltStores
  import K = BoltKeys

  datatype Op =
    | CreateTrials(batch: seq<(string, B.Params)>)
    | DeleteTrials(ids: seq<string>)
    | AddSamples(samples: seq<B.Sample>, scanned: nat)
    | LookUpTrials(ids: seq<string>)
    | EvictTrials

  function ToMemory(params: B.Params): M.TrialParams {
    M.TrialParams(params.userID, params.properties)
  }

  function MemoryOp(op: Op): M.Op {
    match op
    case CreateTrials(batch) =>
      M.CreateOp(seq(|batch|, i requires 0 <= i < |batch| => (batch[i].0, ToMemory(batch[i].1))))
    case DeleteTrials(ids) => M.DeleteOp(ids)
    case AddSamples(samples, _) =>
      M.AddOp(seq(|samples|, i requires 0 <= i < |samples| =>
        M.Sample(samples[i].trialID, samples[i].state, samples[i].body)))
    case LookUpTrials(ids) => M.LookUpOp(ids)
    case EvictTrials => M.EvictOp
  }

  function BoltApply(b: B.Bolt, op: Op): B.Bolt {
    match op
    case CreateTrials(batch) => B.Commit(b, B.CreateUpdate(batch))
    case DeleteTrials(ids) => B.Commit(b, B.DeleteUpdate(ids))
    case AddSamples(samples, scanned) => B.Commit(b, B.AddUpdate(samples, scanned))
    case _ => b
  }

  predicate DeletedIn(s: M.Store, id: string) {
    id in s.trials && s.trials[id].deleted
  }

  /**
   * No trial is created without a name or created again after its
   * deletion, and no sample is added to a deleted trial.
   */
  ghost predicate Allowed(s: M.Store, op: Op)
    requires M.Inv(s)
  {
    && (op.CreateTrials? ==> forall i | 0 <= i < |op.batch| :: op.batch[i].0 != "" && !DeletedIn(s, op.batch[i].0))
    && M.Apply(s, MemoryOp(op)).Some?
  }

  /** The trial has the same number and parameters in both stores. */
  predicate SameTrial(s: M.Store, b: B.Bolt, id: string) {
    && id in b.trials && id in s.trials
    && 1 <= b.trials[id].trialIdx <= |s.trialIDs|
    && s.trialIDs[b.trials[id].trialIdx - 1] == id
    && s.trials[id].params == ToMemory(b.trials[id].params)
  }

  /** Both stores hold the same trials, numbered alike. */
  ghost predicate Related(s: M.Store, b: B.Bolt) {
    && |s.trialIDs| == b.sequence
    && (forall id :: id in b.trials <==> id in s.trials && !s.trials[id].deleted)
    && (forall id | id in b.trials :: SameTrial(s, b, id))
  }

  lemma CreateKeepsRelated(s: M.Store, b: B.Bolt, id: string, params: B.Params)
    requires Related(s, b) && id != "" && !DeletedIn(s, id)
    ensures B.Created(b, id, params).Some?
    ensures Related(M.Created(s, id, ToMemory(params)), B.Created(b, id, params).value)
    ensures forall x :: DeletedIn(M.Created(s, id, ToMemory(params)), x) ==> DeletedIn(s, x)
  {
    var t, c := M.Created(s, id, ToMemory(params)), B.Created(b, id, params).value;
    forall x | x in c.trials ensures SameTrial(t, c, x) {
      assert x != id ==> SameTrial(s, b, x);
      assert id in b.trials ==> SameTrial(s, b, id);
    }
  }

  lemma {:induction false} CreatesKeepRelated(
    s: M.Store, b: B.Bolt, batch: seq<(string, B.Params)>, memory: seq<(string, M.TrialParams)>, n: nat)
    requires Related(s, b) && n <= |batch| == |memory|
    requires forall i | 0 <= i < n :: memory[i] == (batch[i].0, ToMemory(batch[i].1))
    requires forall i | 0 <= i < n :: batch[i].0 != "" && !DeletedIn(s, batch[i].0)
    ensures B.AllCreated(b, batch, n).Some?
    ensures Related(M.AllCreated(s, memory, n), B.AllCreated(b, batch, n).value)
    ensures forall x :: DeletedIn(M.AllCreated(s, memory, n), x) ==> DeletedIn(s, x)
  {
    if n > 0 {
      CreatesKeepRelated(s, b, batch, memory, n - 1);
      var t, c := M.AllCreated(s, memory, n - 1), B.AllCreated(b, batch, n - 1).value;
      CreateKeepsRelated(t, c, batch[n - 1].0, batch[n - 1].1);
    }
  }

  lemma DeleteKeepsRelated(s: M.Store, b: B.Bolt, id: string)
    requires Related(s, b)
    ensures Related(M.Deleted(s, id), B.Deleted(b, id))
  {
    var t, c := M.Deleted(s, id), B.Deleted(b, id);
    forall x | x in c.trials ensures SameTrial(t, c, x) {
      assert SameTrial(s, b, x);
    }
  }

  lemma {:induction false} DeletesKeepRelated(s: M.Store, b: B.Bolt, ids: seq<string>, n: nat)
    requires Related(s, b) && n <= |ids|
    ensures Related(M.AllDeleted(s, ids, n), B.AllDeleted(b, ids, n))
  {
    if n > 0 {
      DeletesKeepRelated(s, b, ids, n - 1);
      DeleteKeepsRelated(M.AllDeleted(s, ids, n - 1), B.AllDeleted(b, ids, n - 1), ids[n - 1]);
    }
  }

  /** What the relation depends on. */
  ghost predicate SameInMemory(s: M.Store, t: M.Store) {
    && t.trialIDs == s.trialIDs && t.trials.Keys == s.trials.Keys
    && forall id | id in s.trials ::
         t.trials[id].deleted == s.trials[id].deleted && t.trials[id].params == s.trials[id].params
  }

  ghost predicate SameInBolt(b: B.Bolt, c: B.Bolt) {
    && c.idx == b.idx && c.sequence == b.sequence && c.trials.Keys == b.trials.Keys
    && forall id | id in b.trials ::
         c.trials[id].trialIdx == b.trials[id].trialIdx && c.trials[id].params == b.trials[id].params
  }

  lemma SameKeepsRelated(s: M.Store, t: M.Store, b: B.Bolt, c: B.Bolt)
    requires Related(s, b) && SameInMemory(s, t) && SameInBolt(b, c)
    ensures Related(t, c)
  {
    forall id | id in c.trials ensures SameTrial(t, c, id) {
      assert SameTrial(s, b, id);
    }
  }

  lemma {:induction false} LookedUpIsSame(s: M.Store, ids: seq<string>, n: nat)
    requires n <= |ids| && forall i | 0 <= i < n :: ids[i] in s.trials
    ensures SameInMemory(s, M.LookedUp(s, ids, n))
  {
    if n > 0 {
      LookedUpIsSame(s, ids, n - 1);
    }
  }

  lemma {:induction false} AddedIsSame(s: M.Store, samples: seq<M.Sample>, n: nat)
    requires n <= |samples|
    ensures SameInMemory(s, M.AllAdded(s, samples, n))
  {
    if n > 0 {
      AddedIsSame(s, samples, n - 1);
    }
  }

  lemma {:induction false} BoltAddedIsSame(b: B.Bolt, samples: seq<B.Sample>, scanned: nat, n: nat)
    requires n <= |samples| && B.AllAdded(b, samples, scanned, n).Some?
    ensures SameInBolt(b, B.AllAdded(b, samples, scanned, n).value)
  {
    if n > 0 {
      BoltAddedIsSame(b, samples, scanned, n - 1);
    }
  }

  lemma AddKeepsRelated(s: M.Store, b: B.Bolt, op: Op)
    requires M.Inv(s) && Related(s, b) && op.AddSamples? && Allowed(s, op)
    ensures Related(M.Apply(s, MemoryOp(op)).value, BoltApply(b, op))
  {
    var samples := MemoryOp(op).samples;
    var ids := M.SampleIDs(samples);
    var k := M.KnownPrefix(s.trials, ids, |ids|);
    var t := M.LookedUp(s, ids, k);
    LookedUpIsSame(s, ids, k);
    AddedIsSame(t, samples, |samples|);
    if B.Body(b, B.AddUpdate(op.samples, op.scanned)).Some? {
      BoltAddedIsSame(b, op.samples, op.scanned, |op.samples|);
    }
    SameKeepsRelated(s, M.Apply(s, MemoryOp(op)).value, b, BoltApply(b, op));
  }

  lemma EvictedIsSame(s: M.Store, t: M.Store, k: nat)
    requires k <= |s.evList| && (forall id | id in s.evList :: id in s.trials) && M.EvictedTo(s, t, k)
    ensures SameInMemory(s, t)
  {
  }

  lemma EvictKeepsRelated(s: M.Store, b: B.Bolt)
    requires M.Inv(s) && Related(s, b)
    ensures M.Apply(s, M.EvictOp).Some? && Related(M.Apply(s, M.EvictOp).value, b)
  {
    var n := M.EvictCount(s, 0);
    EvictedIsSame(s, M.EvictFronts(s, n), n);
    SameKeepsRelated(s, M.EvictFronts(s, n), b, b);
  }

  lemma ApplyKeepsRelated(s: M.Store, b: B.Bolt, op: Op)
    requires M.Inv(s) && Related(s, b) && Allowed(s, op)
    ensures Related(M.Apply(s, MemoryOp(op)).value, BoltApply(b, op))
  {
    match op {
      case CreateTrials(batch) => CreatesKeepRelated(s, b, batch, MemoryOp(op).batch, |batch|);
      case DeleteTrials(ids) => DeletesKeepRelated(s, b, ids, |ids|);
      case AddSamples(_, _) => AddKeepsRelated(s, b, op);
      case LookUpTrials(ids) =>
        LookedUpIsSame(s, ids, M.KnownPrefix(s.trials, ids, |ids|));
        SameKeepsRelated(s, M.Apply(s, MemoryOp(op)).value, b, b);
      case EvictTrials => EvictKeepsRelated(s, b);
    }
  }

  lemma BoltApplyKeepsInv(b: B.Bolt, op: Op)
    requires B.Inv(b)
    ensures B.Inv(BoltApply(b, op))
  {
    match op {
      case CreateTrials(batch) => B.CommitKeepsInv(b, B.CreateUpdate(batch));
      case DeleteTrials(ids) => B.CommitKeepsInv(b, B.DeleteUpdate(ids));
      case AddSamples(samples, scanned) => B.CommitKeepsInv(b, B.AddUpdate(samples, scanned));
      case _ =>
    }
  }

  // ---- Runs of both stores ----

  datatype Stores = Stores(memory: M.Store, bolt: B.Bolt)

  ghost predicate Good(x: Stores) {
    M.Inv(x.memory) && B.Inv(x.bolt) && Related(x.memory, x.bolt)
  }

  ghost function RunBoth(x: Stores, ops: seq<Op>): (end: Option<Stores>)
    requires Good(x)
    ensures end.Some? ==> Good(end.value)
    decreases |ops|
  {
    if ops == [] then Some(x)
    else if !Allowed(x.memory, ops[0]) then None
    else
      M.ApplyKeepsInv(x.memory, MemoryOp(ops[0]));
      BoltApplyKeepsInv(x.bolt, ops[0]);
      ApplyKeepsRelated(x.memory, x.bolt, ops[0]);
      RunBoth(Stores(M.Apply(x.memory, MemoryOp(ops[0])).value, BoltApply(x.bolt, ops[0])), ops[1..])
  }

  function NewStores(maxSamplesSize: nat): (x: Stores)
    ensures Good(x)
  {
    Stores(M.NewStore(maxSamplesSize), B.NewBolt())
  }

  // ---- The same pages ----

  lemma IndexedIsLive(s: M.Store, b: B.Bolt, p: nat)
    requires B.IdxOk(b) && Related(s, b) && p < |s.trialIDs| && p + 1 in b.idx
    ensures var id := b.idx[p + 1];
            s.trialIDs[p] == id && id in s.trials && !s.trials[id].deleted
            && s.trials[id].params.properties == b.trials[id].params.properties
  {
    assert b.trials[b.idx[p + 1]].trialIdx == p + 1;
    assert SameTrial(s, b, b.idx[p + 1]);
  }

  lemma SameMatch(s: M.Store, b: B.Bolt, f: P.Filter, p: nat)
    requires M.IdsOk(s) && B.IdxOk(b) && Related(s, b) && p < b.sequence
    ensures P.Matches(M.Entries(s)[p], f) == P.Matches(B.Entries(b)[p], f)
  {
    assert s.trialIDs[p] in s.trialIDs;
    assert B.Entries(b)[p] == B.EntryAt(b, p);
    if p + 1 in b.idx {
      IndexedIsLive(s, b, p);
    } else if s.trialIDs[p] in b.trials {
      LiveIsIndexed(s, b, p);
    }
  }

  lemma LiveIsIndexed(s: M.Store, b: B.Bolt, p: nat)
    requires NoDup(s.trialIDs) && B.IdxOk(b) && Related(s, b)
    requires p < |s.trialIDs| && s.trialIDs[p] in b.trials
    ensures p + 1 in b.idx
  {
    var id := s.trialIDs[p];
    assert SameTrial(s, b, id);
    assert b.trials[id].trialIdx - 1 == p;
  }

  lemma {:induction false} SameMatches(x: Stores, f: P.Filter, from: nat)
    requires Good(x)
    ensures P.MatchesFrom(M.Entries(x.memory), f, from) == P.MatchesFrom(B.Entries(x.bolt), f, from)
    decreases x.bolt.sequence - from
  {
    if from < x.bolt.sequence {
      SameMatch(x.memory, x.bolt, f, from);
      SameMatches(x, f, from + 1);
    }
  }

  ghost function MemoryAnswer(s: M.Store, f: P.Filter, from: int, count: int): P.Answer
    requires M.IdsOk(s)
  {
    var page := P.Page(M.Entries(s), f, from, count);
    P.Answer(page, M.NextAfter(page))
  }

  ghost function BoltAnswer(b: B.Bolt, f: P.Filter, from: int, count: int): P.Answer
    requires B.IdxOk(b)
  {
    var page := P.Page(B.Entries(b), f, from, count);
    P.Answer(page, B.NextAfter(b, page, P.Start(from), count))
  }

  /** No match follows the last one of a page that holds all of them. */
  lemma NoMatchAfterAll(es: seq<P.Entry>, f: P.Filter, from: int, count: int, p: nat)
    requires var page := P.Page(es, f, from, count);
             page != [] && page == P.MatchesFrom(es, f, P.Start(from)) && page[|page| - 1] < p < |es|
    ensures !P.Matches(es[p], f)
  {
    P.MatchesAreExact(es, f, P.Start(from));
    var ms := P.MatchesFrom(es, f, P.Start(from));
    assert ms[|ms| - 1] in ms;
    forall i | 0 <= i < |ms| ensures ms[i] != p {
    }
    assert p !in ms;
  }

  lemma LastIsAPosition(es: seq<P.Entry>, f: P.Filter, from: int, count: int)
    requires P.Page(es, f, from, count) != []
    ensures var page := P.Page(es, f, from, count); page[|page| - 1] < |es|
  {
    P.MatchesAreExact(es, f, P.Start(from));
    var page, ms := P.Page(es, f, from, count), P.MatchesFrom(es, f, P.Start(from));
    assert page[|page| - 1] in ms;
  }

  lemma MemoryAnswerFits(s: M.Store, f: P.Filter, from: int, count: int)
    requires M.IdsOk(s)
    ensures P.AnswerFits(MemoryAnswer(s, f, from, count), M.Entries(s), f, from, count)
  {
    if P.Page(M.Entries(s), f, from, count) != [] {
      LastIsAPosition(M.Entries(s), f, from, count);
    }
  }

  lemma BoltAnswerFits(b: B.Bolt, f: P.Filter, from: int, count: int)
    requires B.IdxOk(b)
    ensures P.AnswerFits(BoltAnswer(b, f, from, count), B.Entries(b), f, from, count)
  {
    var es, page := B.Entries(b), P.Page(B.Entries(b), f, from, count);
    if page != [] {
      LastIsAPosition(es, f, from, count);
      var last := page[|page| - 1];
      if 0 < count <= |page| {
        B.NextLiveSkipsNone(b, f, last + 1);
      } else {
        forall p | last < p < |es| ensures !P.Matches(es[p], f) {
          NoMatchAfterAll(es, f, from, count, p);
        }
      }
    }
  }

  /** After any allowed run, both stores answer any request with the same trials. */
  lemma PagesAgree(maxSamplesSize: nat, ops: seq<Op>, f: P.Filter, from: int, count: int)
    requires RunBoth(NewStores(maxSamplesSize), ops).Some?
    ensures var x := RunBoth(NewStores(maxSamplesSize), ops).value;
            MemoryAnswer(x.memory, f, from, count).page == BoltAnswer(x.bolt, f, from, count).page
  {
    SameMatches(RunBoth(NewStores(maxSamplesSize), ops).value, f, P.Start(from));
  }

  /**
   * After any allowed run and for every page size: following the next positions of either store, page after page
   * until the first empty one, gives every trial that matches from there on, each once and in the order of creation.
   */
  lemma ChainsAreComplete(maxSamplesSize: nat, ops: seq<Op>, f: P.Filter, from: int, count: int)
    requires RunBoth(NewStores(maxSamplesSize), ops).Some?
    ensures var x := RunBoth(NewStores(maxSamplesSize), ops).value;
            var es := M.Entries(x.memory);
            var memory := i => MemoryAnswer(x.memory, f, i, count);
            var bolt := i => BoltAnswer(x.bolt, f, i, count);
            && (forall i: int :: P.AnswerFits(memory(i), es, f, i, count))
            && (forall i: int :: P.AnswerFits(bolt(i), B.Entries(x.bolt), f, i, count))
            && P.Chain(memory, es, f, from, count) == P.Chain(bolt, B.Entries(x.bolt), f, from, count)
                 == P.MatchesFrom(es, f, P.Start(from))
            && (forall p: nat :: p in P.Chain(memory, es, f, from, count) <==>
                  P.Start(from) <= p < |es| && P.Matches(es[p], f))
            && (forall i, j | 0 <= i < j < |P.Chain(memory, es, f, from, count)| ::
                  P.Chain(memory, es, f, from, count)[i] < P.Chain(memory, es, f, from, count)[j])
  {
    var x := RunBoth(NewStores(maxSamplesSize), ops).value;
    var es := M.Entries(x.memory);
    var memory := i => MemoryAnswer(x.memory, f, i, count);
    var bolt := i => BoltAnswer(x.bolt, f, i, count);
    forall i: int ensures P.AnswerFits(memory(i), es, f, i, count) {
      MemoryAnswerFits(x.memory, f, i, count);
    }
    forall i: int ensures P.AnswerFits(bolt(i), B.Entries(x.bolt), f, i, count) {
      BoltAnswerFits(x.bolt, f, i, count);
    }
    P.ChainIsComplete(memory, es, f, from, count);
    P.ChainIsComplete(bolt, B.Entries(x.bolt), f, from, count);
    SameMatches(x, f, P.Start(from));
    P.MatchesAreExact(es, f, P.Start(from));
  }

  // ---- Trials created again ----

  predicate Named(batch: seq<(string, B.Params)>) {
    forall i | 0 <= i < |batch| :: batch[i].0 != ""
  }

  /** Both stores answer every request with the same page. */
  ghost predicate PageAlike(s: M.Store, b: B.Bolt)
    requires M.IdsOk(s) && B.IdxOk(b)
  {
    forall f: P.Filter, from: int, count: int ::
      MemoryAnswer(s, f, from, count).page == BoltAnswer(b, f, from, count).page
  }

  lemma {:induction false} NamedAreCreated(b: B.Bolt, batch: seq<(string, B.Params)>, n: nat)
    requires n <= |batch| && Named(batch)
    ensures B.AllCreated(b, batch, n).Some?
    ensures forall i | 0 <= i < n :: batch[i].0 in B.AllCreated(b, batch, n).value.trials
  {
    if n > 0 {
      NamedAreCreated(b, batch, n - 1);
    }
  }

  function Only(id: string): P.Filter {
    P.Filter({id}, map[])
  }

  /** A trial that is deleted in memory is on no page of it. */
  lemma DeletedIsOnNoPage(s: M.Store, id: string)
    requires M.IdsOk(s) && DeletedIn(s, id)
    ensures MemoryAnswer(s, Only(id), 0, 0).page == []
  {
    var es := M.Entries(s);
    assert forall p | 0 <= p < |es| :: !P.Matches(es[p], Only(id));
    P.SkipUnmatched(es, Only(id), 0, |es|);
  }

  lemma HeldIsOnAPage(b: B.Bolt, id: string)
    requires B.IdxOk(b) && id in b.trials
    ensures BoltAnswer(b, Only(id), 0, 0).page != []
  {
    var es, p := B.Entries(b), b.trials[id].trialIdx - 1;
    P.MatchesAreExact(es, Only(id), 0);
    assert es[p] == B.EntryAt(b, p);
    assert P.Matches(es[p], Only(id));
    assert p in P.MatchesFrom(es, Only(id), 0);
  }

  /**
   * From stores that hold the same trials, a creation leaves both stores with the same pages exactly when no trial of
   * the batch was deleted before: the memory store does not bring it back, the bolt store creates it anew.
   */
  lemma RecreationPartsTheStores(x: Stores, batch: seq<(string, B.Params)>)
    requires Good(x) && Named(batch)
    ensures var op := CreateTrials(batch);
            var s, b := M.Apply(x.memory, MemoryOp(op)).value, BoltApply(x.bolt, op);
            && M.Inv(s) && B.Inv(b)
            && (PageAlike(s, b) <==> forall i | 0 <= i < |batch| :: !DeletedIn(x.memory, batch[i].0))
  {
    var op := CreateTrials(batch);
    var s, b := M.Apply(x.memory, MemoryOp(op)).value, BoltApply(x.bolt, op);
    M.ApplyKeepsInv(x.memory, MemoryOp(op));
    BoltApplyKeepsInv(x.bolt, op);
    if i :| 0 <= i < |batch| && DeletedIn(x.memory, batch[i].0) {
      M.CreatedUnlessDeleted(x.memory, MemoryOp(op).batch, |batch|, i);
      NamedAreCreated(x.bolt, batch, |batch|);
      DeletedIsOnNoPage(s, batch[i].0);
      HeldIsOnAPage(b, batch[i].0);
    } else {
      ApplyKeepsRelated(x.memory, x.bolt, op);
      forall f: P.Filter, from: int, count: int
        ensures MemoryAnswer(s, f, from, count).page == BoltAnswer(b, f, from, count).page
      {
        SameMatches(Stores(s, b), f, P.Start(from));
      }
    }
  }

  lemma BothApplied(x: Stores, op: Op) returns (y: Stores)
    requires Good(x) && Allowed(x.memory, op)
    ensures Good(y) && y == Stores(M.Apply(x.memory, MemoryOp(op)).value, BoltApply(x.bolt, op))
  {
    M.ApplyKeepsInv(x.memory, MemoryOp(op));
    BoltApplyKeepsInv(x.bolt, op);
    ApplyKeepsRelated(x.memory, x.bolt, op);
    y := Stores(M.Apply(x.memory, MemoryOp(op)).value, BoltApply(x.bolt, op));
  }

  lemma RunTwo(x: Stores, first: Op, second: Op) returns (y: Stores, z: Stores)
    requires Good(x) && Allowed(x.memory, first)
    requires M.Inv(M.Apply(x.memory, MemoryOp(first)).value)
    requires Allowed(M.Apply(x.memory, MemoryOp(first)).value, second)
    ensures Good(y) && y == Stores(M.Apply(x.memory, MemoryOp(first)).value, BoltApply(x.bolt, first))
    ensures Good(z) && z == Stores(M.Apply(y.memory, MemoryOp(second)).value, BoltApply(y.bolt, second))
    ensures RunBoth(x, [first, second]) == Some(z)
  {
    y := BothApplied(x, first);
    z := BothApplied(y, second);
    assert [first, second][1..] == [second] && [second][1..] == [];
    assert RunBoth(z, []) == Some(z);
    assert RunBoth(y, [second]) == Some(z);
  }

  lemma DeletedNow(s: M.Store, id: string)
    requires M.Inv(s) && id in s.trials
    ensures DeletedIn(M.Apply(s, M.DeleteOp([id])).value, id)
  {
    assert M.AllDeleted(s, [id], 0) == s;
  }

  lemma CreatedNow(s: M.Store, id: string, params: B.Params)
    requires M.Inv(s)
    ensures M.Inv(M.Apply(s, MemoryOp(CreateTrials([(id, params)]))).value)
    ensures id in M.Apply(s, MemoryOp(CreateTrials([(id, params)]))).value.trials
  {
    var op := MemoryOp(CreateTrials([(id, params)]));
    M.ApplyKeepsInv(s, op);
    M.CreatedUnlessDeleted(s, op.batch, 1, 0);
  }

  /** A trial created, deleted and created again: the stores no longer page alike. */
  lemma RecreatedTrialIsMissing(maxSamplesSize: nat, id: string, params: B.Params)
    requires id != ""
    ensures var create, delete := CreateTrials([(id, params)]), DeleteTrials([id]);
            var x := RunBoth(NewStores(maxSamplesSize), [create, delete]);
            && x.Some?
            && var s, b := M.Apply(x.value.memory, MemoryOp(create)).value, BoltApply(x.value.bolt, create);
            && M.Inv(s) && B.Inv(b) && !PageAlike(s, b)
  {
    var create, delete := CreateTrials([(id, params)]), DeleteTrials([id]);
    var x := NewStores(maxSamplesSize);
    CreatedNow(x.memory, id, params);
    var y, z := RunTwo(x, create, delete);
    DeletedNow(y.memory, id);
    assert create.batch[0].0 == id && DeletedIn(z.memory, id);
    RecreationPartsTheStores(z, create.batch);
  }

  /** With fewer than 2^31 trials ever created, the next position of the bolt store can always be read. */
  lemma NextPositionReads(b: B.Bolt, f: P.Filter, from: int, count: int)
    requires B.IdxOk(b) && b.sequence <= K.MAX_INT32
    ensures var next := BoltAnswer(b, f, from, count).next; next == b.sequence || next + 1 <= K.MAX_INT32
  {
    var page := P.Page(B.Entries(b), f, from, count);
    if 0 < count <= |page| {
      LastIsAPosition(B.Entries(b), f, from, count);
      B.NextLiveSkipsNone(b, f, page[|page| - 1] + 1);
    }
  }

  /** An empty page of the memory store sends its reader back to the beginning. */
  lemma EmptyMemoryPageRestarts(s: M.Store, f: P.Filter, from: int, count: int)
    requires M.IdsOk(s)
    ensures MemoryAnswer(s, f, from, count).page == [] <==> MemoryAnswer(s, f, from, count).next == 0
  {
  }
}
