/**
 * The response-timeout runner of a trial: it waits for the longest timeout still
 * unanswered, so that one timed wait covers every shorter one.
 *
 * The runner calls back twice: once for every actor it counts, and once when there may
 * be nothing left to wait for.  The specification returns both as an `Effect`.
 */
module TimeoutRunning {
  import opened Common

  datatype Entry = Entry(timeout: nat, id: nat, signaled: bool)

  /** Where the runner's thread is: between two waits, or waiting (with a timer or without). */
  datatype Pc = Outside | Waiting(timed: bool)

  datatype Runner = Runner(
    entries: seq<Entry>, toRemove: seq<nat>, sorted: bool,
    running: nat, wake: bool, pc: Pc)

  /** What a call does: the new runner, the ids it counted, and whether it called the term function. */
  datatype Effect = Effect(runner: Runner, counted: seq<nat>, term: bool)

  function Ids(entries: seq<Entry>): (ids: seq<nat>)
    ensures |ids| == |entries| && forall i | 0 <= i < |ids| :: ids[i] == entries[i].id
  {
    seq(|entries|, i requires 0 <= i < |entries| => entries[i].id)
  }

  ghost predicate Ascending(entries: seq<Entry>) {
    forall i, j | 0 <= i < j < |entries| :: entries[i].timeout <= entries[j].timeout
  }

  // ---- Specification of the operations ----

  function NewRunner(): Runner {
    Runner([], [], false, 0, false, Outside)
  }

  function Add(r: Runner, timeout: nat, id: nat): Runner {
    r.(entries := r.entries + [Entry(timeout, id, false)], sorted := false)
  }

  function Remove(r: Runner, id: nat): Runner {
    r.(toRemove := r.toRemove + [id], sorted := false)
  }

  /** The list without the first entry of the given id. */
  function EraseFirst(entries: seq<Entry>, id: nat): (out: seq<Entry>)
    ensures forall e | e in out :: e in entries
  {
    if entries == [] then []
    else if entries[0].id == id then entries[1..]
    else [entries[0]] + EraseFirst(entries[1..], id)
  }

  function EraseAll(entries: seq<Entry>, ids: seq<nat>): (out: seq<Entry>)
    ensures forall e | e in out :: e in entries
    decreases |ids|
  {
    if ids == [] then entries else EraseAll(EraseFirst(entries, ids[0]), ids[1..])
  }

  function Cleared(entries: seq<Entry>): (out: seq<Entry>)
    ensures |out| == |entries|
    ensures forall i | 0 <= i < |out| :: out[i] == entries[i].(signaled := false)
  {
    seq(|entries|, i requires 0 <= i < |entries| => entries[i].(signaled := false))
  }

  /** `order` is a list a round may start with; the library sort may put equal timeouts in any order. */
  ghost predicate StartOrder(r: Runner, order: seq<Entry>) {
    if r.sorted then order == Cleared(r.entries)
    else
      && Ascending(order)
      && multiset(order) == multiset(Cleared(EraseAll(r.entries, r.toRemove)))
  }

  function Start(r: Runner, order: seq<Entry>): Runner {
    Runner(order, if r.sorted then r.toRemove else [], true, |order|, true, r.pc)
  }

  /** One more than the last index below `n` that holds `id`; 0 when there is none. */
  function FindBack(entries: seq<Entry>, n: nat, id: nat): (k: nat)
    requires n <= |entries|
    ensures k <= n
    ensures k > 0 ==> entries[k - 1].id == id
    ensures forall i | k <= i < n :: entries[i].id != id
  {
    if n == 0 then 0 else if entries[n - 1].id == id then n else FindBack(entries, n - 1, id)
  }

  /** The running size once the signalled entries at the back are dropped. */
  function Shorten(entries: seq<Entry>, n: nat): (k: nat)
    requires n <= |entries|
    ensures k <= n
    ensures k > 0 ==> !entries[k - 1].signaled
    ensures forall i | k <= i < n :: entries[i].signaled
  {
    if n == 0 || !entries[n - 1].signaled then n else Shorten(entries, n - 1)
  }

  function Signal(r: Runner, id: nat): Effect
    requires r.running <= |r.entries|
  {
    var k := FindBack(r.entries, r.running, id);
    if k == 0 then
      Effect(r, [id], true)
    else
      var entries := r.entries[k - 1 := r.entries[k - 1].(signaled := true)];
      if k == r.running then
        Effect(r.(entries := entries, running := Shorten(entries, r.running), wake := true), [id], false)
      else
        Effect(r.(entries := entries), [id], false)
  }

  /** The thread takes the lock and starts to wait, with a timer when an entry remains. */
  function Wait(r: Runner): Runner {
    r.(pc := Waiting(r.running > 0))
  }

  /** The thread wakes up because it was notified. */
  function Wake(r: Runner): Effect {
    Effect(r.(wake := false, pc := Outside), [], r.running == 0)
  }

  /** The ids of the unsignalled entries below `n`, back to front. */
  function Unanswered(entries: seq<Entry>, n: nat): (ids: seq<nat>)
    requires n <= |entries|
    ensures forall x :: x in ids <==> exists i | 0 <= i < n :: entries[i].id == x && !entries[i].signaled
  {
    if n == 0 then []
    else if entries[n - 1].signaled then Unanswered(entries, n - 1)
    else [entries[n - 1].id] + Unanswered(entries, n - 1)
  }

  /** The thread wakes up because its timer ran out. */
  function TimeOut(r: Runner): Effect
    requires r.running <= |r.entries|
  {
    Effect(r.(running := 0, wake := false, pc := Outside), Unanswered(r.entries, r.running), true)
  }

  // ---- What every step keeps ----

  ghost predicate DistinctIds(entries: seq<Entry>) {
    forall i, j | 0 <= i < j < |entries| :: entries[i].id != entries[j].id
  }

  ghost predicate Inv(r: Runner) {
    && r.running <= |r.entries|
    && DistinctIds(r.entries)
    && (r.sorted ==> r.toRemove == [])
    && (r.running > 0 ==> Ascending(r.entries) && !r.entries[r.running - 1].signaled)
    // Every change another thread makes to the round is notified to the waiting thread.
    && (r.pc.Waiting? && !r.wake ==> r.pc.timed == (r.running > 0))
    && (r.sorted ==> Ascending(r.entries))
  }

  lemma {:induction false} EraseFirstIds(entries: seq<Entry>, id: nat)
    requires DistinctIds(entries)
    ensures DistinctIds(EraseFirst(entries, id))
    ensures forall e :: e in EraseFirst(entries, id) <==> e in entries && e.id != id
  {
    if entries != [] {
      var rest := entries[1..];
      assert entries == [entries[0]] + rest;
      if entries[0].id != id {
        EraseFirstIds(rest, id);
        var out := EraseFirst(rest, id);
        assert forall i | 0 <= i < |out| :: out[i] in rest;
        assert EraseFirst(entries, id) == [entries[0]] + out;
      }
    }
  }

  lemma {:induction false} EraseAllIds(entries: seq<Entry>, ids: seq<nat>)
    requires DistinctIds(entries)
    ensures DistinctIds(EraseAll(entries, ids))
    ensures forall e :: e in EraseAll(entries, ids) <==> e in entries && e.id !in ids
    decreases |ids|
  {
    if ids != [] {
      EraseFirstIds(entries, ids[0]);
      EraseAllIds(EraseFirst(entries, ids[0]), ids[1..]);
    }
  }

  lemma {:induction false} OccursTwice<T>(s: seq<T>, i: nat, j: nat)
    requires i < j < |s| && s[i] == s[j]
    ensures multiset(s)[s[i]] >= 2
  {
    assert s == s[..i] + [s[i]] + s[i + 1..j] + [s[j]] + s[j + 1..];
  }

  lemma {:induction false} OccursOnce<T>(s: seq<T>, x: T)
    requires NoDup(s)
    ensures multiset(s)[x] <= 1
  {
    if s != [] {
      assert s == [s[0]] + s[1..];
      OccursOnce(s[1..], x);
      assert x == s[0] ==> x !in s[1..];
    }
  }

  /** Reordering a list keeps its ids distinct. */
  lemma PermutedIds(a: seq<Entry>, b: seq<Entry>)
    requires DistinctIds(a) && multiset(a) == multiset(b)
    ensures DistinctIds(b)
    ensures |a| == |b| && forall e :: e in a <==> e in b
  {
    assert |a| == |multiset(a)| && |b| == |multiset(b)|;
    forall e ensures e in a <==> e in b {
      assert e in a <==> e in multiset(a);
    }
    forall i, j | 0 <= i < j < |b| ensures b[i].id != b[j].id {
      if b[i] == b[j] {
        OccursTwice(b, i, j);
        OccursOnce(a, b[i]);
      }
      assert b[i] in a && b[j] in a;
    }
  }

  lemma IdOf(entries: seq<Entry>, id: nat)
    ensures id in Ids(entries) <==> exists e :: e in entries && e.id == id
  {
    if id in Ids(entries) {
      var i :| 0 <= i < |entries| && Ids(entries)[i] == id;
      assert entries[i] in entries;
    }
    if exists e :: e in entries && e.id == id {
      var e :| e in entries && e.id == id;
      var i :| 0 <= i < |entries| && entries[i] == e;
      assert Ids(entries)[i] == id;
    }
  }

  lemma ClearedIds(entries: seq<Entry>)
    requires DistinctIds(entries)
    ensures DistinctIds(Cleared(entries)) && Ids(Cleared(entries)) == Ids(entries)
    ensures Ascending(entries) ==> Ascending(Cleared(entries))
    ensures forall e | e in Cleared(entries) :: !e.signaled
  {
  }

  /** What a round starts with: the entries not removed, each once, unanswered, shortest first. */
  lemma StartEntries(r: Runner, order: seq<Entry>)
    requires Inv(r) && StartOrder(r, order)
    ensures DistinctIds(order) && Ascending(order)
    ensures forall e | e in order :: !e.signaled
    ensures forall id :: id in Ids(order) <==> id in Ids(r.entries) && id !in r.toRemove
    ensures Inv(Start(r, order))
  {
    var kept := if r.sorted then r.entries else EraseAll(r.entries, r.toRemove);
    EraseAllIds(r.entries, r.toRemove);
    ClearedIds(kept);
    PermutedIds(Cleared(kept), order);
    forall id ensures id in Ids(order) <==> id in Ids(r.entries) && id !in r.toRemove {
      IdOf(order, id);
      IdOf(Cleared(kept), id);
      IdOf(kept, id);
      IdOf(r.entries, id);
    }
    assert forall i | 0 <= i < |order| :: order[i] in order;
  }

  lemma MarkOne(entries: seq<Entry>, k: nat)
    requires k < |entries| && DistinctIds(entries)
    ensures var marked := entries[k := entries[k].(signaled := true)];
            && DistinctIds(marked)
            && (Ascending(entries) ==> Ascending(marked))
            && forall i | 0 <= i < |entries| :: marked[i] ==
                 if entries[i].id == entries[k].id then entries[i].(signaled := true) else entries[i]
  {
    var marked := entries[k := entries[k].(signaled := true)];
    forall i | 0 <= i < |entries|
      ensures marked[i].id == entries[i].id && marked[i].timeout == entries[i].timeout
    {
    }
  }

  /** One entry of the round is marked; when it is the last, signalled entries leave the back of the round. */
  lemma MarkedKeepsInv(r: Runner, k: nat)
    requires Inv(r) && 0 < k <= r.running
    ensures var marked := r.entries[k - 1 := r.entries[k - 1].(signaled := true)];
            && (k < r.running ==> Inv(r.(entries := marked)))
            && Inv(r.(entries := marked, running := Shorten(marked, r.running), wake := true))
  {
    MarkOne(r.entries, k - 1);
  }

  /** The effect of a signal on the entries. */
  ghost predicate Marks(before: seq<Entry>, after: seq<Entry>, n: nat, id: nat)
    requires n <= |before|
  {
    && |after| == |before|
    && forall i | 0 <= i < |after| :: after[i] ==
         if i < n && before[i].id == id then before[i].(signaled := true) else before[i]
  }

  lemma MarkedMarks(r: Runner, id: nat)
    requires Inv(r)
    ensures Marks(r.entries, Signal(r, id).runner.entries, r.running, id)
  {
    var k := FindBack(r.entries, r.running, id);
    if k > 0 {
      MarkOne(r.entries, k - 1);
    }
  }

  /** What a signal changes: the entry of that id, and signalled entries leave the back of the round. */
  lemma SignalChanges(r: Runner, id: nat)
    requires Inv(r)
    ensures Inv(Signal(r, id).runner)
    ensures var q := Signal(r, id).runner;
            && |q.entries| == |r.entries|
            && (forall i | 0 <= i < |q.entries| :: q.entries[i] ==
                  if i < r.running && r.entries[i].id == id then r.entries[i].(signaled := true) else r.entries[i])
            && q.running <= r.running
            && (forall i | q.running <= i < r.running :: q.entries[i].signaled)
    ensures Signal(r, id).term <==> forall i | 0 <= i < r.running :: r.entries[i].id != id
  {
    MarkedMarks(r, id);
    var k := FindBack(r.entries, r.running, id);
    if k > 0 {
      MarkedKeepsInv(r, k);
    }
  }

  // ---- One round: exactly who has been counted ----

  /** A round in progress, with the ids counted since it started, in order. */
  datatype Round = Round(runner: Runner, counted: seq<nat>)

  datatype RoundStep = Answer(id: nat) | StartWaiting | Notified | Expired | Forget(id: nat)

  ghost predicate Enabled(d: Round, step: RoundStep)
    requires Inv(d.runner)
  {
    match step
    // An id is signalled at most once per round, and never after it timed out.
    case Answer(id) => id !in d.counted
    case StartWaiting => d.runner.pc.Outside?
    case Notified => d.runner.pc.Waiting? && d.runner.wake
    case Expired => d.runner.pc == Waiting(true) && !d.runner.wake
    case Forget(_) => true
  }

  ghost function StepEffect(r: Runner, step: RoundStep): Effect
    requires Inv(r)
  {
    match step
    case Answer(id) => Signal(r, id)
    case StartWaiting => Effect(Wait(r), [], false)
    case Notified => Wake(r)
    case Expired => TimeOut(r)
    case Forget(id) => Effect(Remove(r, id), [], false)
  }

  ghost function NextRound(d: Round, step: RoundStep): Round
    requires Inv(d.runner)
  {
    var e := StepEffect(d.runner, step);
    Round(e.runner, d.counted + e.counted)
  }

  /** Entries at or beyond the running size are counted; those below it exactly when signalled. */
  ghost predicate Exact(d: Round) {
    && Inv(d.runner)
    && NoDup(d.counted)
    && Ascending(d.runner.entries)
    && (forall i | d.runner.running <= i < |d.runner.entries| :: d.runner.entries[i].id in d.counted)
    && (forall i | 0 <= i < d.runner.running ::
          d.runner.entries[i].signaled <==> d.runner.entries[i].id in d.counted)
  }

  lemma RoundStarts(r: Runner, order: seq<Entry>)
    requires Inv(r) && StartOrder(r, order)
    ensures Exact(Round(Start(r, order), []))
  {
    StartEntries(r, order);
    assert forall i | 0 <= i < |order| :: order[i] in order;
  }

  lemma {:induction false} UnansweredDistinct(entries: seq<Entry>, n: nat)
    requires n <= |entries| && DistinctIds(entries)
    ensures NoDup(Unanswered(entries, n))
  {
    if n > 0 {
      var rest := Unanswered(entries, n - 1);
      UnansweredDistinct(entries, n - 1);
      assert entries[n - 1].id !in rest;
      assert forall j | 0 <= j < |rest| :: rest[j] in rest;
    }
  }

  lemma AnswerCounts(d: Round, id: nat)
    requires Exact(d) && id !in d.counted
    ensures Exact(NextRound(d, Answer(id)))
  {
    var r, n := d.runner, NextRound(d, Answer(id));
    SignalChanges(r, id);
    assert n.counted == d.counted + [id];
    assert NoDup(n.counted);
    var before, after := r.entries, n.runner.entries;
    forall i | 0 <= i < |before| ensures after[i].id == before[i].id && after[i].timeout == before[i].timeout {
    }
    forall i | n.runner.running <= i < |after| ensures after[i].id in n.counted {
    }
  }

  lemma ExpiryCounts(d: Round)
    requires Exact(d)
    ensures Exact(NextRound(d, Expired))
    ensures forall e | e in d.runner.entries :: e.id in NextRound(d, Expired).counted
  {
    var r, n := d.runner, NextRound(d, Expired);
    var ids := Unanswered(r.entries, r.running);
    UnansweredDistinct(r.entries, r.running);
    forall x | x in ids ensures x !in d.counted {
      var i :| 0 <= i < r.running && r.entries[i].id == x && !r.entries[i].signaled;
    }
    forall i, j | 0 <= i < j < |n.counted| ensures n.counted[i] != n.counted[j] {
      if i < |d.counted| <= j {
        assert n.counted[j] in ids && n.counted[i] in d.counted;
      }
    }
    forall i | 0 <= i < |r.entries| ensures r.entries[i].id in n.counted {
      assert i < r.running && !r.entries[i].signaled ==> r.entries[i].id in ids;
    }
  }

  /**
   * Every step keeps the exact count, and the thread calls the term
   * function only when every timed entry is counted.
   */
  lemma CountsExactly(d: Round, step: RoundStep)
    requires Exact(d) && Enabled(d, step)
    ensures Exact(NextRound(d, step))
    ensures (step.Notified? || step.Expired?) && StepEffect(d.runner, step).term ==>
              forall e | e in d.runner.entries :: e.id in NextRound(d, step).counted
  {
    match step {
      case Answer(id) => AnswerCounts(d, id);
      case Expired => ExpiryCounts(d);
      case _ => assert NextRound(d, step).counted == d.counted;
    }
  }

  ghost function RunRound(d: Round, steps: seq<RoundStep>): (end: Option<Round>)
    requires Exact(d)
    ensures end.Some? ==> Exact(end.value)
    decreases |steps|
  {
    if steps == [] then Some(d)
    else if !Enabled(d, steps[0]) then None
    else
      CountsExactly(d, steps[0]);
      RunRound(NextRound(d, steps[0]), steps[1..])
  }

  /**
   * Over every round: each id is counted at most once, a timer is only ever armed for an unanswered
   * entry of maximal timeout, and once none is left every timed entry has been counted.
   */
  lemma {:induction false} EveryRoundCountsExactly(r: Runner, order: seq<Entry>, steps: seq<RoundStep>)
    requires Inv(r) && StartOrder(r, order)
    ensures Exact(Round(Start(r, order), []))
    ensures var end := RunRound(Round(Start(r, order), []), steps);
            end.Some? ==>
              var q := end.value.runner;
              && NoDup(end.value.counted)
              && (forall e | e in q.entries && e.id !in end.value.counted ::
                    q.running > 0 && e.timeout <= q.entries[q.running - 1].timeout)
              && (q.running > 0 ==> q.entries[q.running - 1].id !in end.value.counted)
              && (q.running == 0 <==> forall e | e in q.entries :: e.id in end.value.counted)
  {
    RoundStarts(r, order);
  }
}
