/**
 * The timeout runner and the action signal as the objects the trial owns.
 *
 * The two callbacks of the runner are returned by its methods: `counted` lists the ids counted, in order,
 * and `term` tells that the term function was called.
 */
module TimeoutRunnerObject {
  import opened TimeoutRunning

  /** A condition with a flag: signals that come before the waiter has returned are merged. */
  class SimpleSignal {
    var signalled: bool

    constructor ()
      ensures !signalled
    {
      signalled := false;
    }

    method Signal()
      modifies this
      ensures signalled
    {
      if !signalled {
        signalled := true;
      }
    }

    /** The wait returns. */
    method Wait()
      requires signalled
      modifies this
      ensures !signalled
    {
      signalled := false;
    }
  }

  lemma InsertAscending(s: seq<Entry>, k: nat, e: Entry)
    requires k <= |s| && Ascending(s)
    requires forall j | k <= j < |s| :: s[j].timeout > e.timeout
    requires k > 0 ==> s[k - 1].timeout <= e.timeout
    ensures Ascending(s[..k] + [e] + s[k..])
  {
    var t := s[..k] + [e] + s[k..];
    forall i | 0 <= i < |t| ensures t[i] == if i < k then s[i] else if i == k then e else s[i - 1] {
    }
  }

  lemma InsertCounts<T>(s: seq<T>, k: nat, x: T)
    requires k <= |s|
    ensures multiset(s[..k] + [x] + s[k..]) == multiset(s) + multiset{x}
  {
    assert s == s[..k] + s[k..];
  }

  method Insert(s: seq<Entry>, e: Entry) returns (t: seq<Entry>)
    requires Ascending(s)
    ensures Ascending(t) && multiset(t) == multiset(s) + multiset{e}
  {
    var k := |s|;
    while k > 0 && s[k - 1].timeout > e.timeout
      invariant 0 <= k <= |s|
      invariant forall j | k <= j < |s| :: s[j].timeout > e.timeout
    {
      k := k - 1;
    }
    InsertAscending(s, k, e);
    InsertCounts(s, k, e);
    t := s[..k] + [e] + s[k..];
  }

  /** A sort of the entries by timeout. */
  method SortEntries(entries: seq<Entry>) returns (s: seq<Entry>)
    ensures Ascending(s) && multiset(s) == multiset(entries)
  {
    s := [];
    for i := 0 to |entries|
      invariant Ascending(s) && multiset(s) == multiset(entries[..i])
    {
      assert entries[..i + 1] == entries[..i] + [entries[i]];
      s := Insert(s, entries[i]);
    }
    assert entries[..|entries|] == entries;
  }

  lemma {:induction false} EraseFirstAt(entries: seq<Entry>, id: nat, i: nat)
    requires i <= |entries| && forall k | 0 <= k < i :: entries[k].id != id
    ensures EraseFirst(entries, id) ==
      if i < |entries| && entries[i].id == id then entries[..i] + entries[i + 1..]
      else entries[..i] + EraseFirst(entries[i..], id)
  {
    if i == 0 {
      assert entries[0..] == entries;
      if entries != [] {
        assert entries[1..] == [] + entries[1..];
      }
    } else {
      var rest := entries[1..];
      EraseFirstAt(rest, id, i - 1);
      assert [entries[0]] + rest[..i - 1] == entries[..i];
      assert rest[i - 1..] == entries[i..];
      if i < |entries| {
        assert rest[i..] == entries[i + 1..];
      }
    }
  }

  lemma ClearedInsert(p: seq<Entry>, x: Entry, q: seq<Entry>)
    ensures multiset(Cleared(p + [x] + q)) == multiset(Cleared(p + q)) + multiset{x.(signaled := false)}
  {
    assert Cleared(p + [x] + q) == Cleared(p) + [x.(signaled := false)] + Cleared(q);
    assert Cleared(p + q) == Cleared(p) + Cleared(q);
  }

  /** Clearing the flags of two permutations of a list gives two permutations of a list. */
  lemma {:induction false} ClearedPermutes(a: seq<Entry>, b: seq<Entry>)
    requires multiset(a) == multiset(b)
    ensures multiset(Cleared(a)) == multiset(Cleared(b))
    decreases |a|
  {
    if a == [] {
      assert |b| == |multiset(b)| == 0;
    } else {
      var x := a[0];
      assert x in multiset(b);
      var k :| 0 <= k < |b| && b[k] == x;
      var rest := b[..k] + b[k + 1..];
      assert a == [] + [x] + a[1..] && b == b[..k] + [x] + b[k + 1..];
      Unwrap(a[1..], rest, x, a, b, k);
      ClearedPermutes(a[1..], rest);
      ClearedInsert([], x, a[1..]);
      ClearedInsert(b[..k], x, b[k + 1..]);
      assert [] + a[1..] == a[1..];
    }
  }

  lemma Unwrap(restA: seq<Entry>, restB: seq<Entry>, x: Entry, a: seq<Entry>, b: seq<Entry>, k: nat)
    requires k < |b| && a == [x] + restA && restB == b[..k] + b[k + 1..] && b[k] == x
    requires multiset(a) == multiset(b)
    ensures multiset(restA) == multiset(restB)
  {
    assert b == b[..k] + [x] + b[k + 1..];
    assert multiset(restA) == multiset(a) - multiset{x};
    assert multiset(restB) == multiset(b) - multiset{x};
  }

  class TimeoutRunner {
    var timeouts: seq<Entry>
    var timeoutsToRemove: seq<nat>
    var isSorted: bool
    var runningSize: nat
    var condSig: bool
    ghost var pc: Pc  // where the runner's thread is

    ghost function View(): Runner
      reads this
    {
      Runner(timeouts, timeoutsToRemove, isSorted, runningSize, condSig, pc)
    }

    constructor ()
      ensures View() == NewRunner()
    {
      timeouts, timeoutsToRemove, isSorted, runningSize, condSig := [], [], false, 0, false;
      pc := Outside;
    }

    method Add(timeout: nat, id: nat)
      modifies this
      ensures View() == TimeoutRunning.Add(old(View()), timeout, id)
    {
      timeouts := timeouts + [Entry(timeout, id, false)];
      isSorted := false;
    }

    method Remove(id: nat)
      modifies this
      ensures View() == TimeoutRunning.Remove(old(View()), id)
    {
      timeoutsToRemove := timeoutsToRemove + [id];
      isSorted := false;
    }

    method EraseId(id: nat)
      modifies this`timeouts
      ensures timeouts == EraseFirst(old(timeouts), id)
    {
      var i := 0;
      while i < |timeouts|
        invariant 0 <= i <= |timeouts|
        invariant timeouts == old(timeouts)
        invariant forall k | 0 <= k < i :: timeouts[k].id != id
      {
        if timeouts[i].id == id {
          EraseFirstAt(timeouts, id, i);
          timeouts := timeouts[..i] + timeouts[i + 1..];
          return;
        }
        i := i + 1;
      }
      EraseFirstAt(timeouts, id, i);
      assert timeouts[..i] == timeouts;
    }

    /** A new round.  `order` is the order that the sort gives; it may be any that `StartOrder` allows. */
    method Start() returns (ghost order: seq<Entry>)
      modifies this
      ensures StartOrder(old(View()), order)
      ensures View() == TimeoutRunning.Start(old(View()), order)
    {
      if !isSorted {
        var i := 0;
        while i < |timeoutsToRemove|
          invariant 0 <= i <= |timeoutsToRemove|
          invariant timeoutsToRemove == old(timeoutsToRemove)
          invariant EraseAll(timeouts, timeoutsToRemove[i..]) == EraseAll(old(timeouts), timeoutsToRemove)
          invariant !isSorted && pc == old(pc)
        {
          EraseId(timeoutsToRemove[i]);
          i := i + 1;
        }
        timeoutsToRemove := [];
        timeouts := SortEntries(timeouts);
        isSorted := true;
      }
      ghost var before := timeouts;
      var k := 0;
      while k < |timeouts|
        invariant 0 <= k <= |timeouts| == |before|
        invariant forall j | 0 <= j < k :: timeouts[j] == before[j].(signaled := false)
        invariant forall j | k <= j < |before| :: timeouts[j] == before[j]
        invariant isSorted && pc == old(pc) && timeoutsToRemove == (if old(isSorted) then old(timeoutsToRemove) else [])
      {
        timeouts := timeouts[k := timeouts[k].(signaled := false)];
        k := k + 1;
      }
      assert timeouts == Cleared(before);
      if !old(isSorted) {
        ClearedPermutes(before, EraseAll(old(timeouts), old(timeoutsToRemove)));
      }
      runningSize := |timeouts|;
      condSig := true;
      order := timeouts;
    }

    /** Signalled entries leave the back of the round. */
    method DropSignaled()
      requires runningSize <= |timeouts|
      modifies this`runningSize
      ensures runningSize == Shorten(timeouts, old(runningSize))
    {
      while runningSize > 0 && timeouts[runningSize - 1].signaled
        invariant runningSize <= |timeouts|
        invariant Shorten(timeouts, runningSize) == Shorten(timeouts, old(runningSize))
      {
        runningSize := runningSize - 1;
      }
    }

    /** The position after the entry of the given id, looked for from the back of the round; 0 without one. */
    method FindId(id: nat) returns (idSize: nat)
      requires runningSize <= |timeouts|
      ensures idSize == FindBack(timeouts, runningSize, id)
    {
      idSize := runningSize;
      while idSize > 0 && timeouts[idSize - 1].id != id
        invariant 0 <= idSize <= runningSize
        invariant FindBack(timeouts, runningSize, id) == FindBack(timeouts, idSize, id)
      {
        idSize := idSize - 1;
      }
    }

    method Signal(id: nat) returns (counted: seq<nat>, term: bool)
      requires runningSize <= |timeouts|
      modifies this
      ensures Effect(View(), counted, term) == TimeoutRunning.Signal(old(View()), id)
    {
      counted, term := [id], false;
      var idSize := FindId(id);
      if idSize == 0 {
        term := true;
        return;
      }
      timeouts := timeouts[idSize - 1 := timeouts[idSize - 1].(signaled := true)];
      if idSize == runningSize {
        DropSignaled();
        condSig := true;
      }
    }

    /** The thread takes the lock and starts to wait; it arms its timer when an entry remains. */
    method StartWaiting() returns (timed: bool)
      modifies this
      ensures View() == TimeoutRunning.Wait(old(View())) && pc == Waiting(timed)
    {
      timed := runningSize > 0;
      pc := Waiting(timed);
    }

    method DoNext(signaled: bool) returns (counted: seq<nat>, term: bool)
      requires runningSize <= |timeouts|
      modifies this`runningSize
      ensures runningSize == if signaled then old(runningSize) else 0
      ensures counted == if signaled then [] else Unanswered(timeouts, old(runningSize))
      ensures term == (runningSize == 0)
    {
      counted := [];
      if !signaled {
        CountedNone(timeouts, runningSize);
        while runningSize > 0
          invariant runningSize <= |timeouts|
          invariant CountedSoFar(timeouts, old(runningSize), runningSize, counted)
        {
          CountedOne(timeouts, old(runningSize), runningSize, counted);
          if !timeouts[runningSize - 1].signaled {
            counted := counted + [timeouts[runningSize - 1].id];
          }
          runningSize := runningSize - 1;
        }
        CountedAll(timeouts, old(runningSize), counted);
      }
      term := runningSize == 0;
    }

    /** The wait is over: the thread was notified, or (`signaled` being false) its timer ran out. */
    method EndWaiting(signaled: bool) returns (counted: seq<nat>, term: bool)
      requires runningSize <= |timeouts|
      modifies this
      ensures Effect(View(), counted, term) ==
        if signaled then TimeoutRunning.Wake(old(View())) else TimeoutRunning.TimeOut(old(View()))
    {
      counted, term := DoNext(signaled);
      condSig := false;
      pc := Outside;
    }
  }

  /** The ids counted when a timeout has gone from position `from` down to `n`. */
  ghost predicate CountedSoFar(entries: seq<Entry>, from: nat, n: nat, counted: seq<nat>) {
    n <= from <= |entries| && Unanswered(entries, from) == counted + Unanswered(entries, n)
  }

  lemma CountedNone(entries: seq<Entry>, from: nat)
    requires from <= |entries|
    ensures CountedSoFar(entries, from, from, [])
  {
  }

  lemma CountedOne(entries: seq<Entry>, from: nat, n: nat, counted: seq<nat>)
    requires n > 0 && CountedSoFar(entries, from, n, counted)
    ensures CountedSoFar(entries, from, n - 1,
                         if entries[n - 1].signaled then counted else counted + [entries[n - 1].id])
  {
    var x, rest := entries[n - 1].id, Unanswered(entries, n - 1);
    assert counted + ([x] + rest) == (counted + [x]) + rest;
  }

  lemma CountedAll(entries: seq<Entry>, from: nat, counted: seq<nat>)
    requires CountedSoFar(entries, from, 0, counted)
    ensures counted == Unanswered(entries, from)
  {
    assert counted + [] == counted;
  }
}
