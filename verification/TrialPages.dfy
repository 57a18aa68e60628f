/**
 * What a page of trials is, whatever the backend: trials are numbered by creation, and a page holds the first ones
 * from a position on that are still there and pass the filter.
 */
module TrialPages {
  import opened Common

  /** No ids select every id; a property is selected by name and value. */
  datatype Filter = Filter(ids: set<string>, properties: map<string, string>) {
    predicate SelectsID(id: string) {
      ids == {} || id in ids
    }

    predicate SelectsProperties(props: map<string, string>) {
      forall key | key in properties :: key in props && props[key] == properties[key]
    }
  }

  /** A trial by its creation position; `live` is false once it has been deleted. */
  datatype Entry = Entry(id: string, live: bool, properties: map<string, string>)

  predicate Matches(e: Entry, f: Filter) {
    e.live && f.SelectsID(e.id) && f.SelectsProperties(e.properties)
  }

  /** A trial matches when it is still there and has one of the ids, if any are given, and all the properties. */
  lemma MatchesMean(e: Entry, f: Filter)
    ensures Matches(e, f) <==>
            e.live && (f.ids == {} || e.id in f.ids) && f.properties.Items <= e.properties.Items
  {
    forall key | key in f.properties
      ensures (key, f.properties[key]) in e.properties.Items <==>
                key in e.properties && e.properties[key] == f.properties[key]
    {
    }
  }

  /** The positions from `from` on that match, in order. */
  function MatchesFrom(es: seq<Entry>, f: Filter, from: nat): seq<nat>
    decreases |es| - from
  {
    if from >= |es| then []
    else if Matches(es[from], f) then [from] + MatchesFrom(es, f, from + 1)
    else MatchesFrom(es, f, from + 1)
  }

  function Start(from: int): nat {
    if from < 0 then 0 else from
  }

  /** At most `count` positions, or all of them when it is not positive. */
  function Page(es: seq<Entry>, f: Filter, from: int, count: int): seq<nat> {
    var ms := MatchesFrom(es, f, Start(from));
    if 0 < count < |ms| then ms[..count] else ms
  }

  /** The positions of the matches are exactly those, each once and in order. */
  lemma {:induction false} MatchesAreExact(es: seq<Entry>, f: Filter, from: nat)
    ensures var ms := MatchesFrom(es, f, from);
            && (forall p: nat :: p in ms <==> from <= p < |es| && Matches(es[p], f))
            && (forall i, j | 0 <= i < j < |ms| :: ms[i] < ms[j])
    decreases |es| - from
  {
    if from < |es| {
      MatchesAreExact(es, f, from + 1);
      var rest := MatchesFrom(es, f, from + 1);
      assert forall i | 0 <= i < |rest| :: rest[i] in rest;
    }
  }

  /** Positions without a match may be skipped. */
  lemma {:induction false} SkipUnmatched(es: seq<Entry>, f: Filter, from: nat, to: nat)
    requires from <= to <= |es| && forall p | from <= p < to :: !Matches(es[p], f)
    ensures MatchesFrom(es, f, from) == MatchesFrom(es, f, to)
    decreases |es| - from
  {
    if from < to {
      SkipUnmatched(es, f, from + 1, to);
    }
  }

  /** Trials with different ids: an id filter cannot match more of them than it has ids. */
  lemma MatchesAtMost(es: seq<Entry>, f: Filter, from: nat)
    requires forall p, q | 0 <= p < q < |es| && es[p].live && es[q].live :: es[p].id != es[q].id
    ensures from <= |es| ==> |MatchesFrom(es, f, from)| <= |es| - from
    ensures from > |es| ==> MatchesFrom(es, f, from) == []
    ensures f.ids != {} ==> |MatchesFrom(es, f, from)| <= |f.ids|
  {
    AtMostLength(es, f, from);
    if f.ids != {} {
      var matched := MatchedIDs(es, f, from);
      Included(matched, f.ids);
    }
  }

  lemma {:induction false} AtMostLength(es: seq<Entry>, f: Filter, from: nat)
    ensures |MatchesFrom(es, f, from)| <= if from <= |es| then |es| - from else 0
    decreases |es| - from
  {
    if from < |es| {
      AtMostLength(es, f, from + 1);
    }
  }

  lemma Included(a: set<string>, b: set<string>)
    requires a <= b
    ensures |a| <= |b|
  {
    assert b == a + (b - a);
  }

  lemma {:induction false} MatchedIDs(es: seq<Entry>, f: Filter, from: nat) returns (ids: set<string>)
    requires forall p, q | 0 <= p < q < |es| && es[p].live && es[q].live :: es[p].id != es[q].id
    requires f.ids != {}
    ensures ids <= f.ids && |ids| == |MatchesFrom(es, f, from)|
    ensures forall id | id in ids :: exists p :: from <= p < |es| && es[p].live && es[p].id == id
    decreases |es| - from
  {
    if from >= |es| {
      ids := {};
    } else {
      var rest := MatchedIDs(es, f, from + 1);
      ids := if Matches(es[from], f) then rest + {es[from].id} else rest;
    }
  }

  // ---- Scanning for a page ----

  /** The matches before position `at` are on the page. */
  ghost predicate Scanned(es: seq<Entry>, f: Filter, from: nat, at: nat, page: seq<nat>) {
    MatchesFrom(es, f, from) == page + MatchesFrom(es, f, at)
  }

  lemma ScanOne(es: seq<Entry>, f: Filter, from: nat, at: nat, page: seq<nat>)
    requires Scanned(es, f, from, at, page) && at < |es|
    ensures Scanned(es, f, from, at + 1, if Matches(es[at], f) then page + [at] else page)
  {
    var rest := MatchesFrom(es, f, at + 1);
    assert page + ([at] + rest) == (page + [at]) + rest;
  }

  /** A scan may stop at the end of the trials, or when the page is full. */
  lemma ScanEnds(es: seq<Entry>, f: Filter, from: int, at: nat, page: seq<nat>, count: int)
    requires Scanned(es, f, Start(from), at, page) && (count > 0 ==> |page| <= count)
    requires at >= |es| || (count > 0 && |page| == count) || |page| >= |MatchesFrom(es, f, Start(from))|
    ensures page == Page(es, f, from, count)
  {
    var all := MatchesFrom(es, f, Start(from));
    assert all[..|page|] == page;
    if at >= |es| {
      assert all == page;
    }
  }

  // ---- Following pages ----

  /** What a page answers: its positions, and where to ask for the next one. */
  datatype Answer = Answer(page: seq<nat>, next: nat)

  /** A page with something on it is followed from a position that neither repeats nor skips a match. */
  ghost predicate AnswerFits(a: Answer, es: seq<Entry>, f: Filter, from: int, count: int) {
    && a.page == Page(es, f, from, count)
    && (a.page != [] ==>
          && a.page[|a.page| - 1] < a.next <= |es|
          && forall p | a.page[|a.page| - 1] < p < a.next :: !Matches(es[p], f))
  }

  /** Page after page until the first empty one. */
  ghost function Chain(ask: int -> Answer, es: seq<Entry>, f: Filter, from: int, count: int): seq<nat>
    requires forall i: int :: AnswerFits(ask(i), es, f, i, count)
    decreases if |es| > Start(from) then |es| - Start(from) else 0
  {
    var a := ask(from);
    assert AnswerFits(a, es, f, from, count);
    if a.page == [] then []
    else
      NextIsLater(a, es, f, from, count);
      a.page + Chain(ask, es, f, a.next, count)
  }

  lemma NextIsLater(a: Answer, es: seq<Entry>, f: Filter, from: int, count: int)
    requires AnswerFits(a, es, f, from, count) && a.page != []
    ensures Start(from) < |es| && Start(from) < a.next
  {
    MatchesAreExact(es, f, Start(from));
    var ms := MatchesFrom(es, f, Start(from));
    assert a.page[|a.page| - 1] in ms;
  }

  /** Whatever the page size, the chain of pages is the list of all matches: each once, in creation order. */
  lemma {:induction false} ChainIsComplete(ask: int -> Answer, es: seq<Entry>, f: Filter, from: int, count: int)
    requires forall i: int :: AnswerFits(ask(i), es, f, i, count)
    ensures Chain(ask, es, f, from, count) == MatchesFrom(es, f, Start(from))
    decreases if |es| > Start(from) then |es| - Start(from) else 0
  {
    var a := ask(from);
    assert AnswerFits(a, es, f, from, count);
    if a.page != [] {
      NextIsLater(a, es, f, from, count);
      ChainIsComplete(ask, es, f, a.next, count);
      RestOfMatches(a, es, f, from, count);
    } else {
      assert MatchesFrom(es, f, Start(from)) == [];
    }
  }

  lemma RestOfMatches(a: Answer, es: seq<Entry>, f: Filter, from: int, count: int)
    requires AnswerFits(a, es, f, from, count) && a.page != []
    ensures MatchesFrom(es, f, Start(from)) == a.page + MatchesFrom(es, f, a.next)
  {
    var ms, k := MatchesFrom(es, f, Start(from)), |a.page|;
    SplitMatches(es, f, Start(from), k);
    assert a.page == ms[..k];
    SkipUnmatched(es, f, ms[k - 1] + 1, a.next);
  }

  /** The matches after the first `k` are those after the `k`-th. */
  lemma {:induction false} SplitMatches(es: seq<Entry>, f: Filter, from: nat, k: nat)
    requires 0 < k <= |MatchesFrom(es, f, from)|
    ensures var ms := MatchesFrom(es, f, from); ms == ms[..k] + MatchesFrom(es, f, ms[k - 1] + 1)
    decreases |es| - from
  {
    var ms, rest := MatchesFrom(es, f, from), MatchesFrom(es, f, from + 1);
    if !Matches(es[from], f) {
      assert ms == rest;
      SplitMatches(es, f, from + 1, k);
    } else if k == 1 {
      assert ms == [from] + rest;
      assert ms[..1] == [from];
    } else {
      assert ms == [from] + rest;
      SplitMatches(es, f, from + 1, k - 1);
      SplitMore(from, rest, MatchesFrom(es, f, rest[k - 2] + 1), k);
    }
  }

  lemma SplitMore(x: nat, rest: seq<nat>, tail: seq<nat>, k: nat)
    requires 1 < k <= |rest| + 1 && rest == rest[..k - 1] + tail
    ensures [x] + rest == ([x] + rest)[..k] + tail && ([x] + rest)[k - 1] == rest[k - 2]
  {
    assert ([x] + rest)[..k] == [x] + rest[..k - 1];
  }
}
