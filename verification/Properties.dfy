/**
 * Property strings: written by the Go services, and read by them and by the orchestrator.
 *
 * The order of the properties in the string is that in which a table is iterated: any order.
 */
module PropertyStrings {
  import opened Common

  const COMMA: char := ','
  const EQUALS: char := '='

  /** A name and its value. */
  type Property = (string, string)

  // ---- Strings ----

  /** The white space of Unicode. */
  predicate IsSpace(c: char) {
    c in {'\t', '\n', '\U{0B}', '\U{0C}', '\r', ' ', '\U{85}', '\U{A0}', '\U{1680}', '\U{2028}', '\U{2029}', '\U{202F}',
          '\U{205F}', '\U{3000}'}
    || '\U{2000}' <= c <= '\U{200A}'
  }

  function TrimLeft(s: string): (t: string)
    ensures t == "" || !IsSpace(t[0])
    ensures forall c | c in t :: c in s
  {
    if s != "" && IsSpace(s[0]) then TrimLeft(s[1..]) else s
  }

  function TrimRight(s: string): (t: string)
    ensures t <= s
    ensures t == "" || !IsSpace(t[|t| - 1])
  {
    if s != "" && IsSpace(s[|s| - 1]) then TrimRight(s[..|s| - 1]) else s
  }

  function TrimSpace(s: string): (t: string)
    ensures Trimmed(t)
    ensures forall c | c in t :: c in s
  {
    TrimRight(TrimLeft(s))
  }

  predicate Trimmed(s: string) {
    s == "" || (!IsSpace(s[0]) && !IsSpace(s[|s| - 1]))
  }

  lemma TrimTrimmed(s: string)
    requires Trimmed(s)
    ensures TrimSpace(s) == s
  {
  }

  /** The position of the first `c`, or the length when there is none. */
  function Find(s: string, c: char): (k: nat)
    ensures k <= |s| && (k < |s| ==> s[k] == c) && forall i | 0 <= i < k :: s[i] != c
  {
    if s == "" || s[0] == c then 0 else 1 + Find(s[1..], c)
  }

  /** The parts between the separators. */
  function Split(s: string, c: char): (parts: seq<string>)
    ensures parts != [] && forall i | 0 <= i < |parts| :: c !in parts[i] && forall x | x in parts[i] :: x in s
    decreases |s|
  {
    var k := Find(s, c);
    if k == |s| then [s] else [s[..k]] + Split(s[k + 1..], c)
  }

  /** The items with separators between them. */
  function Join(items: seq<string>, c: char): string
    requires items != []
  {
    if |items| == 1 then items[0] else items[0] + [c] + Join(items[1..], c)
  }

  lemma FindFirst(a: string, c: char, more: string)
    requires c !in a
    ensures Find(a + [c] + more, c) == |a|
    ensures (a + [c] + more)[..|a|] == a && (a + [c] + more)[|a| + 1..] == more
  {
    var s := a + [c] + more;
    assert s[|a|] == c;
    assert forall i | 0 <= i < |a| :: s[i] == a[i] && a[i] in a;
  }

  lemma FindNone(a: string, c: char)
    requires c !in a
    ensures Find(a, c) == |a|
  {
    assert forall i | 0 <= i < |a| :: a[i] in a;
  }

  lemma {:induction false} SplitJoined(items: seq<string>, c: char)
    requires items != [] && forall i | 0 <= i < |items| :: c !in items[i]
    ensures Split(Join(items, c), c) == items
  {
    if |items| == 1 {
      FindNone(items[0], c);
    } else {
      FindFirst(items[0], c, Join(items[1..], c));
      SplitJoined(items[1..], c);
      assert items == [items[0]] + items[1..];
    }
  }

  // ---- Writing ----

  function Item(p: Property): string {
    if p.1 != "" then p.0 + [EQUALS] + p.1 else p.0
  }

  /** The first `n` properties; nothing separates a property from an empty beginning. */
  function Format(order: seq<Property>, n: nat): string
    requires n <= |order|
  {
    if n == 0 then ""
    else
      var front := Format(order, n - 1);
      if front != "" then front + [COMMA] + Item(order[n - 1]) else Item(order[n - 1])
  }

  function Items(order: seq<Property>, n: nat): (items: seq<string>)
    requires n <= |order|
    ensures |items| == n && forall i | 0 <= i < n :: items[i] == Item(order[i])
  {
    seq(n, i requires 0 <= i < n => Item(order[i]))
  }

  lemma {:induction false} JoinMore(items: seq<string>, item: string, c: char)
    requires items != []
    ensures Join(items + [item], c) == Join(items, c) + [c] + item
  {
    if |items| == 1 {
      assert (items + [item])[1..] == [item];
    } else {
      assert (items + [item])[1..] == items[1..] + [item];
      JoinMore(items[1..], item, c);
      Associate(items[0] + [c], Join(items[1..], c), [c] + item);
      assert Join(items[1..], c) + [c] + item == Join(items[1..], c) + ([c] + item);
      assert items[0] + [c] + Join(items[1..], c) + [c] + item == items[0] + [c] + Join(items[1..], c) + ([c] + item);
    }
  }

  lemma Associate(a: string, b: string, c: string)
    ensures (a + b) + c == a + (b + c)
  {
  }

  lemma ItemsMore(order: seq<Property>, n: nat)
    requires n < |order|
    ensures Items(order, n + 1) == Items(order, n) + [Item(order[n])]
  {
  }

  lemma {:induction false} FormatJoins(order: seq<Property>, n: nat)
    requires 0 < n <= |order| && order[0] != ("", "")
    ensures Format(order, n) != "" && Format(order, n) == Join(Items(order, n), COMMA)
  {
    if n > 1 {
      FormatJoins(order, n - 1);
      ItemsMore(order, n - 1);
      JoinMore(Items(order, n - 1), Item(order[n - 1]), COMMA);
    }
  }

  // ---- Reading in Go ----

  /** One part: nothing, a property, or an error. */
  datatype Part = Skipped | Parsed(property: Property) | Invalid

  function ParsePart(part: string): Part {
    var parts := Split(TrimSpace(part), EQUALS);
    if |parts| > 2 then Invalid
    else
      var name := TrimSpace(parts[0]);
      if name == "" then (if |parts| == 1 then Skipped else Invalid)
      else Parsed((name, if |parts| == 2 then TrimSpace(parts[1]) else ""))
  }

  function PartsOf(parts: seq<string>): (ps: seq<Part>)
    ensures |ps| == |parts| && forall i | 0 <= i < |ps| :: ps[i] == ParsePart(parts[i])
  {
    seq(|parts|, i requires 0 <= i < |parts| => ParsePart(parts[i]))
  }

  /** The table of the first `n` parts; None for an error. */
  function Combine(ps: seq<Part>, n: nat): Option<map<string, string>>
    requires n <= |ps|
  {
    if n == 0 then Some(map[])
    else
      var front := Combine(ps, n - 1);
      if front.None? then None
      else match ps[n - 1]
        case Skipped => front
        case Parsed(p) => Some(front.value[p.0 := p.1])
        case Invalid => None
  }

  function Parse(s: string): Option<map<string, string>> {
    var ps := PartsOf(Split(s, COMMA));
    Combine(ps, |ps|)
  }

  predicate Plain(s: string) {
    COMMA !in s && EQUALS !in s && Trimmed(s)
  }

  /** What a parsed property is like, and what one must be like to be read back. */
  predicate Clean(p: Property) {
    p.0 != "" && Plain(p.0) && Plain(p.1)
  }

  predicate CleanMap(m: map<string, string>) {
    forall name | name in m :: Clean((name, m[name]))
  }

  lemma ParsedIsClean(part: string)
    requires COMMA !in part && ParsePart(part).Parsed?
    ensures Clean(ParsePart(part).property)
  {
    var parts := Split(TrimSpace(part), EQUALS);
    assert forall i | 0 <= i < |parts| :: EQUALS !in parts[i] && COMMA !in parts[i];
  }

  lemma {:induction false} CombinedIsClean(ps: seq<Part>, n: nat)
    requires n <= |ps| && forall i | 0 <= i < |ps| && ps[i].Parsed? :: Clean(ps[i].property)
    ensures Combine(ps, n).Some? ==> CleanMap(Combine(ps, n).value)
  {
    if n > 0 {
      CombinedIsClean(ps, n - 1);
    }
  }

  lemma ItemIsTrimmed(p: Property)
    requires Clean(p)
    ensures TrimSpace(Item(p)) == Item(p)
  {
    var item := Item(p);
    assert item[0] == p.0[0];
    assert item[|item| - 1] == if p.1 == "" then p.0[|p.0| - 1] else p.1[|p.1| - 1];
    TrimTrimmed(item);
  }

  lemma SplitItem(p: Property)
    requires EQUALS !in p.0 && EQUALS !in p.1
    ensures Split(Item(p), EQUALS) == if p.1 == "" then [p.0] else [p.0, p.1]
  {
    if p.1 == "" {
      FindNone(p.0, EQUALS);
    } else {
      assert Join([p.0, p.1], EQUALS) == Item(p);
      SplitJoined([p.0, p.1], EQUALS);
    }
  }

  lemma SplitProperty(p: Property)
    requires Clean(p)
    ensures ParsePart(Item(p)) == Parsed(p)
  {
    ItemIsTrimmed(p);
    SplitItem(p);
    TrimTrimmed(p.0);
    TrimTrimmed(p.1);
  }

  /** The table that the first `n` properties make. */
  function MapOf(order: seq<Property>, n: nat): map<string, string>
    requires n <= |order|
  {
    if n == 0 then map[] else MapOf(order, n - 1)[order[n - 1].0 := order[n - 1].1]
  }

  lemma {:induction false} CombineParsed(order: seq<Property>, ps: seq<Part>, n: nat)
    requires n <= |order| == |ps| && forall i | 0 <= i < n :: ps[i] == Parsed(order[i])
    ensures Combine(ps, n) == Some(MapOf(order, n))
  {
    if n > 0 {
      CombineParsed(order, ps, n - 1);
    }
  }

  /** The properties of the table, each once. */
  ghost predicate Enumerates(order: seq<Property>, m: map<string, string>) {
    && (forall i, j | 0 <= i < j < |order| :: order[i].0 != order[j].0)
    && (forall i | 0 <= i < |order| :: order[i].0 in m && order[i].1 == m[order[i].0])
    && (forall name | name in m :: exists i :: 0 <= i < |order| && order[i].0 == name)
  }

  lemma {:induction false} MapOfNames(order: seq<Property>, n: nat)
    requires n <= |order| && forall i, j | 0 <= i < j < |order| :: order[i].0 != order[j].0
    ensures forall name :: name in MapOf(order, n) <==> exists i :: 0 <= i < n && order[i].0 == name
    ensures forall i | 0 <= i < n :: MapOf(order, n)[order[i].0] == order[i].1
  {
    if n > 0 {
      MapOfNames(order, n - 1);
      forall name ensures name in MapOf(order, n) <==> exists i :: 0 <= i < n && order[i].0 == name {
        if name in MapOf(order, n - 1) {
          var i :| 0 <= i < n - 1 && order[i].0 == name;
        }
        if name == order[n - 1].0 {
          assert order[n - 1].0 == name;
        }
      }
    }
  }

  lemma MapOfOrder(order: seq<Property>, m: map<string, string>)
    requires Enumerates(order, m)
    ensures MapOf(order, |order|) == m
  {
    MapOfNames(order, |order|);
    var made := MapOf(order, |order|);
    forall name ensures name in made <==> name in m {
    }
    forall name | name in m ensures made[name] == m[name] {
      var i :| 0 <= i < |order| && order[i].0 == name;
    }
  }

  lemma ItemHasNoComma(p: Property)
    ensures COMMA !in Item(p) <==> COMMA !in p.0 && COMMA !in p.1
  {
    var item := Item(p);
    if COMMA in p.0 {
      var i :| 0 <= i < |p.0| && p.0[i] == COMMA;
      assert item[i] == COMMA;
    }
    if COMMA in p.1 {
      var i :| 0 <= i < |p.1| && p.1[i] == COMMA;
      assert item[|p.0| + 1 + i] == COMMA;
    }
  }

  lemma CleanIsRecovered(order: seq<Property>, m: map<string, string>)
    requires Enumerates(order, m) && CleanMap(m)
    ensures Parse(Format(order, |order|)) == Some(m)
  {
    var n := |order|;
    MapOfOrder(order, m);
    if n == 0 {
      EmptyIsParsed();
    } else {
      var items := Items(order, n);
      forall i | 0 <= i < n
        ensures order[i] != ("", "") && COMMA !in items[i] && ParsePart(items[i]) == Parsed(order[i])
      {
        assert Clean((order[i].0, m[order[i].0]));
        ItemHasNoComma(order[i]);
        SplitProperty(order[i]);
      }
      FormatJoins(order, n);
      SplitJoined(items, COMMA);
      CombineParsed(order, PartsOf(items), n);
    }
  }

  lemma EmptyIsParsed()
    ensures Parse("") == Some(map[])
  {
    assert Split("", COMMA) == [""] && Split("", EQUALS) == [""];
    assert ParsePart("") == Skipped;
    assert Combine(PartsOf([""]), 0) == Some(map[]);
  }

  /**
   * Whatever the order of the properties: the Go reader recovers exactly the table that was written if and only if
   * every name is there, and names and values are trimmed and hold neither separator.
   */
  lemma GoRecoversExactlyClean(order: seq<Property>, m: map<string, string>)
    requires Enumerates(order, m)
    ensures Parse(Format(order, |order|)) == Some(m) <==> CleanMap(m)
  {
    if CleanMap(m) {
      CleanIsRecovered(order, m);
    }
    var parts := Split(Format(order, |order|), COMMA);
    forall i | 0 <= i < |parts| && ParsePart(parts[i]).Parsed? ensures Clean(ParsePart(parts[i]).property) {
      ParsedIsClean(parts[i]);
    }
    CombinedIsClean(PartsOf(parts), |parts|);
  }

  // ---- Reading in C++ ----

  function View(one: string): Property {
    var k := Find(one, EQUALS);
    if k < |one| then (one[..k], one[k + 1..]) else (one, "")
  }

  /** The string before the first comma. */
  function FirstOf(s: string): string {
    s[..Find(s, COMMA)]
  }

  /** The string after the first comma. */
  function RestOf(s: string): (rest: string)
    ensures s != "" ==> |rest| < |s|
  {
    var k := Find(s, COMMA);
    if k < |s| then s[k + 1..] else ""
  }

  /** The properties in order; an empty end gives none, and nothing is trimmed. */
  function ParseViews(s: string): seq<Property>
    decreases |s|
  {
    if s == "" then [] else [View(FirstOf(s))] + ParseViews(RestOf(s))
  }

  /** A property that is read back as it is. */
  predicate Readable(p: Property) {
    COMMA !in p.0 && EQUALS !in p.0 && COMMA !in p.1
  }

  lemma ViewOfItem(p: Property)
    requires EQUALS !in p.0
    ensures View(Item(p)) == p
  {
    if p.1 == "" {
      FindNone(p.0, EQUALS);
    } else {
      FindFirst(p.0, EQUALS, p.1);
    }
  }

  lemma ViewsOfOne(s: string)
    requires s != "" && COMMA !in s
    ensures ParseViews(s) == [View(s)]
  {
    FindNone(s, COMMA);
    assert FirstOf(s) == s && RestOf(s) == "";
    assert ParseViews("") == [];
  }

  lemma ViewsOfMore(item: string, more: string)
    requires COMMA !in item
    ensures ParseViews(item + [COMMA] + more) == [View(item)] + ParseViews(more)
  {
    FindFirst(item, COMMA, more);
    assert FirstOf(item + [COMMA] + more) == item && RestOf(item + [COMMA] + more) == more;
  }

  function ViewsOf(items: seq<string>): seq<Property> {
    if items == [] then [] else [View(items[0])] + ViewsOf(items[1..])
  }

  lemma FirstView(items: seq<string>)
    requires |items| > 1 && COMMA !in items[0]
    ensures ParseViews(Join(items, COMMA)) == [View(items[0])] + ParseViews(Join(items[1..], COMMA))
  {
    ViewsOfMore(items[0], Join(items[1..], COMMA));
  }

  lemma OnlyView(items: seq<string>)
    requires |items| == 1 && items[0] != "" && COMMA !in items[0]
    ensures ParseViews(Join(items, COMMA)) == ViewsOf(items)
  {
    ViewsOfOne(items[0]);
    assert items[1..] == [];
  }

  lemma {:induction false} ViewsOfItems(items: seq<string>)
    requires items != [] && items[|items| - 1] != "" && forall i | 0 <= i < |items| :: COMMA !in items[i]
    ensures ParseViews(Join(items, COMMA)) == ViewsOf(items)
  {
    if |items| == 1 {
      OnlyView(items);
    } else {
      FirstView(items);
      ViewsOfItems(items[1..]);
    }
  }

  lemma {:induction false} ViewsAreTheOrder(order: seq<Property>, items: seq<string>)
    requires |items| == |order| && forall i | 0 <= i < |order| :: View(items[i]) == order[i]
    ensures ViewsOf(items) == order
  {
    if order != [] {
      ViewsAreTheOrder(order[1..], items[1..]);
      assert order == [order[0]] + order[1..];
    }
  }

  lemma ViewIsReadable(one: string)
    requires COMMA !in one
    ensures Readable(View(one))
  {
    var k := Find(one, EQUALS);
    assert forall i | 0 <= i < |one| :: one[i] in one;
  }

  ghost predicate AllReadable(ps: seq<Property>) {
    forall i | 0 <= i < |ps| :: Readable(ps[i])
  }

  lemma ReadableMore(p: Property, ps: seq<Property>)
    requires Readable(p) && AllReadable(ps)
    ensures AllReadable([p] + ps)
  {
  }

  lemma {:induction false} ViewsAreReadable(s: string)
    ensures AllReadable(ParseViews(s))
    decreases |s|
  {
    if s != "" {
      ViewIsReadable(FirstOf(s));
      ViewsAreReadable(RestOf(s));
      ReadableMore(View(FirstOf(s)), ParseViews(RestOf(s)));
    }
  }

  /** How many properties the reader can find: one more than there are separators. */
  function Commas(s: string): nat {
    if s == "" then 0 else (if s[0] == COMMA then 1 else 0) + Commas(s[1..])
  }

  lemma {:induction false} CommasAfter(s: string, k: nat)
    requires k < |s| && s[k] == COMMA && forall i | 0 <= i < k :: s[i] != COMMA
    ensures Commas(s) == 1 + Commas(s[k + 1..])
  {
    if k > 0 {
      CommasAfter(s[1..], k - 1);
      assert s[1..][k..] == s[k + 1..];
    }
  }

  lemma EndOfRest(s: string)
    requires COMMA in s && s[|s| - 1] == COMMA
    ensures RestOf(s) == "" || RestOf(s)[|RestOf(s)| - 1] == COMMA
  {
    var k := Find(s, COMMA);
    assert k < |s|;
  }

  lemma {:induction false} ViewsAtMost(s: string)
    ensures |ParseViews(s)| <= Commas(s) + 1
    ensures s != "" && s[|s| - 1] == COMMA ==> |ParseViews(s)| <= Commas(s)
    ensures s == "" ==> ParseViews(s) == []
    decreases |s|
  {
    if s != "" {
      var k := Find(s, COMMA);
      if k < |s| {
        CommasAfter(s, k);
        if s[|s| - 1] == COMMA {
          EndOfRest(s);
        }
        ViewsAtMost(RestOf(s));
      } else {
        assert RestOf(s) == "" && ParseViews("") == [];
      }
    }
  }

  lemma {:induction false} CommasAdd(a: string, b: string)
    ensures Commas(a + b) == Commas(a) + Commas(b)
  {
    if a == "" {
      assert a + b == b;
    } else {
      assert (a + b)[1..] == a[1..] + b;
      CommasAdd(a[1..], b);
    }
  }

  lemma {:induction false} NoCommas(s: string)
    requires COMMA !in s
    ensures Commas(s) == 0
  {
    if s != "" {
      assert s == [s[0]] + s[1..];
      NoCommas(s[1..]);
    }
  }

  lemma FormatMore(order: seq<Property>, n: nat)
    requires n < |order| && COMMA !in Item(order[n])
    ensures Commas(Format(order, n + 1)) == if Format(order, n) == "" then 0 else Commas(Format(order, n)) + 1
  {
    var front, item := Format(order, n), Item(order[n]);
    NoCommas(item);
    if front != "" {
      CommasAdd(front + [COMMA], item);
      CommasAdd(front, [COMMA]);
      assert Commas([COMMA]) == 1;
    }
  }

  /**
   * A string of `n` properties has fewer separators than properties, one
   * fewer still when nothing separates the first.
   */
  lemma {:induction false} FewCommas(order: seq<Property>, n: nat)
    requires 0 < n <= |order| && AllReadable(order)
    ensures Commas(Format(order, n)) < n
    ensures order[0] == ("", "") && Format(order, n) != "" ==> Commas(Format(order, n)) < n - 1
  {
    ItemHasNoComma(order[n - 1]);
    FormatMore(order, n - 1);
    if n > 1 {
      FewCommas(order, n - 1);
    }
  }

  /** Neither end of the order is the property without name and value. */
  predicate EndsShow(order: seq<Property>) {
    order == [] || (order[0] != ("", "") && order[|order| - 1] != ("", ""))
  }

  lemma HiddenEndIsLost(order: seq<Property>)
    requires AllReadable(order) && !EndsShow(order)
    ensures |ParseViews(Format(order, |order|))| < |order|
  {
    var n := |order|;
    var s := Format(order, n);
    FewCommas(order, n);
    ViewsAtMost(s);
    if n > 1 && order[0] != ("", "") {
      FewCommas(order, n - 1);
      ItemHasNoComma(order[n - 1]);
      FormatMore(order, n - 1);
      var front := Format(order, n - 1);
      assert front + [COMMA] + "" == front + [COMMA];
    }
  }

  lemma ShownAreRead(order: seq<Property>)
    requires order != [] && AllReadable(order) && EndsShow(order)
    ensures ParseViews(Format(order, |order|)) == order
  {
    var n := |order|;
    var items := Items(order, n);
    FormatJoins(order, n);
    forall i | 0 <= i < n ensures COMMA !in items[i] && View(items[i]) == order[i] {
      ItemHasNoComma(order[i]);
      ViewOfItem(order[i]);
    }
    ViewsOfItems(items);
    ViewsAreTheOrder(order, items);
  }

  /**
   * For every order of the properties: the C++ reader recovers exactly the properties that were written, in order, if
   * and only if no name holds a separator, no value holds a comma, and neither end has neither name nor value.
   */
  lemma CppRecoversExactly(order: seq<Property>)
    ensures ParseViews(Format(order, |order|)) == order <==> AllReadable(order) && EndsShow(order)
  {
    ViewsAreReadable(Format(order, |order|));
    if AllReadable(order) {
      if !EndsShow(order) {
        HiddenEndIsLost(order);
      } else if order != [] {
        ShownAreRead(order);
      }
    }
  }

  /** A clean table is recovered by both readers, whatever the order in which it is written. */
  lemma BothReadersRecover(order: seq<Property>, m: map<string, string>)
    requires Enumerates(order, m) && CleanMap(m)
    ensures Parse(Format(order, |order|)) == Some(m)
    ensures ParseViews(Format(order, |order|)) == order
  {
    CleanIsRecovered(order, m);
    forall i | 0 <= i < |order| ensures Readable(order[i]) && order[i].0 != "" {
      assert Clean((order[i].0, m[order[i].0]));
    }
    if order != [] {
      ShownAreRead(order);
    }
  }

  // ---- The loops ----

  method FormatProperties(order: seq<Property>) returns (str: string)
    ensures str == Format(order, |order|)
  {
    str := "";
    for i := 0 to |order|
      invariant str == Format(order, i)
    {
      if |str| > 0 {
        str := str + [COMMA];
      }
      str := str + order[i].0;
      AddedItem(str, order[i].0, order[i].1, Format(order, i));
      if order[i].1 != "" {
        str := str + [EQUALS] + order[i].1;
      }
    }
  }

  lemma AddedItem(str: string, name: string, value: string, front: string)
    requires str == (if front == "" then name else front + [COMMA] + name)
    ensures (if value == "" then str else str + [EQUALS] + value) ==
              if front == "" then Item((name, value)) else front + [COMMA] + Item((name, value))
  {
    if front == "" {
      assert "" + name == name;
    } else if value != "" {
      assert front + [COMMA] + name + [EQUALS] + value == front + [COMMA] + (name + [EQUALS] + value);
    }
  }

  method ParseProperties(str: string) returns (result: Option<map<string, string>>)
    ensures result == Parse(str)
  {
    var properties := Split(str, COMMA);
    result := ParseAll(properties);
  }

  method ParseAll(properties: seq<string>) returns (result: Option<map<string, string>>)
    ensures result == Combine(PartsOf(properties), |properties|)
  {
    var found: map<string, string> := map[];
    ghost var ps := PartsOf(properties);
    for i := 0 to |properties|
      invariant Combine(ps, i) == Some(found)
    {
      var part := ParseProperty(properties[i]);
      assert part == ps[i];
      if part.Invalid? {
        FailedPart(ps, i, |ps|);
        return None;
      }
      if part.Parsed? {
        found := found[part.property.0 := part.property.1];
      }
    }
    result := Some(found);
  }

  method ParseProperty(property: string) returns (part: Part)
    ensures part == ParsePart(property)
  {
    var parts := Split(TrimSpace(property), EQUALS);
    if |parts| > 2 {
      return Invalid;
    }
    var name := TrimSpace(parts[0]);
    if |name| == 0 {
      return if |parts| == 1 then Skipped else Invalid;
    }
    if |parts| == 2 {
      var value := TrimSpace(parts[1]);
      part := Parsed((name, value));
    } else {
      part := Parsed((name, ""));
    }
  }

  lemma {:induction false} FailedPart(ps: seq<Part>, k: nat, n: nat)
    requires k < n <= |ps| && ps[k].Invalid?
    ensures Combine(ps, n).None?
  {
    if n > k + 1 {
      FailedPart(ps, k, n - 1);
    }
  }

  method ParsePropertyViews(str: string) returns (result: seq<Property>)
    ensures result == ParseViews(str)
  {
    result := [];
    var input := str;
    while input != ""
      invariant ParseViews(str) == result + ParseViews(input)
      decreases |input|
    {
      var view, rest := NextView(input);
      ReadOnView(result, view, ParseViews(rest));
      result := result + [view];
      input := rest;
    }
    assert result + [] == result;
  }

  /** One turn of the loop: the first property, and what is left of the string. */
  method NextView(input: string) returns (view: Property, rest: string)
    requires input != ""
    ensures view == View(FirstOf(input)) && rest == RestOf(input)
  {
    var propIndex := Find(input, COMMA);
    var oneProp := input[..propIndex];
    rest := if propIndex < |input| then input[propIndex + 1..] else "";
    var valIndex := Find(oneProp, EQUALS);
    view := if valIndex < |oneProp| then (oneProp[..valIndex], oneProp[valIndex + 1..]) else (oneProp, "");
  }

  lemma ReadOnView(done: seq<Property>, p: Property, rest: seq<Property>)
    ensures done + ([p] + rest) == (done + [p]) + rest
  {
  }
}
