/**
 * What both readers make of any property string: the string is a list of parts with commas between them, and what a
 * part comes to depends on where its first equals sign is.
 */
module PropertyParts {
  import opened Common
  import opened PropertyStrings

  // ---- White space ----

  predicate AllSpace(s: string) {
    forall i | 0 <= i < |s| :: IsSpace(s[i])
  }

  lemma {:induction false} LeftSpace(s: string) returns (k: nat)
    ensures k <= |s| && TrimLeft(s) == s[k..] && AllSpace(s[..k])
  {
    if s != "" && IsSpace(s[0]) {
      var rest := s[1..];
      var j := LeftSpace(rest);
      k := j + 1;
      assert rest[j..] == s[k..] && s[..k] == [s[0]] + rest[..j];
    } else {
      k := 0;
    }
  }

  lemma {:induction false} RightSpace(s: string) returns (k: nat)
    ensures k <= |s| && TrimRight(s) == s[..k] && AllSpace(s[k..])
  {
    if s != "" && IsSpace(s[|s| - 1]) {
      var rest := s[..|s| - 1];
      k := RightSpace(rest);
      assert rest[..k] == s[..k] && s[k..] == rest[k..] + [s[|s| - 1]];
    } else {
      k := |s|;
    }
  }

  lemma {:induction false} TrimLeftOf(l: string, s: string)
    requires AllSpace(l) && (s == "" || !IsSpace(s[0]))
    ensures TrimLeft(l + s) == s
  {
    if l == "" {
      assert l + s == s;
    } else {
      assert (l + s)[0] == l[0] && (l + s)[1..] == l[1..] + s;
      TrimLeftOf(l[1..], s);
    }
  }

  lemma {:induction false} TrimRightOf(s: string, r: string)
    requires AllSpace(r) && (s == "" || !IsSpace(s[|s| - 1]))
    ensures TrimRight(s + r) == s
  {
    if r == "" {
      assert s + r == s;
    } else {
      var n := |r| - 1;
      assert (s + r)[|s + r| - 1] == r[n] && (s + r)[..|s + r| - 1] == s + r[..n];
      TrimRightOf(s, r[..n]);
    }
  }

  /** What is left is the part between the white space at both ends, and there is only one such part. */
  lemma TrimmedPart(l: string, t: string, r: string)
    requires AllSpace(l) && AllSpace(r) && t != "" && Trimmed(t)
    ensures TrimSpace(l + t + r) == t
  {
    assert l + t + r == l + (t + r);
    TrimLeftOf(l, t + r);
    TrimRightOf(t, r);
  }

  lemma TrimSpaceIs(s: string) returns (l: string, r: string)
    ensures s == l + TrimSpace(s) + r && AllSpace(l) && AllSpace(r)
    ensures TrimSpace(s) == "" <==> AllSpace(s)
  {
    var k := LeftSpace(s);
    var m := RightSpace(TrimLeft(s));
    l, r := s[..k], TrimLeft(s)[m..];
    assert l + TrimSpace(s) + r == l + (TrimSpace(s) + r);
    if TrimSpace(s) != "" {
      assert s[|l|] == TrimSpace(s)[0];
    }
  }

  lemma AllSpaceTrims(s: string)
    requires AllSpace(s)
    ensures TrimSpace(s) == "" && TrimSpace(TrimLeft(s)) == "" && TrimSpace(TrimRight(s)) == ""
  {
    var l, r := TrimSpaceIs(s);
    var k := LeftSpace(s);
    var m := RightSpace(s);
    assert AllSpace(s[k..]) && AllSpace(s[..m]);
    var a, b := TrimSpaceIs(TrimLeft(s));
    var c, d := TrimSpaceIs(TrimRight(s));
  }

  lemma TrimmedTwice(s: string)
    ensures TrimSpace(TrimLeft(s)) == TrimSpace(s) && TrimSpace(TrimRight(s)) == TrimSpace(s)
  {
    var l, r := TrimSpaceIs(s);
    var t := TrimSpace(s);
    if t == "" {
      AllSpaceTrims(s);
    } else {
      MiddleTwice(l, t, r);
    }
  }

  lemma MiddleTwice(l: string, t: string, r: string)
    requires AllSpace(l) && AllSpace(r) && t != "" && Trimmed(t)
    ensures TrimSpace(TrimLeft(l + t + r)) == t && TrimSpace(TrimRight(l + t + r)) == t
  {
    LeftOfMiddle(l, t, r);
    RightOfMiddle(l, t, r);
    NothingLeft(t, r);
    NothingRight(l, t);
  }

  lemma NothingLeft(t: string, r: string)
    requires AllSpace(r) && t != "" && Trimmed(t)
    ensures TrimSpace(t + r) == t
  {
    TrimmedPart("", t, r);
    assert "" + t + r == t + r;
  }

  lemma NothingRight(l: string, t: string)
    requires AllSpace(l) && t != "" && Trimmed(t)
    ensures TrimSpace(l + t) == t
  {
    TrimmedPart(l, t, "");
    assert l + t + "" == l + t;
  }

  lemma LeftOfMiddle(l: string, t: string, r: string)
    requires AllSpace(l) && t != "" && Trimmed(t)
    ensures TrimLeft(l + t + r) == t + r
  {
    assert l + t + r == l + (t + r);
    TrimLeftOf(l, t + r);
  }

  lemma RightOfMiddle(l: string, t: string, r: string)
    requires AllSpace(r) && t != "" && Trimmed(t)
    ensures TrimRight(l + t + r) == l + t
  {
    TrimRightOf(l + t, r);
  }

  // ---- One part, in Go ----

  /** The name is before the first equals sign, or all of the part. */
  function NamePart(part: string): string {
    TrimSpace(part[..Find(part, EQUALS)])
  }

  function ValuePart(part: string): string {
    var k := Find(part, EQUALS);
    if k < |part| then TrimSpace(part[k + 1..]) else ""
  }

  /** There is an equals sign, and either nothing but white space before it or another one after it. */
  predicate Malformed(part: string) {
    exists k :: && 0 <= k < |part| && part[k] == EQUALS && EQUALS !in part[..k]
                && (AllSpace(part[..k]) || EQUALS in part[k + 1..])
  }

  lemma EqualsInside(x: string, y: string)
    requires (x == "" || !IsSpace(x[0])) && (y == "" || !IsSpace(y[|y| - 1]))
    ensures Trimmed(x + [EQUALS] + y)
  {
    var t := x + [EQUALS] + y;
    assert !IsSpace(EQUALS);
    assert t[0] == if x == "" then EQUALS else x[0];
    assert t[|t| - 1] == if y == "" then EQUALS else y[|y| - 1];
  }

  lemma InTheMiddle(l: string, x: string, y: string, r: string)
    ensures (l + x) + [EQUALS] + (y + r) == l + (x + [EQUALS] + y) + r
  {
  }

  lemma TrimmedAround(a: string, l: string, x: string, b: string, y: string, r: string)
    requires a == l + x && b == y + r && AllSpace(l) && AllSpace(r)
    requires (x == "" || !IsSpace(x[0])) && (y == "" || !IsSpace(y[|y| - 1]))
    ensures TrimSpace(a + [EQUALS] + b) == x + [EQUALS] + y
  {
    EqualsInside(x, y);
    InTheMiddle(l, x, y, r);
    TrimmedPart(l, x + [EQUALS] + y, r);
  }

  lemma SpaceAroundEquals(a: string, b: string)
    ensures TrimSpace(a + [EQUALS] + b) == TrimLeft(a) + [EQUALS] + TrimRight(b)
  {
    var k := LeftSpace(a);
    var m := RightSpace(b);
    TrimmedAround(a, a[..k], TrimLeft(a), b, TrimRight(b), b[m..]);
  }

  lemma EqualsStays(b: string)
    ensures EQUALS in TrimRight(b) <==> EQUALS in b
  {
    var m := RightSpace(b);
    var r := b[m..];
    assert !IsSpace(EQUALS) && forall i | 0 <= i < |r| :: r[i] != EQUALS;
    assert EQUALS in b <==> EQUALS in TrimRight(b) + r;
  }

  lemma SplitAtEquals(a: string, b: string)
    requires EQUALS !in a
    ensures Split(a + [EQUALS] + b, EQUALS) == [a] + Split(b, EQUALS)
    ensures |Split(b, EQUALS)| == 1 <==> EQUALS !in b
    ensures EQUALS !in b ==> Split(b, EQUALS) == [b]
  {
    FindFirst(a, EQUALS, b);
    if EQUALS !in b {
      FindNone(b, EQUALS);
    }
  }

  lemma LeftHasNoEquals(a: string)
    requires EQUALS !in a
    ensures EQUALS !in TrimLeft(a)
  {
  }

  lemma PartWithoutEquals(part: string)
    requires EQUALS !in part
    ensures ParsePart(part) == if AllSpace(part) then Skipped else Parsed((TrimSpace(part), ""))
  {
    var s := TrimSpace(part);
    var l, r := TrimSpaceIs(part);
    TrimTrimmed(s);
    FindNone(s, EQUALS);
    assert Split(s, EQUALS) == [s];
  }

  lemma PartWithEquals(a: string, b: string)
    requires EQUALS !in a
    ensures ParsePart(a + [EQUALS] + b) ==
              if AllSpace(a) || EQUALS in b then Invalid else Parsed((TrimSpace(a), TrimSpace(b)))
  {
    SpaceAroundEquals(a, b);
    LeftHasNoEquals(a);
    SplitAtEquals(TrimLeft(a), TrimRight(b));
    EqualsStays(b);
    TrimmedTwice(a);
    TrimmedTwice(b);
    var l, r := TrimSpaceIs(a);
  }

  /** What one part comes to: an error, nothing, or a name and a value. */
  lemma PartMeans(part: string)
    ensures ParsePart(part) ==
              if Malformed(part) then Invalid
              else if NamePart(part) == "" then Skipped
              else Parsed((NamePart(part), ValuePart(part)))
  {
    var k := Find(part, EQUALS);
    var l, r := TrimSpaceIs(part[..k]);
    if k == |part| {
      assert part[..k] == part;
      assert EQUALS !in part;
      PartWithoutEquals(part);
    } else {
      var a, b := part[..k], part[k + 1..];
      assert part == a + [EQUALS] + b;
      assert forall j | 0 <= j < |a| :: a[j] != EQUALS;
      PartWithEquals(a, b);
      MalformedAt(part, k);
    }
  }

  lemma MalformedAt(part: string, k: nat)
    requires k < |part| && part[k] == EQUALS && EQUALS !in part[..k]
    ensures Malformed(part) <==> AllSpace(part[..k]) || EQUALS in part[k + 1..]
  {
    FirstIs(part, k);
    forall j | 0 <= j < |part| && part[j] == EQUALS && EQUALS !in part[..j] ensures j == k {
      FirstIs(part, j);
    }
  }

  lemma FirstIs(part: string, k: nat)
    requires k < |part| && part[k] == EQUALS && EQUALS !in part[..k]
    ensures Find(part, EQUALS) == k
  {
    assert part == part[..k] + [EQUALS] + part[k + 1..];
    FindFirst(part[..k], EQUALS, part[k + 1..]);
  }

  // ---- The whole string, in Go ----

  /** A part that is for the name, and no later one is. */
  ghost predicate LastFor(ps: seq<Part>, n: nat, i: nat, name: string)
    requires n <= |ps|
  {
    && i < n && ps[i].Parsed? && ps[i].property.0 == name
    && forall j | i < j < n && ps[j].Parsed? :: ps[j].property.0 != name
  }

  lemma {:induction false} CombineMeans(ps: seq<Part>, n: nat)
    requires n <= |ps|
    ensures Combine(ps, n).None? <==> exists i :: 0 <= i < n && ps[i].Invalid?
  {
    if n > 0 {
      CombineMeans(ps, n - 1);
    }
  }

  /** The last part for a name gives its value, and no part for it leaves it out. */
  lemma {:induction false} CombineHolds(ps: seq<Part>, n: nat, i: nat, name: string)
    requires n <= |ps| && Combine(ps, n).Some?
    ensures LastFor(ps, n, i, name) ==>
              name in Combine(ps, n).value && Combine(ps, n).value[name] == ps[i].property.1
    ensures (forall j | 0 <= j < n && ps[j].Parsed? :: ps[j].property.0 != name) ==> name !in Combine(ps, n).value
  {
    if n > 0 {
      CombineHolds(ps, n - 1, i, name);
    }
  }

  /** The name of a part that has one. */
  ghost predicate IsFor(part: string, name: string) {
    name != "" && NamePart(part) == name
  }

  /**
   * The Go reader fails exactly when some part between the commas is malformed.  Otherwise the table has the names of
   * the parts, and for each name the value of the last part with that name.
   */
  lemma ParseMeans(parts: seq<string>, i: nat, name: string)
    requires parts != [] && forall k | 0 <= k < |parts| :: COMMA !in parts[k]
    ensures var table := Parse(Join(parts, COMMA));
            && (table.None? <==> exists k :: 0 <= k < |parts| && Malformed(parts[k]))
            && (table.Some? && (forall k | 0 <= k < |parts| :: !IsFor(parts[k], name)) ==> name !in table.value)
            && (table.Some? && i < |parts| && IsFor(parts[i], name)
                && (forall k | i < k < |parts| :: !IsFor(parts[k], name)) ==>
                  name in table.value && table.value[name] == ValuePart(parts[i]))
  {
    SplitJoined(parts, COMMA);
    var ps := PartsOf(parts);
    forall k | 0 <= k < |parts|
      ensures ps[k].Invalid? <==> Malformed(parts[k])
      ensures ps[k].Parsed? ==> ps[k].property == (NamePart(parts[k]), ValuePart(parts[k])) && NamePart(parts[k]) != ""
      ensures ps[k].Skipped? ==> NamePart(parts[k]) == ""
    {
      PartMeans(parts[k]);
    }
    CombineMeans(ps, |ps|);
    if Combine(ps, |ps|).Some? {
      CombineHolds(ps, |ps|, i, name);
    }
  }

  // ---- The whole string, in C++ ----

  /** One part in C++: the name and the value as they are, split at the first equals sign. */
  lemma ViewMeans(a: string, b: string)
    requires EQUALS !in a
    ensures View(a) == (a, "") && View(a + [EQUALS] + b) == (a, b)
  {
    FindNone(a, EQUALS);
    FindFirst(a, EQUALS, b);
  }

  lemma {:induction false} ViewsAreThose(parts: seq<string>)
    ensures |ViewsOf(parts)| == |parts| && forall i | 0 <= i < |parts| :: ViewsOf(parts)[i] == View(parts[i])
  {
    if parts != [] {
      ViewsAreThose(parts[1..]);
    }
  }

  /** The parts without an empty last one. */
  function Cut(parts: seq<string>): seq<string>
    requires parts != []
  {
    if parts[|parts| - 1] == "" then parts[..|parts| - 1] else parts
  }

  lemma CutMore(parts: seq<string>)
    requires |parts| > 1
    ensures Cut(parts) == [parts[0]] + Cut(parts[1..])
  {
  }

  lemma ViewsOfOnePart(part: string)
    requires COMMA !in part
    ensures ParseViews(Join([part], COMMA)) == ViewsOf(Cut([part]))
  {
    if part == "" {
      assert ParseViews("") == [] && Cut([part]) == [];
    } else {
      OnlyView([part]);
    }
  }

  /** The C++ reader gives one property for each part between the commas, but none for an empty last one. */
  lemma {:induction false} ViewsMean(parts: seq<string>)
    requires parts != [] && forall i | 0 <= i < |parts| :: COMMA !in parts[i]
    ensures ParseViews(Join(parts, COMMA)) == ViewsOf(Cut(parts))
  {
    if |parts| == 1 {
      assert parts == [parts[0]];
      ViewsOfOnePart(parts[0]);
    } else {
      FirstView(parts);
      ViewsMean(parts[1..]);
      CutMore(parts);
    }
  }
}
