/** The keys of the bolt store: numbers written as 16 hexadecimal digits, ordered byte by byte. */
module BoltKeys {
  import opened Common

  const KEY_LENGTH: nat := 16
  const MAX_INT32: int := 0x7FFF_FFFF

  function Pow16(k: nat): (p: nat)
    ensures p > 0
  {
    if k == 0 then 1 else 16 * Pow16(k - 1)
  }

  /** Lower case, as `%x` prints it. */
  function Digit(d: nat): char
    requires d < 16
  {
    if d < 10 then '0' + d as char else 'a' + (d - 10) as char
  }

  function DigitValue(c: char): Option<nat> {
    if '0' <= c <= '9' then Some((c - '0') as nat)
    else if 'a' <= c <= 'f' then Some((c - 'a') as nat + 10)
    else if 'A' <= c <= 'F' then Some((c - 'A') as nat + 10)
    else None
  }

  /** The last `k` digits of the number. */
  function Digits(n: nat, k: nat): (s: string)
    ensures |s| == k
  {
    if k == 0 then "" else Digits(n / 16, k - 1) + [Digit(n % 16)]
  }

  function SerializeNumID(n: nat): string {
    Digits(n, KEY_LENGTH)
  }

  /** The number that the digits write; None for another character. */
  function DigitsValue(s: string): Option<nat> {
    if s == "" then Some(0)
    else
      var front, last := DigitsValue(s[..|s| - 1]), DigitValue(s[|s| - 1]);
      if front.Some? && last.Some? then Some(16 * front.value + last.value) else None
  }

  /** An integer in base 16 with an optional sign, when it fits in 32 bits. */
  function ParseInt32(s: string): Option<int> {
    var negative := s != "" && s[0] == '-';
    var digits := if s != "" && (s[0] == '-' || s[0] == '+') then s[1..] else s;
    if digits == "" then None
    else
      var n := DigitsValue(digits);
      if n.None? then None
      else if negative then (if n.value <= MAX_INT32 + 1 then Some(0 - n.value) else None)
      else if n.value <= MAX_INT32 then Some(n.value)
      else None
  }

  /** Byte by byte, a proper prefix coming first. */
  predicate Before(a: string, b: string) {
    if b == "" then false
    else if a == "" then true
    else a[0] < b[0] || (a[0] == b[0] && Before(a[1..], b[1..]))
  }

  // ---- Decoding ----

  lemma {:induction false} DigitsRoundTrip(n: nat, k: nat)
    requires n < Pow16(k)
    ensures DigitsValue(Digits(n, k)) == Some(n)
  {
    if k > 0 {
      var s := Digits(n, k);
      assert s[..|s| - 1] == Digits(n / 16, k - 1);
      DigitsRoundTrip(n / 16, k - 1);
      assert DigitValue(Digit(n % 16)) == Some(n % 16);
    }
  }

  lemma {:induction false} DigitsAreNoSigns(n: nat, k: nat)
    ensures forall i | 0 <= i < k :: Digits(n, k)[i] != '-' && Digits(n, k)[i] != '+'
  {
    if k > 0 {
      DigitsAreNoSigns(n / 16, k - 1);
    }
  }

  lemma SixteenDigits()
    ensures Pow16(16) == 0x1_0000_0000_0000_0000
  {
    assert Pow16(4) == 0x1_0000;
    assert Pow16(8) == 0x1_0000_0000 by {
      assert Pow16(5) == 0x10_0000 && Pow16(6) == 0x100_0000 && Pow16(7) == 0x1000_0000;
    }
    assert Pow16(9) == 0x10_0000_0000 && Pow16(10) == 0x100_0000_0000;
    assert Pow16(11) == 0x1000_0000_0000 && Pow16(12) == 0x1_0000_0000_0000;
    assert Pow16(13) == 0x10_0000_0000_0000 && Pow16(14) == 0x100_0000_0000_0000;
    assert Pow16(15) == 0x1000_0000_0000_0000;
  }

  /** Every 64-bit number can be written, but only those below 2^31 are read back. */
  lemma KeyDecodes(n: nat)
    requires n < 0x1_0000_0000_0000_0000
    ensures ParseInt32(SerializeNumID(n)) == if n <= MAX_INT32 then Some(n) else None
  {
    SixteenDigits();
    DigitsRoundTrip(n, KEY_LENGTH);
    DigitsAreNoSigns(n, KEY_LENGTH);
  }

  // ---- Order ----

  lemma {:induction false} BeforeAppend(a: string, b: string, x: char, y: char)
    requires |a| == |b|
    ensures Before(a + [x], b + [y]) <==> Before(a, b) || (a == b && x < y)
  {
    if a == "" {
    } else {
      assert (a + [x])[1..] == a[1..] + [x] && (b + [y])[1..] == b[1..] + [y];
      BeforeAppend(a[1..], b[1..], x, y);
      assert a == [a[0]] + a[1..] && b == [b[0]] + b[1..];
    }
  }

  lemma DigitOrder(a: nat, b: nat)
    requires a < 16 && b < 16
    ensures (Digit(a) < Digit(b) <==> a < b) && (Digit(a) == Digit(b) <==> a == b)
  {
  }

  lemma {:induction false} DigitsOrder(a: nat, b: nat, k: nat)
    requires a < Pow16(k) && b < Pow16(k)
    ensures Before(Digits(a, k), Digits(b, k)) <==> a < b
    ensures Digits(a, k) == Digits(b, k) <==> a == b
  {
    if k > 0 {
      DigitsOrder(a / 16, b / 16, k - 1);
      BeforeAppend(Digits(a / 16, k - 1), Digits(b / 16, k - 1), Digit(a % 16), Digit(b % 16));
      DigitOrder(a % 16, b % 16);
      var x, y := Digits(a, k), Digits(b, k);
      assert x[..k - 1] == Digits(a / 16, k - 1) && y[..k - 1] == Digits(b / 16, k - 1);
      assert a == 16 * (a / 16) + a % 16 && b == 16 * (b / 16) + b % 16;
    }
  }

  /** The keys are ordered exactly as the numbers are, and differ when the numbers do. */
  lemma KeyOrder(a: nat, b: nat)
    requires a < 0x1_0000_0000_0000_0000 && b < 0x1_0000_0000_0000_0000
    ensures Before(SerializeNumID(a), SerializeNumID(b)) <==> a < b
    ensures SerializeNumID(a) == SerializeNumID(b) <==> a == b
  {
    SixteenDigits();
    DigitsOrder(a, b, KEY_LENGTH);
  }

  // ---- Cursors ----

  /** The smallest number of the set from `from` on, at most `last`. */
  function SeekNumber(keys: set<nat>, from: nat, last: nat): (r: Option<nat>)
    ensures r.Some? ==> r.value in keys && from <= r.value <= last && forall k | k in keys && from <= k :: r.value <= k
    ensures r.None? ==> forall k | k in keys && from <= k :: last < k
    decreases last + 1 - from
  {
    if from > last then None else if from in keys then Some(from) else SeekNumber(keys, from + 1, last)
  }

  ghost function KeysOf(numbers: set<nat>): set<string> {
    set n | n in numbers :: SerializeNumID(n)
  }

  /** `key` is where a cursor stops that seeks `from`: the first key not before it. */
  ghost predicate SeeksTo(keys: set<string>, from: string, key: string) {
    && key in keys && !Before(key, from)
    && forall other | other in keys && !Before(other, from) :: other == key || Before(key, other)
  }

  /** Seeking among the keys finds the key of the number found by seeking among the numbers. */
  lemma SeekFindsTheNumber(numbers: set<nat>, from: nat, last: nat)
    requires (forall n | n in numbers :: n <= last) && from < 0x1_0000_0000_0000_0000 && last < 0x1_0000_0000_0000_0000
    ensures var r := SeekNumber(numbers, from, last);
            if r.Some? then SeeksTo(KeysOf(numbers), SerializeNumID(from), SerializeNumID(r.value))
            else forall key | key in KeysOf(numbers) :: Before(key, SerializeNumID(from))
  {
    var r := SeekNumber(numbers, from, last);
    forall key | key in KeysOf(numbers)
      ensures Before(key, SerializeNumID(from)) ||
              (r.Some? && (key == SerializeNumID(r.value) || Before(SerializeNumID(r.value), key)))
    {
      var n :| n in numbers && key == SerializeNumID(n);
      KeyOrder(n, from);
      if r.Some? {
        KeyOrder(r.value, n);
      }
    }
    if r.Some? {
      KeyOrder(r.value, from);
      assert SerializeNumID(r.value) in KeysOf(numbers);
    }
  }
}
