/** Datatypes shared by the model's modules. */
module Common {

  datatype Option<+T> = None | Some(value: T)

  newtype byte = b: int | 0 <= b < 256

  type bytes = seq<byte>

  /** No element occurs twice. */
  ghost predicate NoDup<T>(s: seq<T>) {
    forall i, j | 0 <= i < j < |s| :: s[i] != s[j]
  }

  ghost function Elements<T>(s: seq<T>): set<T> {
    set x | x in s
  }

  /** A list has at least as many positions as elements, and no more exactly when none occurs twice. */
  lemma {:induction false} NoDupSize<T>(s: seq<T>)
    ensures |Elements(s)| <= |s|
    ensures NoDup(s) <==> |Elements(s)| == |s|
  {
    if s != [] {
      var front, x := s[..|s| - 1], s[|s| - 1];
      NoDupSize(front);
      assert s == front + [x];
      assert Elements(s) == Elements(front) + {x};
      if NoDup(s) {
        assert x !in Elements(front);
      }
      if NoDup(front) && x !in front {
        assert forall i | 0 <= i < |front| :: front[i] in front;
      }
    }
  }

  lemma ElementsAppend<T>(s: seq<T>, t: seq<T>)
    ensures Elements(s + t) == Elements(s) + Elements(t)
  {
  }

  /** The numbers 0, 1, .., n - 1. */
  ghost function Upto(n: nat): (s: seq<nat>)
    ensures |s| == n && forall i | 0 <= i < n :: s[i] == i
  {
    seq(n, i requires 0 <= i < n => i)
  }

  /** The set {0, .., n - 1} has n elements. */
  ghost function Below(n: nat): (s: set<nat>)
    ensures |s| == n && forall i: nat :: i in s <==> i < n
  {
    if n == 0 then {} else Below(n - 1) + {n - 1}
  }
}
