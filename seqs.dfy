/** Facts about sequences that the scanner and the planner share. */
module Seqs {
  /** The sequence in the opposite order, as JavaScript's `Array.prototype.reverse` leaves it. */
  function Reversed<T>(s: seq<T>): (r: seq<T>)
    ensures |r| == |s|
    ensures forall i :: 0 <= i < |s| ==> r[i] == s[|s| - 1 - i]
  {
    if s == [] then [] else Reversed(s[1..]) + [s[0]]
  }

  /** No element occurs twice. */
  predicate NoDup<T(==)>(s: seq<T>) {
    forall i, j :: 0 <= i < j < |s| ==> s[i] != s[j]
  }

  /** A list of paths in which a path comes no later than every path beneath it (every extension of it). */
  predicate AncestorsFirst<T(==)>(list: seq<seq<T>>) {
    forall i, j :: (0 <= i < |list| && 0 <= j < |list| && list[i] <= list[j]) ==> i <= j
  }

  /** `x` occurs strictly before `y` in `s`. */
  predicate Before<T(==)>(s: seq<T>, x: T, y: T) {
    exists i, j :: 0 <= i < j < |s| && s[i] == x && s[j] == y
  }

  /** Reversing swaps the order of any two elements. */
  lemma ReversedBefore<T>(s: seq<T>, x: T, y: T)
    requires Before(Reversed(s), x, y)
    ensures Before(s, y, x)
  {
    var r := Reversed(s);
    var i, j :| 0 <= i < j < |r| && r[i] == x && r[j] == y;
    assert s[|s| - 1 - j] == y && s[|s| - 1 - i] == x;
  }

  /** Reversing a sequence with one more element at the end puts that element in front. */
  lemma ReversedSnoc<T>(s: seq<T>, x: T)
    ensures Reversed(s + [x]) == [x] + Reversed(s)
  {
    var r, t := Reversed(s + [x]), [x] + Reversed(s);
    forall i | 0 <= i < |r| ensures r[i] == t[i] {
      if i > 0 {
        assert r[i] == (s + [x])[|s| - i];
      }
    }
  }

  /** Reversing keeps the elements. */
  lemma ReversedMembers<T>(s: seq<T>)
    ensures forall x :: x in Reversed(s) <==> x in s
  {
    var r := Reversed(s);
    forall x | x in s ensures x in r {
      var i :| 0 <= i < |s| && s[i] == x;
      assert r[|s| - 1 - i] == x;
    }
  }
}
