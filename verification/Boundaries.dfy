/** Strictly ascending sequences: the keys of an ordered set or map, and the cells between them. */
module Boundaries {

  ghost predicate Ascending(s: seq<int>) {
    forall i, j | 0 <= i < j < |s| :: s[i] < s[j]
  }

  ghost predicate IsLeast(s: set<int>, m: int) {
    m in s && forall x | x in s :: m <= x
  }

  ghost predicate IsGreatest(s: set<int>, m: int) {
    m in s && forall x | x in s :: x <= m
  }

  function Least(s: set<int>): (m: int)
    requires s != {}
    ensures IsLeast(s, m)
  {
    var w := FindLeast(s);
    assert IsLeast(s, w);
    var m :| m in s && forall x | x in s :: m <= x;
    m
  }

  ghost function FindLeast(s: set<int>): (m: int)
    requires s != {}
    ensures IsLeast(s, m)
    decreases |s|
  {
    Inhabited(s);
    var y :| y in s;
    var rest := s - {y};
    assert forall x | x in s :: x == y || x in rest;
    if rest == {} then y
    else
      var m := FindLeast(rest);
      if m <= y then m else y
  }

  lemma {:induction false} Inhabited(s: set<int>)
    requires s != {}
    ensures exists y :: y in s
  {
    assert (forall x :: x !in s) ==> s == {};
  }

  function Greatest(s: set<int>): (m: int)
    requires s != {}
    ensures IsGreatest(s, m)
  {
    Inhabited(s);
    var negated := set x | x in s :: -x;
    assert forall x | x in s :: -x in negated;
    var m := Least(negated);
    assert forall x | x in s :: m <= -x;
    -m
  }

  /** The elements of a set in ascending order. */
  function Sorted(s: set<int>): (r: seq<int>)
    ensures Ascending(r)
    ensures forall x :: x in r <==> x in s
    ensures |r| == |s|
  {
    if s == {} then []
    else
      var m := Least(s);
      [m] + Sorted(s - {m})
  }

  /** Ascending sequences with the same elements are equal. */
  lemma {:induction false} AscendingUnique(s: seq<int>, t: seq<int>)
    requires Ascending(s) && Ascending(t)
    requires forall x :: x in s <==> x in t
    ensures s == t
  {
    assert s != [] ==> s[0] in s && s[0] in t;
    assert t != [] ==> t[0] in t && t[0] in s;
    if s != [] {
      assert s[0] == t[0];
      var a, b := s[1..], t[1..];
      forall x ensures x in a <==> x in b {
        assert x in s <==> x == s[0] || x in a;
        assert x in t <==> x == t[0] || x in b;
      }
      AscendingUnique(a, b);
      assert s == [s[0]] + a && t == [t[0]] + b;
    }
  }

  /** The cell [s[k], s[k+1]) that holds a position between the first and last boundary. */
  lemma {:induction false} CellOf(s: seq<int>, p: int, n: nat) returns (k: nat)
    requires Ascending(s) && 0 < n < |s| && s[0] <= p < s[n]
    ensures k < n && s[k] <= p < s[k + 1]
  {
    if s[n - 1] <= p {
      k := n - 1;
    } else {
      k := CellOf(s, p, n - 1);
    }
  }
}
