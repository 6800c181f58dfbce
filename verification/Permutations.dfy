/** Facts about rearranged sequences, for any element type. */
module Permutations {

  function Without<T>(s: seq<T>, j: int): seq<T>
    requires 0 <= j < |s|
  {
    s[..j] + s[j + 1..]
  }

  lemma {:induction false} WithoutMultiset<T>(s: seq<T>, j: int)
    requires 0 <= j < |s|
    ensures multiset(Without(s, j)) == multiset(s) - multiset{s[j]}
  {
    assert s == s[..j] + [s[j]] + s[j + 1..];
  }

  lemma {:induction false} WithoutAt<T>(s: seq<T>, j: int, k: int)
    requires 0 <= j < |s| && 0 <= k < |s| - 1
    ensures |Without(s, j)| == |s| - 1
    ensures Without(s, j)[k] == if k < j then s[k] else s[k + 1]
  {
  }

  lemma {:induction false} SameLength<T>(s: seq<T>, t: seq<T>)
    requires multiset(s) == multiset(t)
    ensures |s| == |t|
  {
    assert |multiset(s)| == |s| && |multiset(t)| == |t|;
  }

  /** Every element of one arrangement has a place in the other. */
  lemma {:induction false} Place<T>(s: seq<T>, t: seq<T>, i: int) returns (j: int)
    requires multiset(s) == multiset(t) && 0 <= i < |s|
    ensures 0 <= j < |t| && t[j] == s[i]
  {
    assert s[i] in multiset(s);
    assert s[i] in t;
    j :| 0 <= j < |t| && t[j] == s[i];
  }

  /** Removing an element and its counterpart leaves an arrangement. */
  lemma {:induction false} WithoutBoth<T>(s: seq<T>, i: int, t: seq<T>, j: int)
    requires multiset(s) == multiset(t) && 0 <= i < |s| && 0 <= j < |t| && s[i] == t[j]
    ensures multiset(Without(s, i)) == multiset(Without(t, j))
  {
    hide Without;
    WithoutMultiset(s, i);
    WithoutMultiset(t, j);
  }

  /** Two different places hold elements that stand in two different places elsewhere. */
  lemma {:induction false} TwoPlaces<T>(s: seq<T>, t: seq<T>, i: int, j: int) returns (a: int, b: int)
    requires multiset(s) == multiset(t) && 0 <= i < j < |s|
    ensures 0 <= a < |t| && 0 <= b < |t| && a != b && t[a] == s[i] && t[b] == s[j]
  {
    hide Without;
    a := Place(s, t, i);
    WithoutBoth(s, i, t, a);
    WithoutAt(s, i, j - 1);
    var m := Place(Without(s, i), Without(t, a), j - 1);
    SameLength(s, t);
    SameLength(Without(s, i), Without(t, a));
    WithoutAt(t, a, m);
    b := if m < a then m else m + 1;
  }
}
