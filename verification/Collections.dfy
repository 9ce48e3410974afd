/** Facts about sets, duplicate-free lists and reversal. */
module Collections {

  predicate NoDup<T(==)>(s: seq<T>) {
    forall i, j :: 0 <= i < j < |s| ==> s[i] != s[j]
  }

  /** From position `n` on, nothing is repeated. */
  predicate Appended<T(==)>(l: seq<T>, n: nat) {
    forall k :: n <= k < |l| ==> l[k] !in l[..k]
  }

  /** A duplicate-free list of members of a set is no longer than the set. */
  lemma {:induction false} NoDupFits<T>(s: seq<T>, r: set<T>)
    requires NoDup(s) && forall x :: x in s ==> x in r
    ensures |s| <= |r|
  {
    if s != [] {
      assert s[0] !in s[1..];
      NoDupFits(s[1..], r - {s[0]});
    }
  }

  /** A set whose members all occur in a list is no larger than the list. */
  lemma {:induction false} CoveredFits<T>(s: seq<T>, r: set<T>)
    requires forall x :: x in r ==> x in s
    ensures |r| <= |s|
  {
    if s != [] {
      CoveredFits(s[1..], r - {s[0]});
      assert r <= (r - {s[0]}) + {s[0]};
      assert |(r - {s[0]}) + {s[0]}| <= |r - {s[0]}| + 1;
      SubsetFits(r, (r - {s[0]}) + {s[0]});
    } else {
      assert r == {};
    }
  }

  lemma {:induction false} SubsetFits<T>(a: set<T>, b: set<T>)
    requires a <= b
    ensures |a| <= |b|
  {
    assert b == a + (b - a);
  }

  function Reverse<T>(s: seq<T>): (r: seq<T>)
    ensures |r| == |s|
  {
    if s == [] then [] else [s[|s| - 1]] + Reverse(s[..|s| - 1])
  }

  lemma ReverseAppend<T>(s: seq<T>, x: T)
    ensures Reverse(s + [x]) == [x] + Reverse(s)
  {
    assert (s + [x])[..|s|] == s;
  }

  lemma {:induction false} ReverseAt<T>(s: seq<T>, k: nat)
    requires k < |s|
    ensures Reverse(s)[k] == s[|s| - 1 - k]
  {
    if k > 0 { ReverseAt(s[..|s| - 1], k - 1); }
  }

  lemma {:induction false} ReverseMembers<T>(s: seq<T>, x: T)
    ensures x in Reverse(s) <==> x in s
  {
    if s != [] {
      ReverseMembers(s[..|s| - 1], x);
      assert s == s[..|s| - 1] + [s[|s| - 1]];
    }
  }
}
