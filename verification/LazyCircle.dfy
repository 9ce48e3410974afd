/** What becomes of a lazy list that runs in a circle: which DSOs it still leads to, and what
    `redo_lazy_relocs` makes of it. */
module LazyCircle {
  import opened Collections
  import opened LazyOrder
  import opened LoaderState
  import opened Wrappers

  /** From `h` the links lead through `v` and from its end back to position `c`. */
  ghost predicate Circle(nxt: Links, h: Option<Id>, v: seq<Id>, c: nat) {
    NoDup(v) && c < |v| && h == Some(v[0]) && forall k :: 0 <= k < |v| ==> CircleLink(nxt, v, c, k)
  }

  ghost predicate CircleLink(nxt: Links, v: seq<Id>, c: nat, k: int)
    requires 0 <= k < |v| && c < |v|
  {
    v[k] in nxt && nxt[v[k]] == Some(v[if k < |v| - 1 then k + 1 else c])
  }

  /** A list that prepared DSOs were put on is a circle through those past the last one that
      was put on again later, latest first. The others are lost, and so is the old list. */
  lemma PushedCircle(nxt: Links, h: Option<Id>, order: seq<Id>) returns (j: nat, c: nat)
    requires !NoDup(order)
    ensures j < |order| && Repeats(order, j) && forall i :: j < i < |order| ==> !Repeats(order, i)
    ensures var r := Pushed(nxt, h, order); Circle(r.0, r.1, Reverse(order[j + 1..]), c)
    ensures c < |order| - j - 1 && Reverse(order[j + 1..])[c] == order[j]
  {
    hide Pushed, Reverse;
    var a, b :| 0 <= a < b < |order| && order[a] == order[b];
    j := LastRepeat(order, |order|, a);
    var v, n := Reverse(order[j + 1..]), |order|;
    forall k | 0 <= k < |v| ensures v[k] == order[n - 1 - k] { ReverseAt(order[j + 1..], k); }
    var j' :| j < j' < |order| && order[j'] == order[j];
    c := n - 1 - j';
    forall k, l | 0 <= k < l < |v| ensures v[k] != v[l] { assert !Repeats(order, n - 1 - l); }
    forall k | 0 <= k < |v| ensures CircleLink(Pushed(nxt, h, order).0, v, c, k) {
      LastPush(nxt, h, order, n - 1 - k);
    }
    PushedHead(nxt, h, order);
  }

  lemma PushedHead(nxt: Links, h: Option<Id>, order: seq<Id>)
    requires order != []
    ensures Pushed(nxt, h, order).1 == Some(order[|order| - 1])
  {
  }

  /** Following the links `n` times. */
  ghost function Nth(nxt: Links, h: Option<Id>, n: nat): Option<Id> {
    if n == 0 then h
    else
      var p := Nth(nxt, h, n - 1);
      if p.Some? && p.value in nxt then nxt[p.value] else None
  }

  /** The walk never ends, and meets exactly the DSOs of `v`. */
  lemma {:induction false} CircleWalk(nxt: Links, h: Option<Id>, v: seq<Id>, c: nat, n: nat)
    requires Circle(nxt, h, v, c)
    ensures Nth(nxt, h, n).Some? && Nth(nxt, h, n).value in v
    ensures n < |v| ==> Nth(nxt, h, n) == Some(v[n])
  {
    if n > 0 {
      CircleWalk(nxt, h, v, c, n - 1);
      var k :| 0 <= k < |v| && v[k] == Nth(nxt, h, n - 1).value;
      assert CircleLink(nxt, v, c, k);
    }
  }

  lemma {:induction false} ListWalk(nxt: Links, h: Option<Id>, l: seq<Id>, n: nat)
    requires LazyList(nxt, h, l) && n <= |l|
    ensures Nth(nxt, h, n) == if n < |l| then Some(l[n]) else None
  {
    if n > 0 {
      ListWalk(nxt, h, l, n - 1);
      assert LinkOk(nxt, l, n - 1);
    }
  }

  lemma CircleNoList(nxt: Links, h: Option<Id>, v: seq<Id>, c: nat)
    requires Circle(nxt, h, v, c)
    ensures !IsList(nxt, h)
  {
    hide Circle, LazyList;
    forall l ensures !LazyList(nxt, h, l) {
      if LazyList(nxt, h, l) {
        CircleWalk(nxt, h, v, c, |l|);
        ListWalk(nxt, h, l, |l|);
        assert false;
      }
    }
  }

  // ----- replaying

  /** The loop of `redo_lazy_relocs`: the links, the new head, and the DSO to replay next. */
  datatype Redo = Redo(nxt: Links, head: Option<Id>, p: Option<Id>)

  /** One round; the DSOs of `keep` have records left. */
  function RedoOne(keep: set<Id>, s: Redo): Redo {
    if s.p.None? || s.p.value !in s.nxt then s.(p := None)
    else
      var p := s.p.value;
      if p in keep then Redo(s.nxt[p := s.head], Some(p), s.nxt[p]) else Redo(s.nxt[p := None], s.head, s.nxt[p])
  }

  function RedoAll(keep: set<Id>, s: Redo, n: nat): Redo {
    if n == 0 then s else RedoOne(keep, RedoAll(keep, s, n - 1))
  }

  /** Those of the first `k` that have records left, last first. */
  function Left(keep: set<Id>, v: seq<Id>, k: nat): seq<Id>
    requires k <= |v|
  {
    if k == 0 then []
    else if v[k - 1] in keep then [v[k - 1]] + Left(keep, v, k - 1) else Left(keep, v, k - 1)
  }

  lemma {:induction false} LeftMembers(keep: set<Id>, v: seq<Id>, k: nat, x: Id)
    requires k <= |v|
    ensures x in Left(keep, v, k) <==> x in v[..k] && x in keep
  {
    if k > 0 {
      LeftMembers(keep, v, k - 1, x);
      assert v[..k] == v[..k - 1] + [v[k - 1]];
    }
  }

  /** The first time round. */
  ghost predicate Round(keep: set<Id>, v: seq<Id>, c: nat, s: Redo, k: nat)
    requires c < |v|
  {
    k <= |v| && s.p == Some(v[if k < |v| then k else c]) && LazyList(s.nxt, s.head, Left(keep, v, k)) &&
    (forall i :: 0 <= i < k && v[i] !in keep ==> v[i] in s.nxt && s.nxt[v[i]].None?) &&
    forall i :: k <= i < |v| ==> CircleLink(s.nxt, v, c, i)
  }

  lemma RoundNext(keep: set<Id>, v: seq<Id>, c: nat, s: Redo, k: nat)
    requires NoDup(v) && c < |v| && Round(keep, v, c, s, k) && k < |v|
    ensures Round(keep, v, c, RedoOne(keep, s), k + 1)
  {
    hide Threads;
    var x, l, s' := v[k], Left(keep, v, k), RedoOne(keep, s);
    assert CircleLink(s.nxt, v, c, k);
    LeftMembers(keep, v, k, x);
    assert x !in v[..k];
    if x in keep { ThreadsPush(s.nxt, l, x); } else { ThreadsOther(s.nxt, l, x, None); }
    forall i | k + 1 <= i < |v| ensures CircleLink(s'.nxt, v, c, i) { assert CircleLink(s.nxt, v, c, i) && v[i] != x; }
  }

  lemma ThreadsOther(nxt: Links, l: seq<Id>, x: Id, to: Option<Id>)
    requires Threads(nxt, l) && x !in l
    ensures Threads(nxt[x := to], l)
  {
    var nxt' := nxt[x := to];
    forall i | 0 <= i < |l| ensures LinkOk(nxt', l, i) { assert LinkOk(nxt, l, i) && l[i] != x; }
  }

  lemma {:induction false} FirstRound(keep: set<Id>, nxt: Links, h: Option<Id>, v: seq<Id>, c: nat, k: nat)
    requires Circle(nxt, h, v, c) && k <= |v|
    ensures Round(keep, v, c, RedoAll(keep, Redo(nxt, None, h), k), k)
  {
    if k > 0 {
      FirstRound(keep, nxt, h, v, c, k - 1);
      hide Round;
      RoundNext(keep, v, c, RedoAll(keep, Redo(nxt, None, h), k - 1), k - 1);
    }
  }

  /** The second time, from position `a` of the new list `l` to its end: the links there are
      turned round. */
  ghost predicate Back(keep: set<Id>, l: seq<Id>, a: nat, s: Redo, t: nat) {
    1 <= t && a + t <= |l| && s.head == Some(l[a + t - 1]) && s.p == LinkAt(l, a + t - 1) &&
    forall i :: 0 <= i < |l| ==> BackLink(s.nxt, l, a, t, i)
  }

  ghost predicate BackLink(nxt: Links, l: seq<Id>, a: nat, t: nat, i: int)
    requires 0 <= i < |l|
  {
    l[i] in nxt &&
    nxt[l[i]] == if i == a then Some(l[0]) else if a < i < a + t then Some(l[i - 1]) else LinkAt(l, i)
  }

  lemma BeginBack(keep: set<Id>, l: seq<Id>, a: nat, s: Redo)
    requires LazyList(s.nxt, s.head, l) && a < |l| && s.p == Some(l[a]) && l[a] in keep
    ensures Back(keep, l, a, RedoOne(keep, s), 1)
  {
    var s' := RedoOne(keep, s);
    assert LinkOk(s.nxt, l, a);
    forall i | 0 <= i < |l| ensures BackLink(s'.nxt, l, a, 1, i) {
      assert LinkOk(s.nxt, l, i);
      if i != a { assert l[i] != l[a]; }
    }
  }

  lemma NextBack(keep: set<Id>, l: seq<Id>, a: nat, s: Redo, t: nat)
    requires NoDup(l) && Back(keep, l, a, s, t) && a + t < |l| && l[a + t] in keep
    ensures Back(keep, l, a, RedoOne(keep, s), t + 1)
  {
    var s' := RedoOne(keep, s);
    assert BackLink(s.nxt, l, a, t, a + t);
    var t' := t + 1;
    forall i | 0 <= i < |l| ensures BackLink(s'.nxt, l, a, t', i) {
      assert BackLink(s.nxt, l, a, t, i);
      if i != a + t { assert l[i] != l[a + t]; }
    }
  }

  /** A circle again: back from the end to `a`, and from the start to `a`. */
  lemma EndBack(keep: set<Id>, l: seq<Id>, a: nat, s: Redo)
    requires NoDup(l) && a < |l| && Back(keep, l, a, s, |l| - a)
    ensures s.p.None? && Circle(s.nxt, s.head, Reverse(l[a..]) + l[..a], |l| - 1 - a)
  {
    hide Reverse;
    var v, c, n := Reverse(l[a..]) + l[..a], |l| - 1 - a, |l|;
    forall k | 0 <= k < n - a ensures v[k] == l[n - 1 - k] { ReverseAt(l[a..], k); }
    assert forall k :: n - a <= k < n ==> v[k] == l[k - (n - a)];
    forall k, m | 0 <= k < m < n ensures v[k] != v[m] { }
    forall k | 0 <= k < n ensures CircleLink(s.nxt, v, c, k) {
      assert BackLink(s.nxt, l, a, n - a, if k < n - a then n - 1 - k else k - (n - a));
    }
  }

  lemma {:induction false} SecondRound(keep: set<Id>, l: seq<Id>, a: nat, s: Redo, t: nat)
    requires LazyList(s.nxt, s.head, l) && a < |l| && s.p == Some(l[a]) && (forall i :: 0 <= i < |l| ==> l[i] in keep)
    requires 1 <= t <= |l| - a
    ensures Back(keep, l, a, RedoAll(keep, s, t), t)
  {
    if t == 1 {
      assert RedoAll(keep, s, 0) == s;
      BeginBack(keep, l, a, s);
    } else {
      SecondRound(keep, l, a, s, t - 1);
      hide Back;
      NextBack(keep, l, a, RedoAll(keep, s, t - 1), t - 1);
    }
  }

  lemma {:induction false} RedoMore(keep: set<Id>, s: Redo, a: nat, b: nat)
    ensures RedoAll(keep, s, a + b) == RedoAll(keep, RedoAll(keep, s, a), b)
  {
    if b > 0 {
      RedoMore(keep, s, a, b - 1);
      assert a + b - 1 == a + (b - 1);
    }
  }

  /** The DSO that round `m` replays. */
  function Replayed(keep: set<Id>, nxt: Links, h: Option<Id>, m: nat): Option<Id> {
    RedoAll(keep, Redo(nxt, None, h), m).p
  }

  /** `redo_lazy_relocs` on a circle: it ends, after replaying exactly the DSOs of the circle,
      some of them twice. The new list is a list again, of those with records left, if and
      only if the DSO at which the circle closes has none. */
  lemma RedoCircle(keep: set<Id>, nxt: Links, h: Option<Id>, v: seq<Id>, c: nat) returns (n: nat)
    requires Circle(nxt, h, v, c)
    ensures var s := RedoAll(keep, Redo(nxt, None, h), n);
      s.p.None? && (IsList(s.nxt, s.head) <==> v[c] !in keep) &&
      (v[c] !in keep ==> LazyList(s.nxt, s.head, Left(keep, v, |v|)))
    ensures |v| < n && forall k :: 0 <= k < |v| ==> Replayed(keep, nxt, h, k) == Some(v[k])
    ensures forall m :: 0 <= m < n ==> Replayed(keep, nxt, h, m).Some? && Replayed(keep, nxt, h, m).value in v
  {
    hide RedoAll, Threads, Circle, IsList, CircleLink;
    var s0, L := Redo(nxt, None, h), |v|;
    assert NoDup(v) && c < L by { CircleFacts(nxt, h, v, c); }
    forall k | 0 <= k < L ensures Replayed(keep, nxt, h, k) == Some(v[k]) { FirstRound(keep, nxt, h, v, c, k); }
    FirstRound(keep, nxt, h, v, c, L);
    var s1, l := RedoAll(keep, s0, L), Left(keep, v, L);
    assert v[..L] == v;
    LeftMembers(keep, v, L, v[c]);
    if v[c] !in keep {
      n := L + 1;
      LastIs(keep, s0, L);
      ThreadsOther(s1.nxt, l, v[c], None);
      assert LazyList(RedoAll(keep, s0, n).nxt, RedoAll(keep, s0, n).head, l);
      SomeList(RedoAll(keep, s0, n).nxt, RedoAll(keep, s0, n).head, l);
    } else {
      var a :| 0 <= a < |l| && l[a] == v[c];
      n := L + (|l| - a);
      forall x | x in l ensures x in keep && x in v { LeftMembers(keep, v, L, x); }
      RoundTwo(keep, s0, s1, L, l, a);
      CircleNoList(RedoAll(keep, s0, n).nxt, RedoAll(keep, s0, n).head, Reverse(l[a..]) + l[..a], |l| - 1 - a);
    }
  }

  lemma CircleFacts(nxt: Links, h: Option<Id>, v: seq<Id>, c: nat)
    requires Circle(nxt, h, v, c)
    ensures NoDup(v) && c < |v|
  {
  }

  lemma SomeList(nxt: Links, h: Option<Id>, l: seq<Id>)
    requires LazyList(nxt, h, l)
    ensures IsList(nxt, h)
  {
  }

  lemma LastIs(keep: set<Id>, s: Redo, n: nat)
    ensures RedoAll(keep, s, n + 1) == RedoOne(keep, RedoAll(keep, s, n))
  {
  }

  lemma RoundTwo(keep: set<Id>, s0: Redo, s1: Redo, n: nat, l: seq<Id>, a: nat)
    requires s1 == RedoAll(keep, s0, n) && LazyList(s1.nxt, s1.head, l) && a < |l| && s1.p == Some(l[a])
    requires forall i :: 0 <= i < |l| ==> l[i] in keep
    ensures forall m :: n <= m < n + |l| - a ==> RedoAll(keep, s0, m).p.Some? && RedoAll(keep, s0, m).p.value in l
    ensures var s := RedoAll(keep, s0, n + (|l| - a));
      s.p.None? && Circle(s.nxt, s.head, Reverse(l[a..]) + l[..a], |l| - 1 - a)
  {
    hide RedoAll, Reverse, Circle;
    forall m | n <= m < n + |l| - a ensures RedoAll(keep, s0, m).p.Some? && RedoAll(keep, s0, m).p.value in l {
      RedoMore(keep, s0, n, m - n);
      if m > n { SecondRound(keep, l, a, s1, m - n); }
      if m == n { NoRounds(keep, s1); }
    }
    RedoMore(keep, s0, n, |l| - a);
    SecondRound(keep, l, a, s1, |l| - a);
    EndBack(keep, l, a, RedoAll(keep, s1, |l| - a));
  }

  lemma NoRounds(keep: set<Id>, s: Redo)
    ensures RedoAll(keep, s, 0) == s
  {
  }
}
