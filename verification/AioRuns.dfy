/** What the sequencing of an AIO queue comes to, said of the steps that workers take. */
module AioRuns {
  import opened AioSequence
  import opened AioOrder
  import opened Collections

  /** A run, with its steps. */
  ghost predicate Trace(tr: seq<State>, acts: seq<Action>) {
    |tr| == |acts| + 1 && tr[0] == State(false, [], map[], map[], [], []) &&
    forall k :: 0 <= k < |acts| ==> Taken(tr[k], acts[k], tr[k + 1])
  }

  ghost predicate Taken(s: State, a: Action, s': State) { Enabled(s, a) && s' == Apply(s, a) }

  lemma TraceIsRun(tr: seq<State>, acts: seq<Action>)
    requires Trace(tr, acts)
    ensures Run(tr)
  {
    hide Enabled, Apply;
    forall k | 0 <= k < |tr| - 1 ensures Step(tr[k], tr[k + 1]) { assert Taken(tr[k], acts[k], tr[k + 1]); }
  }

  // ----- histories

  /** `a` is among the first `k` steps. */
  ghost predicate Did(acts: seq<Action>, k: nat, a: Action) { exists i :: 0 <= i < k && i < |acts| && acts[i] == a }

  /** Step `i` puts worker `w` on the list, for an operation `o`. */
  predicate Puts(acts: seq<Action>, i: int, w: Worker, o: Operation) {
    0 <= i < |acts| && acts[i].Insert? && acts[i].w == w && acts[i].op == o
  }

  /** Worker `w` has been put on the list for an operation `o`, in the first `k` steps. */
  ghost predicate Put(acts: seq<Action>, k: nat, w: Worker, o: Operation) { exists i :: 0 <= i < k && Puts(acts, i, w, o) }

  lemma DidNext(acts: seq<Action>, k: nat, a: Action)
    requires k < |acts|
    ensures Did(acts, k + 1, a) <==> Did(acts, k, a) || acts[k] == a
  {
    if Did(acts, k, a) {
      var i :| 0 <= i < k && i < |acts| && acts[i] == a;
      assert 0 <= i < k + 1;
    }
  }

  lemma PutNext(acts: seq<Action>, k: nat, w: Worker, o: Operation)
    requires k < |acts|
    ensures Put(acts, k + 1, w, o) <==> Put(acts, k, w, o) || Puts(acts, k, w, o)
  {
    if Put(acts, k, w, o) {
      var i :| 0 <= i < k && Puts(acts, i, w, o);
      assert 0 <= i < k + 1;
    }
  }

  /** The state says of a worker what its steps have been. */
  ghost predicate Told(s: State, acts: seq<Action>, k: nat, w: Worker) {
    (forall o :: w in s.op && s.op[w] == o <==> Put(acts, k, w, o)) && (w in s.phase <==> w in s.op) &&
    (w in s.phase && s.phase[w] == Left <==> Did(acts, k, Leave(w))) &&
    (w in s.phase && s.phase[w] == Executing <==> Did(acts, k, Begin(w)) && !Did(acts, k, Leave(w))) &&
    (w in s.phase && s.phase[w] == Cancelled <==> Did(acts, k, Cancel(w)) && !Did(acts, k, Leave(w)))
  }

  lemma ToldNext(acts: seq<Action>, k: nat, s: State, s': State, w: Worker)
    requires k < |acts| && Told(s, acts, k, w) && Taken(s, acts[k], s')
    ensures Told(s', acts, k + 1, w)
  {
    hide Did, Put;
    DidNext(acts, k, Leave(w));
    DidNext(acts, k, Begin(w));
    DidNext(acts, k, Cancel(w));
    var n := k + 1;
    forall o ensures w in s'.op && s'.op[w] == o <==> Put(acts, n, w, o) { PutNext(acts, k, w, o); }
  }

  lemma {:induction false} StateTells(tr: seq<State>, acts: seq<Action>, k: nat, w: Worker)
    requires Trace(tr, acts) && k < |tr|
    ensures Told(tr[k], acts, k, w)
  {
    if k > 0 {
      StateTells(tr, acts, k - 1, w);
      assert Taken(tr[k - 1], acts[k - 1], tr[k - 1 + 1]);
      hide Told;
      ToldNext(acts, k - 1, tr[k - 1], tr[k], w);
    }
  }

  /** Once started, twice started: never. */
  lemma {:induction false} OrderGrows(tr: seq<State>, acts: seq<Action>, k: nat, l: nat)
    requires Trace(tr, acts) && k <= l < |tr|
    ensures tr[k].order <= tr[l].order && tr[k].starts <= tr[l].starts
    decreases l - k
  {
    if k < l {
      OrderGrows(tr, acts, k, l - 1);
      assert Taken(tr[l - 1], acts[l - 1], tr[l - 1 + 1]);
    }
  }

  /** The order of insertion is that of the steps. */
  lemma PutAt(tr: seq<State>, acts: seq<Action>, i: nat, w: Worker, o: Operation, l: nat)
    requires Trace(tr, acts) && Puts(acts, i, w, o) && i < l < |tr|
    ensures |tr[i].order| < |tr[l].order| && tr[l].order[|tr[i].order|] == w
    ensures w in tr[l].op && tr[l].op[w] == o && w in tr[l].phase
  {
    assert Taken(tr[i], acts[i], tr[i + 1]);
    assert tr[i + 1].order == tr[i].order + [w];
    OrderGrows(tr, acts, i + 1, l);
    StateTells(tr, acts, l, w);
    assert Put(acts, l, w, o);
  }

  lemma BegunAt(tr: seq<State>, acts: seq<Action>, p: nat, w: Worker, l: nat)
    requires Trace(tr, acts) && p < |acts| && acts[p] == Begin(w) && p < l < |tr|
    ensures |tr[p].starts| < |tr[l].starts| && tr[l].starts[|tr[p].starts|] == w
  {
    assert Taken(tr[p], acts[p], tr[p + 1]);
    assert tr[p + 1].starts == tr[p].starts + [w];
    OrderGrows(tr, acts, p + 1, l);
  }

  // ----- the mode of the queue

  /** Step `i` is the first to put a worker on the list. */
  ghost predicate FirstPut(acts: seq<Action>, i: nat) {
    i < |acts| && acts[i].Insert? && forall m :: 0 <= m < i ==> !acts[m].Insert?
  }

  /** The descriptor is for appending: it cannot seek, or was opened so. */
  predicate ForAppending(a: Action)
    requires a.Insert?
  {
    !a.seekable || a.appending
  }

  /** The first worker decides the mode of the queue for good. */
  lemma {:induction false} ModeIsDecided(tr: seq<State>, acts: seq<Action>, i: nat, k: nat)
    requires Trace(tr, acts) && FirstPut(acts, i) && k < |tr|
    ensures (tr[k].order == [] <==> k <= i) && (k > i ==> tr[k].append == ForAppending(acts[i]))
  {
    if k > 0 {
      ModeIsDecided(tr, acts, i, k - 1);
      assert Taken(tr[k - 1], acts[k - 1], tr[k - 1 + 1]);
    }
  }

  // ----- the theorems

  /** Worker `w` is executing after the first `k` steps. */
  ghost predicate Executes(acts: seq<Action>, k: nat, w: Worker) { Did(acts, k, Begin(w)) && !Did(acts, k, Leave(w)) }

  /** On a descriptor for appending at most one write executes at a time. */
  lemma AppendsExclude(tr: seq<State>, acts: seq<Action>, i: nat, k: nat, v: Worker, w: Worker)
    requires Trace(tr, acts) && FirstPut(acts, i) && ForAppending(acts[i]) && k < |tr|
    requires Put(acts, k, v, Write) && Put(acts, k, w, Write) && Executes(acts, k, v) && Executes(acts, k, w)
    ensures v == w
  {
    TraceIsRun(tr, acts);
    StateTells(tr, acts, k, v);
    StateTells(tr, acts, k, w);
    ModeIsDecided(tr, acts, i, k);
    assert k > i by {
      var j :| 0 <= j < k && Puts(acts, j, v, Write);
      assert !(j < i);
    }
    OneAppendAtATime(tr, k, v, w);
  }

  /** An fsync, and on a descriptor for appending a write, begins only after every write put
      on the list before it has left. */
  lemma BeginsAfterEarlierWrites(tr: seq<State>, acts: seq<Action>, i: nat, j: nat, v: Worker, w: Worker, o: Operation, q: nat,
                                 first: nat)
    requires Trace(tr, acts) && FirstPut(acts, first) && Puts(acts, i, v, Write) && Puts(acts, j, w, o) && i < j
    requires q < |acts| && acts[q] == Begin(w) && (o == Sync || (o == Write && ForAppending(acts[first])))
    ensures Did(acts, q, Leave(v))
  {
    TraceIsRun(tr, acts);
    BeganLater(tr, acts, j, w, o, q);
    var n := q + 1;
    PutAt(tr, acts, i, v, Write, n);
    PutAt(tr, acts, j, w, o, n);
    BegunAt(tr, acts, q, w, n);
    ModeIsDecided(tr, acts, first, n);
    OrderGrows(tr, acts, i + 1, j);
    assert Taken(tr[i], acts[i], tr[i + 1]);
    StartedAfterEarlierWrites(tr, n, |tr[i].order|, |tr[j].order|);
    StateTells(tr, acts, n, v);
    DidNext(acts, q, Leave(v));
  }

  /** A worker begins after it was put on the list. */
  lemma BeganLater(tr: seq<State>, acts: seq<Action>, j: nat, w: Worker, o: Operation, q: nat)
    requires Trace(tr, acts) && Puts(acts, j, w, o) && q < |acts| && acts[q] == Begin(w)
    ensures j < q
  {
    assert Taken(tr[q], acts[q], tr[q + 1]) && Taken(tr[j], acts[j], tr[j + 1]);
    StateTells(tr, acts, q, w);
    StateTells(tr, acts, j, w);
    assert !Did(acts, j, Begin(w));
    assert j <= q;
  }

  lemma DidLater(acts: seq<Action>, k: nat, l: nat, a: Action)
    requires k <= l && Did(acts, k, a)
    ensures Did(acts, l, a)
  {
    var i :| 0 <= i < k && i < |acts| && acts[i] == a;
    assert 0 <= i < l;
  }

  /** On a descriptor for appending writes begin in the order in which they were put on the
      list. */
  lemma AppendsBeginInOrder(tr: seq<State>, acts: seq<Action>, first: nat, i: nat, j: nat, v: Worker, w: Worker, p: nat, q: nat)
    requires Trace(tr, acts) && FirstPut(acts, first) && ForAppending(acts[first])
    requires Puts(acts, i, v, Write) && Puts(acts, j, w, Write) && i < j
    requires p < |acts| && q < |acts| && acts[p] == Begin(v) && acts[q] == Begin(w)
    ensures p < q
  {
    BeginsAfterEarlierWrites(tr, acts, i, j, v, w, Write, q, first);
    assert Taken(tr[p], acts[p], tr[p + 1]);
    StateTells(tr, acts, p, v);
    if q <= p { DidLater(acts, q, p, Leave(v)); }
  }

  /** Of a worker that is on the list and has neither begun nor been cancelled: it can begin
      if it reads, or writes at its own offset, and otherwise exactly if every write put on
      the list before it has left. */
  lemma CanBegin(tr: seq<State>, acts: seq<Action>, first: nat, j: nat, w: Worker, o: Operation, k: nat)
    requires Trace(tr, acts) && FirstPut(acts, first) && Puts(acts, j, w, o) && j < k < |tr|
    requires !Did(acts, k, Begin(w)) && !Did(acts, k, Cancel(w))
    ensures Enabled(tr[k], Begin(w)) <==>
      o == Read || (o == Write && !ForAppending(acts[first])) ||
      forall i, v :: 0 <= i < j && Puts(acts, i, v, Write) ==> Did(acts, k, Leave(v))
  {
    hide Did;
    TraceIsRun(tr, acts);
    PutAt(tr, acts, j, w, o, k);
    StateTells(tr, acts, k, w);
    NotLeft(tr, acts, k, w);
    ModeIsDecided(tr, acts, first, k);
    var s, n := tr[k], |tr[j].order|;
    if Sequenced(s, w) {
      forall v ensures v in After(s.list, w) <==> v in s.order[..n] && v in s.phase && s.phase[v] != Left {
        ChainIsEarlierListed(tr, k, n, v);
      }
      ListedAreWrites(tr, acts, j, w, o, k);
    }
  }

  lemma NotLeft(tr: seq<State>, acts: seq<Action>, k: nat, w: Worker)
    requires Trace(tr, acts) && k < |tr| && !Did(acts, k, Begin(w)) && !Did(acts, k, Cancel(w))
    ensures !Did(acts, k, Leave(w))
  {
    if Did(acts, k, Leave(w)) {
      var i :| 0 <= i < k && i < |acts| && acts[i] == Leave(w);
      assert Taken(tr[i], acts[i], tr[i + 1]);
      StateTells(tr, acts, i, w);
      if Did(acts, i, Begin(w)) { DidLater(acts, i, k, Begin(w)); }
      if Did(acts, i, Cancel(w)) { DidLater(acts, i, k, Cancel(w)); }
      assert false;
    }
  }

  /** When a worker may be put on the list, be cancelled, and leave. */
  lemma CanAct(tr: seq<State>, acts: seq<Action>, k: nat, w: Worker, o: Operation, seekable: bool, appending: bool)
    requires Trace(tr, acts) && k < |tr|
    ensures Enabled(tr[k], Insert(w, o, seekable, appending)) <==> forall p :: !Put(acts, k, w, p)
    ensures Enabled(tr[k], Cancel(w)) <==>
      (exists p :: Put(acts, k, w, p)) && !Did(acts, k, Begin(w)) && !Did(acts, k, Cancel(w))
    ensures Enabled(tr[k], Leave(w)) <==> (Did(acts, k, Begin(w)) || Did(acts, k, Cancel(w))) && !Did(acts, k, Leave(w))
  {
    hide Did, Put, Trace;
    StateTells(tr, acts, k, w);
    var s := tr[k];
    if w in s.op { assert Put(acts, k, w, s.op[w]); }
    if !Did(acts, k, Begin(w)) && !Did(acts, k, Cancel(w)) { NotLeft(tr, acts, k, w); }
  }

  /** The writes still ahead of a worker. */
  lemma ListedAreWrites(tr: seq<State>, acts: seq<Action>, j: nat, w: Worker, o: Operation, k: nat)
    requires Trace(tr, acts) && Puts(acts, j, w, o) && j < k < |tr|
    requires |tr[j].order| <= |tr[k].order|
    requires forall v :: v in After(tr[k].list, w) <==>
      v in tr[k].order[..|tr[j].order|] && v in tr[k].phase && tr[k].phase[v] != Left
    ensures NoWrite(tr[k], After(tr[k].list, w)) <==>
      forall i, v :: 0 <= i < j && Puts(acts, i, v, Write) ==> Did(acts, k, Leave(v))
  {
    hide Did;
    var s, n := tr[k], |tr[j].order|;
    OrderGrows(tr, acts, j, k);
    assert s.order[..n] == tr[j].order;
    TraceIsRun(tr, acts);
    RunKeepsInv(tr, k);
    if NoWrite(s, After(s.list, w)) {
      forall i, v | 0 <= i < j && Puts(acts, i, v, Write) ensures Did(acts, k, Leave(v)) {
        PutAt(tr, acts, i, v, Write, k);
        PutAt(tr, acts, i, v, Write, j);
        StateTells(tr, acts, k, v);
      }
    } else {
      var v :| v in After(s.list, w) && !(v in s.op && s.op[v] != Write);
      assert v in tr[j].order && v in s.order;
      StateTells(tr, acts, k, v);
      var i := OrderFrom(tr, acts, j, v);
      var o' :| Puts(acts, i, v, o');
      PutAt(tr, acts, i, v, o', k);
    }
  }

  lemma {:induction false} OrderFrom(tr: seq<State>, acts: seq<Action>, k: nat, v: Worker) returns (i: nat)
    requires Trace(tr, acts) && k < |tr| && v in tr[k].order
    ensures i < k && exists o :: Puts(acts, i, v, o)
  {
    assert Taken(tr[k - 1], acts[k - 1], tr[k - 1 + 1]);
    if v in tr[k - 1].order {
      i := OrderFrom(tr, acts, k - 1, v);
    } else {
      i := k - 1;
      assert Puts(acts, i, v, acts[i].op);
    }
  }
}
