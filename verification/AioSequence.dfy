/** Sequencing of the operations on one AIO queue: the doubly linked list of active
    threads, and the wait that keeps appends and fsyncs in order. */
module AioSequence {

  datatype Operation = Read | Write | Sync

  /** The list members of `struct aio_thread`. */
  class Thread {
    const op: Operation
    var next: Thread?
    var prev: Thread?

    constructor (op: Operation)
      ensures this.op == op && next == null && prev == null
    {
      this.op := op;
      next, prev := null, null;
    }
  }

  class Queue {
    var head: Thread?
    ghost var list: seq<Thread>   // from head, latest insertion first

    ghost predicate Valid()
      reads this, list
    {
      (forall i, j :: 0 <= i < j < |list| ==> list[i] != list[j]) &&
      head == (if list == [] then null else list[0]) &&
      (forall i {:trigger list[i].prev} :: 0 <= i < |list| ==> list[i].prev == if i == 0 then null else list[i - 1]) &&
      (forall i {:trigger list[i].next} :: 0 <= i < |list| ==>
         list[i].next == if i == |list| - 1 then null else list[i + 1])
    }

    constructor ()
      ensures Valid() && list == []
    {
      head := null;
      list := [];
    }

    /** A worker puts itself at the head. */
    method Insert(at: Thread)
      requires Valid() && at !in list
      modifies this, at, list
      ensures Valid() && list == [at] + old(list)
    {
      at.prev := null;
      at.next := head;
      if at.next != null { at.next.prev := at; }
      head := at;
      list := [at] + list;
      assert forall i :: 1 <= i < |list| ==> list[i] == old(list)[i - 1];
    }

    /** A worker takes itself out, wherever it is. */
    method Unlink(at: Thread, ghost k: nat)
      requires Valid() && k < |list| && list[k] == at
      modifies this, list
      ensures Valid() && list == old(list)[..k] + old(list)[k + 1..]
    {
      if at.next != null { at.next.prev := at.prev; }
      if at.prev != null { at.prev.next := at.next; } else { head := at.next; }
      ghost var was := list;
      list := list[..k] + list[k + 1..];
      assert forall i :: 0 <= i < k ==> list[i] == was[i];
      assert forall i :: k <= i < |list| ==> list[i] == was[i + 1];
    }

    /** The scan of the wait loop: is a write still listed that was inserted earlier? */
    method EarlierWrite(at: Thread, ghost k: nat) returns (found: bool)
      requires Valid() && k < |list| && list[k] == at
      ensures found <==> exists i :: k < i < |list| && list[i].op == Write
    {
      var p := at.next;
      ghost var i := k + 1;
      while p != null && p.op != Write
        invariant k < i <= |list| && (p == null <==> i == |list|) && (i < |list| ==> p == list[i])
        invariant forall m :: k < m < i ==> list[m].op != Write
        decreases |list| - i
      {
        p := p.next;
        i := i + 1;
      }
      found := p != null;
    }
  }
}

/** The protocol on that list. Every access to it is made under the queue's lock, so
    each critical section is one atomic step. */
module AioOrder {
  import opened AioSequence
  import opened Collections

  type Worker = nat

  datatype Phase = Waiting | Executing | Cancelled | Left

  /** `list` is the list above, latest first. `append` is decided by the first worker.
      `order` and `starts` are histories: insertions and starts of I/O so far. */
  datatype State = State(
    append: bool,
    list: seq<Worker>,
    op: map<Worker, Operation>,
    phase: map<Worker, Phase>,
    order: seq<Worker>,
    starts: seq<Worker>)

  /** The part of the list that `at.next` leads to. */
  function After(list: seq<Worker>, w: Worker): seq<Worker> {
    if list == [] then [] else if list[0] == w then list[1..] else After(list[1..], w)
  }

  function Without(list: seq<Worker>, w: Worker): seq<Worker> {
    if list == [] then [] else if list[0] == w then list[1..] else [list[0]] + Without(list[1..], w)
  }

  predicate NoWrite(s: State, ws: seq<Worker>) {
    forall v :: v in ws ==> v in s.op && s.op[v] != Write
  }

  predicate Sequenced(s: State, w: Worker)
    requires w in s.op
  {
    s.op[w] != Read && (s.op[w] != Write || s.append)
  }

  datatype Action =
    | Insert(w: Worker, op: Operation, seekable: bool, appending: bool)
    | Begin(w: Worker)      // past the wait loop, unlock, do the I/O
    | Cancel(w: Worker)     // cancelled while waiting
    | Leave(w: Worker)      // cleanup: out of the list

  predicate Enabled(s: State, a: Action) {
    match a
    case Insert(w, _, _, _) => w !in s.op && w !in s.phase
    case Begin(w) => w in s.op && w in s.phase && s.phase[w] == Waiting &&
      (Sequenced(s, w) ==> NoWrite(s, After(s.list, w)))
    case Cancel(w) => w in s.phase && s.phase[w] == Waiting
    case Leave(w) => w in s.phase && (s.phase[w] == Executing || s.phase[w] == Cancelled)
  }

  function Apply(s: State, a: Action): State
    requires Enabled(s, a)
  {
    match a
    case Insert(w, op, seekable, appending) =>
      s.(append := if s.order == [] then !seekable || appending else s.append,
         list := [w] + s.list, op := s.op[w := op], phase := s.phase[w := Waiting], order := s.order + [w])
    case Begin(w) => s.(phase := s.phase[w := Executing], starts := s.starts + [w])
    case Cancel(w) => s.(phase := s.phase[w := Cancelled])
    case Leave(w) => s.(phase := s.phase[w := Left], list := Without(s.list, w))
  }

  ghost predicate Step(s: State, s': State) {
    exists a :: Enabled(s, a) && s' == Apply(s, a)
  }

  ghost predicate Run(tr: seq<State>) {
    tr != [] && tr[0] == State(false, [], map[], map[], [], []) &&
    forall k :: 0 <= k < |tr| - 1 ==> Step(tr[k], tr[k + 1])
  }

  // ----- the inductive invariant

  /** The members of `order` that are still listed, latest first. */
  function Listed(order: seq<Worker>, phase: map<Worker, Phase>): seq<Worker> {
    if order == [] then []
    else
      var rest := Listed(order[..|order| - 1], phase);
      var w := order[|order| - 1];
      if w in phase && phase[w] == Left then rest else [w] + rest
  }

  ghost predicate Bookkeeping(s: State) {
    NoDup(s.order) && s.list == Listed(s.order, s.phase) &&
    s.op.Keys == s.phase.Keys && (forall w :: w in s.op <==> w in s.order)
  }

  ghost predicate StartsOk(s: State) {
    NoDup(s.starts) &&
    (forall w :: w in s.starts ==> w in s.phase && (s.phase[w] == Executing || s.phase[w] == Left)) &&
    (forall w :: w in s.phase && s.phase[w] == Executing ==> w in s.starts)
  }

  /** Once a sequenced operation has started, every write inserted before it has left. */
  ghost predicate InOrder(s: State) {
    forall i, j :: 0 <= i < j < |s.order| ==> EarlierLeft(s, s.order[i], s.order[j])
  }

  predicate EarlierLeft(s: State, v: Worker, w: Worker) {
    v in s.op && w in s.op && v in s.phase && s.op[v] == Write && Sequenced(s, w) && w in s.starts ==>
      s.phase[v] == Left
  }

  ghost predicate Inv(s: State) {
    Bookkeeping(s) && StartsOk(s) && InOrder(s)
  }

  lemma {:induction false} ListedMembers(order: seq<Worker>, phase: map<Worker, Phase>)
    ensures forall w :: w in Listed(order, phase) <==> w in order && !(w in phase && phase[w] == Left)
  {
    if order != [] {
      ListedMembers(order[..|order| - 1], phase);
      assert order == order[..|order| - 1] + [order[|order| - 1]];
    }
  }

  /** What `next` leads to from a listed worker is exactly the still listed ones that
      were inserted before it. */
  lemma {:induction false} AfterIsEarlier(order: seq<Worker>, phase: map<Worker, Phase>, i: nat)
    requires NoDup(order) && i < |order| && !(order[i] in phase && phase[order[i]] == Left)
    ensures After(Listed(order, phase), order[i]) == Listed(order[..i], phase)
  {
    var m := |order| - 1;
    if i < m {
      assert order[..m][..i] == order[..i];
      AfterIsEarlier(order[..m], phase, i);
      var w := order[m];
      if !(w in phase && phase[w] == Left) {
        assert Listed(order, phase)[1..] == Listed(order[..m], phase);
      }
    }
  }

  lemma {:induction false} ListedSame(order: seq<Worker>, phase: map<Worker, Phase>, phase': map<Worker, Phase>)
    requires forall w :: w in order ==>
      (w in phase && phase[w] == Left <==> w in phase' && phase'[w] == Left)
    ensures Listed(order, phase') == Listed(order, phase)
  {
    if order != [] { ListedSame(order[..|order| - 1], phase, phase'); }
  }

  lemma {:induction false} UnlinkedListed(order: seq<Worker>, phase: map<Worker, Phase>, w: Worker)
    requires NoDup(order) && !(w in phase && phase[w] == Left)
    ensures Listed(order, phase[w := Left]) == Without(Listed(order, phase), w)
  {
    if order != [] {
      var m := |order| - 1;
      UnlinkedListed(order[..m], phase, w);
      if order[m] == w {
        ListedSame(order[..m], phase, phase[w := Left]);
        assert Listed(order, phase)[1..] == Listed(order[..m], phase);
      } else if !(order[m] in phase && phase[order[m]] == Left) {
        assert Listed(order, phase)[1..] == Listed(order[..m], phase);
      }
    }
  }

  lemma BookkeepingKept(s: State, a: Action)
    requires Bookkeeping(s) && Enabled(s, a)
    ensures Bookkeeping(Apply(s, a))
  {
    var s' := Apply(s, a);
    if a.Insert? {
      InsertBooked(s, a);
    } else {
      hide Listed, Without, NoDup;
      if a.Leave? {
        UnlinkedListed(s.order, s.phase, a.w);
      } else {
        ListedSame(s.order, s.phase, s'.phase);
      }
    }
  }

  lemma InsertBooked(s: State, a: Action)
    requires Bookkeeping(s) && Enabled(s, a) && a.Insert?
    ensures Bookkeeping(Apply(s, a))
  {
    var s' := Apply(s, a);
    assert s'.order[..|s.order|] == s.order;
    ListedSame(s.order, s.phase, s'.phase);
  }

  lemma StartsKept(s: State, a: Action)
    requires StartsOk(s) && Enabled(s, a)
    ensures StartsOk(Apply(s, a))
  {
  }

  lemma InOrderKept(s: State, a: Action)
    requires Inv(s) && Enabled(s, a)
    ensures InOrder(Apply(s, a))
  {
    var s' := Apply(s, a);
    forall i, j | 0 <= i < j < |s'.order| ensures EarlierLeft(s', s'.order[i], s'.order[j]) {
      var v, w := s'.order[i], s'.order[j];
      if a.Insert? && j == |s.order| {
        assert w !in s.starts;
      } else {
        assert EarlierLeft(s, v, w);
        if a == Begin(w) && Sequenced(s, w) {
          ListedMembers(s.order[..j], s.phase);
          AfterIsEarlier(s.order, s.phase, j);
          assert v in s.order[..j];
        }
      }
    }
  }

  // ----- what holds over every run

  lemma {:induction false} RunKeepsInv(tr: seq<State>, k: nat)
    requires Run(tr) && k < |tr|
    ensures Inv(tr[k])
  {
    if k > 0 {
      RunKeepsInv(tr, k - 1);
      assert Step(tr[k - 1], tr[k - 1 + 1]);
      var a :| Enabled(tr[k - 1], a) && tr[k] == Apply(tr[k - 1], a);
      BookkeepingKept(tr[k - 1], a);
      StartsKept(tr[k - 1], a);
      InOrderKept(tr[k - 1], a);
    }
  }

  /** The chain behind a listed worker: the operations inserted before it that have not
      left, whatever happened in between, and no others. */
  lemma ChainIsEarlierListed(tr: seq<State>, k: nat, i: nat, v: Worker)
    requires Run(tr) && k < |tr| && i < |tr[k].order|
    requires tr[k].order[i] in tr[k].phase && tr[k].phase[tr[k].order[i]] != Left
    ensures v in After(tr[k].list, tr[k].order[i]) <==>
      v in tr[k].order[..i] && v in tr[k].phase && tr[k].phase[v] != Left
  {
    RunKeepsInv(tr, k);
    AfterIsEarlier(tr[k].order, tr[k].phase, i);
    ListedMembers(tr[k].order[..i], tr[k].phase);
    if v in tr[k].order[..i] { assert v in tr[k].order; }
  }

  /** On a queue in append mode at most one write executes at a time. */
  lemma OneAppendAtATime(tr: seq<State>, k: nat, v: Worker, w: Worker)
    requires Run(tr) && k < |tr| && tr[k].append
    requires v in tr[k].phase && w in tr[k].phase && v in tr[k].op && w in tr[k].op
    requires tr[k].op[v] == tr[k].op[w] == Write && tr[k].phase[v] == tr[k].phase[w] == Executing
    ensures v == w
  {
    RunKeepsInv(tr, k);
    var s := tr[k];
    var i :| 0 <= i < |s.order| && s.order[i] == v;
    var j :| 0 <= j < |s.order| && s.order[j] == w;
    if i != j {
      assert false;  // the later of the two would have started with the earlier one gone
    }
  }

  /** An fsync that has started was preceded by the end of every write inserted before
      it; on a queue in append mode the same holds of a write. */
  lemma StartedAfterEarlierWrites(tr: seq<State>, k: nat, i: nat, j: nat)
    requires Run(tr) && k < |tr| && i < j < |tr[k].order|
    requires var v, w := tr[k].order[i], tr[k].order[j];
      v in tr[k].op && w in tr[k].op && v in tr[k].phase &&
      tr[k].op[v] == Write && w in tr[k].starts && (tr[k].op[w] == Sync || (tr[k].op[w] == Write && tr[k].append))
    ensures tr[k].phase[tr[k].order[i]] == Left
  {
    RunKeepsInv(tr, k);
    assert EarlierLeft(tr[k], tr[k].order[i], tr[k].order[j]);
  }
}
