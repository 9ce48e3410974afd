/** What a call of `__aio_get_queue` gives its caller, that queues are not leaked, and that
    the two kinds of lock do not deadlock. */
module QueueCalls {
  import opened AioLifetime
  import opened Wrappers

  datatype Move = Move(t: Tid, c: Choice)

  /** A run, with its steps. */
  ghost predicate Trace(tr: seq<State>, ms: seq<Move>) {
    |tr| == |ms| + 1 && tr[0] == Initial && forall k :: 0 <= k < |ms| ==> Taken(tr[k], ms[k], tr[k + 1])
  }

  predicate Taken(s: State, m: Move, s': State) { Next(s, m.t, m.c) == Some(s') }

  lemma TraceIsRun(tr: seq<State>, ms: seq<Move>)
    requires Trace(tr, ms)
    ensures Run(tr)
  {
    hide Next;
    forall k | 0 <= k < |tr| - 1 ensures Step(tr[k], tr[k + 1]) { assert Taken(tr[k], ms[k], tr[k + 1]); }
  }

  lemma Nth(tr: seq<State>, ms: seq<Move>, k: nat)
    requires Trace(tr, ms) && k < |ms|
    ensures Taken(tr[k], ms[k], tr[k + 1]) && Inv(tr[k])
  {
    hide Next, Inv;
    TraceIsRun(tr, ms);
    RunKeepsInv(tr, k);
  }

  // ----- the queue is the one asked for

  predicate Of(s: State, q: Qid, fd: Fd) { q in s.queues && s.queues[q].fd == fd }

  /** The points of a submission (`need`) or a cancellation for `fd`. */
  predicate Fits(pc: Pc, fd: Fd, need: bool) {
    match pc
    case Idle => true
    case WantRead(f, n) => f == fd && n == need
    case Reading(f, n) => f == fd && n == need
    case FoundR(_, n) => n == need
    case LockedR(_, n) => n == need
    case Missed => !need
    case MissedNeed(f) => need && f == fd
    case WantWrite(f) => need && f == fd
    case Writing(f) => need && f == fd
    case Cancelling(_) => !need
    case Worker(_) => false
    case WorkerLocked(_) => false
    case _ => need
  }

  /** At every point of a call, the queue is the one of the descriptor asked for. */
  ghost predicate CallOk(s: State, pc: Pc, fd: Fd, need: bool) {
    Fits(pc, fd, need) && forall q :: Points(pc, q) ==> Of(s, q, fd)
  }

  /** Step `k` begins a call of `t` that has not ended after `l` steps. */
  ghost predicate CallSpan(tr: seq<State>, ms: seq<Move>, t: Tid, k: nat, l: nat) {
    k < l < |tr| && k < |ms| && ms[k].t == t && At(tr[k], t) == Idle && forall m :: k < m <= l ==> At(tr[m], t) != Idle
  }

  lemma OfKept(s: State, m: Move, s': State, q: Qid, fd: Fd)
    requires Taken(s, m, s') && Of(s, q, fd)
    ensures q in s'.queues ==> Of(s', q, fd)
  {
    hide Code;
  }

  lemma OtherStays(s: State, m: Move, s': State, t: Tid)
    requires Taken(s, m, s') && m.t != t && At(s, t) != Idle
    ensures At(s', t) == At(s, t)
  {
    hide Code, Do;
  }

  /** Every pointer a step leaves is to a live queue. */
  lemma PointsLive(s: State, m: Move, s': State, t: Tid, q: Qid)
    requires Inv(s) && Taken(s, m, s') && Points(At(s', t), q)
    ensures q in s'.queues
  {
    StepKeepsInv(s, m.t, m.c);
    hide Next, LocksOk, TableOk, RefsOk, CountOk;
  }

  lemma CodeFits(s: State, pc: Pc, c: Choice, fd: Fd, need: bool)
    requires Code(s, pc, c).Some? && Fits(pc, fd, need) && pc != Idle
    ensures Fits(Code(s, pc, c).value.1, fd, need)
  {
  }

  lemma CodeQueue(s: State, pc: Pc, c: Choice, fd: Fd, need: bool, q: Qid)
    requires Code(s, pc, c).Some? && Fits(pc, fd, need) && pc != Idle && Points(Code(s, pc, c).value.1, q)
    ensures Points(pc, q) || (fd in s.table && s.table[fd] == q) || Code(s, pc, c).value.0 == Insert(fd, q)
  {
  }

  lemma CallMoves(s: State, m: Move, s': State, fd: Fd, need: bool)
    requires Inv(s) && Taken(s, m, s') && CallOk(s, At(s, m.t), fd, need) && At(s, m.t) != Idle
    ensures CallOk(s', At(s', m.t), fd, need)
  {
    hide Code, Fits, Points, LocksOk, PointersOk, RefsOk, CountOk, Mapped, Alone;
    var pc, pc' := At(s, m.t), At(s', m.t);
    var op := Code(s, pc, m.c).value.0;
    CodeFits(s, pc, m.c, fd, need);
    forall q | Points(pc', q) ensures Of(s', q, fd) {
      PointsLive(s, m, s', m.t, q);
      CodeQueue(s, pc, m.c, fd, need, q);
      if op == Insert(fd, q) { DoTable(s, m.t, op); } else { OfKept(s, m, s', q, fd); }
    }
  }

  /** In every run, from its first step to its last, a submission or cancellation for a
      descriptor deals only with the queue of that descriptor. */
  lemma {:induction false} QueueAskedFor(tr: seq<State>, ms: seq<Move>, t: Tid, k: nat, l: nat)
    requires Trace(tr, ms) && CallSpan(tr, ms, t, k, l)
    ensures CallOk(tr[l], At(tr[l], t), ms[k].c.fd, ms[k].c.need)
  {
    hide Next, Inv, Points, Fits;
    Nth(tr, ms, l - 1);
    if l == k + 1 {
      FirstStep(tr[k], ms[k], tr[l]);
    } else {
      assert At(tr[l - 1], t) != Idle;
      QueueAskedFor(tr, ms, t, k, l - 1);
      if ms[l - 1].t == t {
        CallMoves(tr[l - 1], ms[l - 1], tr[l], ms[k].c.fd, ms[k].c.need);
      } else {
        CallStays(tr[l - 1], ms[l - 1], tr[l], t, ms[k].c.fd, ms[k].c.need);
      }
    }
  }

  lemma FirstStep(s: State, m: Move, s': State)
    requires Taken(s, m, s') && At(s, m.t) == Idle
    ensures At(s', m.t) == WantRead(m.c.fd, m.c.need) && CallOk(s', At(s', m.t), m.c.fd, m.c.need)
  {
  }

  lemma CallStays(s: State, m: Move, s': State, t: Tid, fd: Fd, need: bool)
    requires Inv(s) && Taken(s, m, s') && m.t != t && CallOk(s, At(s, t), fd, need) && At(s, t) != Idle
    ensures CallOk(s', At(s', t), fd, need)
  {
    OtherStays(s, m, s', t);
    hide Next, Inv, Points, Fits;
    forall q | Points(At(s', t), q) ensures Of(s', q, fd) {
      PointsLive(s, m, s', t, q);
      OfKept(s, m, s', q, fd);
    }
  }

  /** A queue of `fd` that no thread has taken out of the map to free it. */
  ghost predicate Lives(s: State, q: Qid, fd: Fd) {
    Of(s, q, fd) && !exists u: Tid :: Gone(At(s, u)) && Points(At(s, u), q)
  }

  lemma LivesIff(s: State, q: Qid, fd: Fd)
    requires TableOk(s)
    ensures Lives(s, q, fd) <==> fd in s.table && s.table[fd] == q
  {
    if q in s.queues && !Mapped(s, q) {
      var u: Tid :| Gone(At(s, u)) && Points(At(s, u), q);
    }
    if u: Tid :| Gone(At(s, u)) && Points(At(s, u), q) {
      assert !Mapped(s, q);
    }
  }

  /** A descriptor has at most one queue apart from those being freed. */
  lemma OneQueue(tr: seq<State>, ms: seq<Move>, k: nat, q: Qid, r: Qid, fd: Fd)
    requires Trace(tr, ms) && k < |tr| && Lives(tr[k], q, fd) && Lives(tr[k], r, fd)
    ensures q == r
  {
    TraceIsRun(tr, ms);
    RunKeepsInv(tr, k);
    hide Run, Trace, LocksOk, PointersOk, RefsOk, CountOk, TableOk, Lives;
    LivesIff(tr[k], q, fd);
    LivesIff(tr[k], r, fd);
  }

  /** What the first look at the map finds: the queue of the descriptor, and nothing exactly
      if there is none. */
  lemma FirstLook(tr: seq<State>, ms: seq<Move>, k: nat, fd: Fd, need: bool)
    requires Trace(tr, ms) && k < |ms| && At(tr[k], ms[k].t) == Reading(fd, need)
    ensures var pc := At(tr[k + 1], ms[k].t);
      if exists q :: Lives(tr[k], q, fd) then pc.FoundR? && pc.need == need && Lives(tr[k], pc.q, fd)
      else pc == if need then MissedNeed(fd) else Missed
    ensures tr[k + 1].queues == tr[k].queues && tr[k + 1].table == tr[k].table
  {
    Nth(tr, ms, k);
    hide Trace, LocksOk, PointersOk, RefsOk, CountOk, TableOk, Lives;
    forall q ensures Lives(tr[k], q, fd) <==> fd in tr[k].table && tr[k].table[fd] == q { LivesIff(tr[k], q, fd); }
    if fd in tr[k].table { assert Lives(tr[k], tr[k].table[fd], fd); }
  }

  /** What the second look does: unless something fails it finds the queue of the descriptor,
      one that appeared since the first look, or makes it. */
  lemma SecondLook(tr: seq<State>, ms: seq<Move>, k: nat, fd: Fd)
    requires Trace(tr, ms) && k < |ms| && At(tr[k], ms[k].t) == Writing(fd)
    ensures var pc := At(tr[k + 1], ms[k].t);
      if ms[k].c.fail then pc == Failed && tr[k + 1].queues == tr[k].queues
      else if exists q :: Lives(tr[k], q, fd) then
        pc.FoundW? && Lives(tr[k], pc.q, fd) && tr[k + 1].queues == tr[k].queues
      else
        pc.Created? && pc.q !in tr[k].queues && tr[k + 1].queues == tr[k].queues[pc.q := Queue(fd, 0, None)]
  {
    Nth(tr, ms, k);
    hide Trace, LocksOk, PointersOk, RefsOk, CountOk, TableOk, Lives;
    forall q ensures Lives(tr[k], q, fd) <==> fd in tr[k].table && tr[k].table[fd] == q { LivesIff(tr[k], q, fd); }
    if fd in tr[k].table { assert Lives(tr[k], tr[k].table[fd], fd); }
  }

  /** A submission ends without having had a reference only if something failed. */
  lemma EndsOnFailure(tr: seq<State>, ms: seq<Move>, k: nat)
    requires Trace(tr, ms) && k < |ms| && At(tr[k], ms[k].t) != Idle && !HoldsRef(At(tr[k], ms[k].t))
    ensures var pc, pc' := At(tr[k], ms[k].t), At(tr[k + 1], ms[k].t);
      (pc' == Failed ==> ms[k].c.fail) &&
      (pc' == Idle ==> pc == Missed || pc.Cancelling? || pc == Failed || pc.Dropped? || (pc.MissedNeed? && ms[k].c.fail))
  {
    Nth(tr, ms, k);
    hide Inv, Trace;
  }

  /** A worker is given the queue that its submission got. */
  lemma WorkerGetsQueue(tr: seq<State>, ms: seq<Move>, t: Tid, k: nat, l: nat, u: Tid)
    requires Trace(tr, ms) && CallSpan(tr, ms, t, k, l) && l < |ms| && ms[l].t == t
    requires At(tr[l], u) == Idle && At(tr[l + 1], u) != Idle
    ensures At(tr[l + 1], u).Worker? && Of(tr[l + 1], At(tr[l + 1], u).q, ms[k].c.fd)
  {
    QueueAskedFor(tr, ms, t, k, l);
    Nth(tr, ms, l);
    assert At(tr[l], t) != Idle;
    hide Trace, Inv, CallSpan, Code, Do, Fits;
    assert Points(At(tr[l], t), At(tr[l], t).q);
    OfKept(tr[l], ms[l], tr[l + 1], At(tr[l], t).q, ms[k].c.fd);
    PointsLive(tr[l], ms[l], tr[l + 1], u, At(tr[l + 1], u).q);
  }

  // ----- no queue is leaked

  /** Between making a queue and counting the first reference to it. */
  predicate Making(pc: Pc, q: Qid) { pc == Created(q) || pc == FoundW(q) || pc == LockedW(q) || pc == Got(q) }

  ghost predicate Wanted(s: State, q: Qid) {
    q in s.queues && s.queues[q].ref == 0 ==> exists t: Tid :: Making(At(s, t), q)
  }

  lemma CodeMakes(s: State, pc: Pc, c: Choice, q: Qid)
    requires Code(s, pc, c).Some?
    ensures var (op, pc') := Code(s, pc, c).value;
      (op.Insert? && op.q == q ==> Making(pc', q)) && (Making(pc, q) ==> Making(pc', q) || op == RefUp(q))
  {
    if Making(pc, q) {
      match pc
      case Created(_) =>
      case FoundW(_) =>
      case LockedW(_) =>
      case Got(_) =>
    } else {
      CodeGone(s, pc, c);
      hide Code;
    }
  }

  lemma CodeDrops(s: State, pc: Pc, c: Choice)
    requires Code(s, pc, c).Some? && Code(s, pc, c).value.0.RefDown?
    ensures var q := Code(s, pc, c).value.0.q; q in s.queues && s.queues[q].ref != 1
  {
  }

  lemma DoRef(s: State, t: Tid, op: Op, q: Qid)
    requires Do(s, t, op).Some? && q in Do(s, t, op).value.queues
    ensures op.Insert? && op.q == q ==> Do(s, t, op).value.queues[q].ref == 0
    ensures !(op.Insert? && op.q == q) ==> q in s.queues
    ensures !(op.Insert? && op.q == q) ==>
      Do(s, t, op).value.queues[q].ref == s.queues[q].ref + (if op == RefUp(q) then 1 else if op == RefDown(q) then -1 else 0)
  {
  }

  lemma WantedKept(s: State, m: Move, s': State, q: Qid)
    requires Taken(s, m, s') && Wanted(s, q)
    ensures Wanted(s', q)
  {
    if q in s'.queues && s'.queues[q].ref == 0 {
      hide Code, Do;
      var pc := At(s, m.t);
      var op := Code(s, pc, m.c).value.0;
      CodeMakes(s, pc, m.c, q);
      if op.RefDown? { CodeDrops(s, pc, m.c); }
      DoRef(s, m.t, op, q);
      if op.Insert? && op.q == q {
        assert Making(At(s', m.t), q) by { NotSpawn(s, m, s'); }
      } else {
        var t: Tid :| Making(At(s, t), q);
        if t == m.t { NotSpawn(s, m, s'); } else { OtherStays(s, m, s', t); }
        assert Making(At(s', t), q);
      }
    }
  }

  lemma NotSpawn(s: State, m: Move, s': State)
    requires Taken(s, m, s')
    ensures At(s', m.t) == Code(s, At(s, m.t), m.c).value.1
  {
    hide Code, Do;
  }

  lemma {:induction false} AlwaysWanted(tr: seq<State>, ms: seq<Move>, k: nat, q: Qid)
    requires Trace(tr, ms) && k < |tr|
    ensures Wanted(tr[k], q)
  {
    if k > 0 {
      hide Next, Inv, Wanted;
      AlwaysWanted(tr, ms, k - 1, q);
      Nth(tr, ms, k - 1);
      WantedKept(tr[k - 1], ms[k - 1], tr[k], q);
    }
  }

  /** Every queue there is has a thread that holds a reference to it or has just obtained it,
      and so will give it up and in the end free it. When no call and no worker is left there
      is no queue, the map is empty and `aio_fd_cnt` is zero. */
  lemma NoneLeaked(tr: seq<State>, ms: seq<Move>, k: nat, q: Qid)
    requires Trace(tr, ms) && k < |tr|
    ensures q in tr[k].queues ==> exists t: Tid :: At(tr[k], t) != Idle && Points(At(tr[k], t), q)
    ensures (forall t: Tid :: At(tr[k], t) == Idle) ==> q !in tr[k].queues && |tr[k].table| == 0 && tr[k].count == 0
  {
    forall r | r in tr[k].queues ensures exists t: Tid :: At(tr[k], t) != Idle && Points(At(tr[k], t), r) {
      HasUser(tr, ms, k, r);
    }
    TraceIsRun(tr, ms);
    RunKeepsInv(tr, k);
    if forall t: Tid :: At(tr[k], t) == Idle {
      assert tr[k].queues.Keys == {};
      assert tr[k].table.Keys == {};
    }
  }

  lemma HasUser(tr: seq<State>, ms: seq<Move>, k: nat, q: Qid)
    requires Trace(tr, ms) && k < |tr| && q in tr[k].queues
    ensures exists t: Tid :: At(tr[k], t) != Idle && Points(At(tr[k], t), q)
  {
    AlwaysWanted(tr, ms, k, q);
    TraceIsRun(tr, ms);
    RunKeepsInv(tr, k);
    hide Run, Trace, LocksOk, PointersOk, TableOk, CountOk;
    var s := tr[k];
    if s.queues[q].ref == 0 {
      var t: Tid :| Making(At(s, t), q);
      assert Points(At(s, t), q);
    } else {
      assert |Holders(s, q)| > 0;
      var t :| t in Holders(s, q);
      assert At(s, t) == s.threads[t] && Points(At(s, t), q);
    }
  }

  /** Someone else has a reference. */
  ghost predicate Shared(s: State, t: Tid, q: Qid) {
    exists u: Tid :: u != t && HoldsRef(At(s, u)) && Points(At(s, u), q)
  }

  lemma HolderIff(s: State, u: Tid, q: Qid)
    ensures u in Holders(s, q) <==> HoldsRef(At(s, u)) && Points(At(s, u), q)
  {
    assert !HoldsRef(Idle);
  }

  lemma SharedIff(s: State, t: Tid, q: Qid)
    requires RefsOk(s) && q in s.queues && HoldsRef(At(s, t)) && Points(At(s, t), q)
    ensures s.queues[q].ref > 0
    ensures Shared(s, t, q) <==> s.queues[q].ref > 1
  {
    hide HoldsRef, Points;
    HolderIff(s, t, q);
    var rest := Holders(s, q) - {t};
    assert Holders(s, q) == rest + {t};
    if u: Tid :| u != t && HoldsRef(At(s, u)) && Points(At(s, u), q) {
      HolderIff(s, u, q);
      assert u in rest;
    }
    if rest != {} {
      var u :| u in rest;
      HolderIff(s, u, q);
    }
  }

  /** A reference is given up at once while someone else has one, and otherwise with the map
      locked, where the queue is taken out exactly if still nobody else has one. */
  lemma LastOneFrees(tr: seq<State>, ms: seq<Move>, k: nat, q: Qid)
    requires Trace(tr, ms) && k < |ms|
    ensures var t := ms[k].t;
      (At(tr[k], t) == Unref(q) ==>
        At(tr[k + 1], t) == if Shared(tr[k], t, q) then Dropped(q) else UnrefWantWrite(q)) &&
      (At(tr[k], t) == UnrefBoth(q) ==>
        At(tr[k + 1], t) == if Shared(tr[k], t, q) then Kept(q) else Unmapped(q))
  {
    Nth(tr, ms, k);
    var s, t := tr[k], ms[k].t;
    if At(s, t) == Unref(q) || At(s, t) == UnrefBoth(q) {
      assert Points(At(s, t), q);
      hide LocksOk, TableOk, CountOk, Trace, Shared, Next, Code;
      NotSpawn(s, ms[k], tr[k + 1]);
      SharedIff(s, t, q);
      CodeUnref(s, At(s, t), ms[k].c, q);
    }
  }

  lemma CodeUnref(s: State, pc: Pc, c: Choice, q: Qid)
    requires q in s.queues && s.queues[q].ref > 0 && (pc == Unref(q) || pc == UnrefBoth(q))
    ensures Code(s, pc, c).Some?
    ensures Code(s, pc, c).value.1 ==
      if pc == Unref(q) then if s.queues[q].ref > 1 then Dropped(q) else UnrefWantWrite(q)
      else if s.queues[q].ref > 1 then Kept(q) else Unmapped(q)
  {
  }

  // ----- no deadlock

  /** Points whose next operation may have to wait. */
  predicate Waits(pc: Pc) {
    match pc
    case WantRead(_, _) | FoundR(_, _) | WantWrite(_) | FoundW(_) | Worker(_) | Leaving(_) |
         UnrefWantWrite(_) | UnrefWantLock(_) => true
    case _ => false
  }

  /** A thread in the middle of something can go on, with nothing failing. */
  ghost predicate CanMove(s: State, t: Tid) {
    At(s, t) != Idle && exists c: Choice :: !c.fail && Next(s, t, c).Some?
  }

  lemma {:induction false} Fresh(u: set<nat>) returns (n: nat)
    ensures forall x :: x in u ==> x < n
  {
    if u == {} {
      n := 0;
    } else {
      var x :| x in u;
      var m := Fresh(u - {x});
      n := if x < m then m else x + 1;
      forall y | y in u ensures y < n { assert y == x || y in u - {x}; }
    }
  }

  lemma CodeFree(s: State, pc: Pc, c: Choice)
    requires Code(s, pc, c).Some? && !Waits(pc) && pc != Idle
    ensures var op := Code(s, pc, c).value.0;
      !op.RdLock? && !op.WrLock? && !op.Lock? && (op.Insert? ==> op.q == c.q) &&
      (op.RefDown? ==> op.q in s.queues && (s.queues[op.q].ref > 1 || pc == UnrefBoth(op.q)))
  {
  }

  lemma FreeMoves(s: State, t: Tid)
    requires PointersOk(s) && RefsOk(s) && At(s, t) != Idle && !Waits(At(s, t))
    ensures CanMove(s, t)
  {
    var q := Fresh(s.queues.Keys);
    var w := Fresh(s.threads.Keys + {t});
    var c := Choice(0, false, false, q, w, false);
    var pc := At(s, t);
    RefCounted(s, t);
    CodeTargets(s, pc, c);
    hide RefsOk, Points, Waits, Code;
    CodeFree(s, pc, c);
    assert Next(s, t, c).Some?;
  }

  lemma RefCounted(s: State, t: Tid)
    requires RefsOk(s)
    ensures At(s, t).UnrefBoth? && At(s, t).q in s.queues ==> s.queues[At(s, t).q].ref > 0
  {
    if At(s, t).UnrefBoth? && At(s, t).q in s.queues {
      assert t in Holders(s, At(s, t).q);
    }
  }

  /** Who waits for a queue's lock waits for someone who can go on. */
  lemma LockMoves(s: State, t: Tid)
    requires LocksOk(s) && PointersOk(s) && RefsOk(s) && Waits(At(s, t))
    requires !At(s, t).WantRead? && !At(s, t).WantWrite? && !At(s, t).UnrefWantWrite?
    ensures exists u: Tid :: CanMove(s, u)
  {
    var pc := At(s, t);
    assert Points(pc, pc.q);
    match s.queues[pc.q].owner
    case None =>
      var c := Choice(0, false, false, 0, 0, false);
      assert Next(s, t, c).Some?;
      assert CanMove(s, t);
    case Some(u) =>
      hide Next, CanMove;
      assert OwnerOk(s, u, pc.q);
      FreeMoves(s, u);
  }

  /** Who waits for the map waits for someone who can go on. */
  lemma MapMoves(s: State, t: Tid)
    requires LocksOk(s) && PointersOk(s) && RefsOk(s)
    requires At(s, t).WantRead? || At(s, t).WantWrite? || At(s, t).UnrefWantWrite?
    ensures exists u: Tid :: CanMove(s, u)
  {
    if s.writer.Some? {
      var u := s.writer.value;
      assert HoldsWrite(At(s, u));
      hide CanMove, Next, LocksOk, PointersOk, RefsOk;
      if Waits(At(s, u)) { LockMoves(s, u); } else { FreeMoves(s, u); }
    } else if s.readers != {} && !At(s, t).WantRead? {
      var u :| u in s.readers;
      assert HoldsRead(At(s, u));
      hide CanMove, Next, LocksOk, PointersOk, RefsOk;
      if Waits(At(s, u)) { LockMoves(s, u); } else { FreeMoves(s, u); }
    } else {
      var c := Choice(0, false, false, 0, 0, false);
      hide LocksOk, PointersOk, RefsOk;
      assert Next(s, t, c).Some?;
      assert CanMove(s, t);
    }
  }

  /** In no run do the locks of the map and of the queues block everyone: while some call or
      worker is in the middle of something, one of them can go on. */
  lemma NoDeadlock(tr: seq<State>, ms: seq<Move>, k: nat, t: Tid)
    requires Trace(tr, ms) && k < |tr| && At(tr[k], t) != Idle
    ensures exists u: Tid :: CanMove(tr[k], u)
  {
    TraceIsRun(tr, ms);
    RunKeepsInv(tr, k);
    var pc := At(tr[k], t);
    hide Run, Trace, LocksOk, PointersOk, RefsOk, TableOk, CountOk, CanMove;
    if !Waits(pc) {
      FreeMoves(tr[k], t);
    } else if pc.WantRead? || pc.WantWrite? || pc.UnrefWantWrite? {
      MapMoves(tr[k], t);
    } else {
      LockMoves(tr[k], t);
    }
  }

  /** A bound on the steps that a call, or a worker's departure, has ahead. */
  function Ahead(pc: Pc): nat {
    match pc
    case Idle => 0
    case WantRead(_, _) => 21
    case Reading(_, _) => 20
    case MissedNeed(_) => 19
    case WantWrite(_) => 18
    case Writing(_) => 17
    case Created(_) => 16
    case FoundW(_) => 15
    case FoundR(_, _) => 15
    case LockedW(_) => 14
    case LockedR(_, _) => 14
    case Got(_) => 13
    case Counted(_) => 12
    case Spawning(_) => 11
    case Worker(_) => 10
    case WorkerLocked(_) => 10
    case Leaving(_) => 9
    case Unref(_) => 8
    case UnrefWantWrite(_) => 7
    case UnrefWantLock(_) => 6
    case UnrefBoth(_) => 5
    case Unmapped(_) => 4
    case Uncounted(_) => 3
    case Dying(_) => 2
    case Kept(_) => 2
    case _ => 1
  }

  lemma CodeEnds(s: State, pc: Pc, c: Choice)
    requires Code(s, pc, c).Some? && pc != Idle && !pc.WorkerLocked? && (pc.Worker? ==> c.done)
    ensures Ahead(Code(s, pc, c).value.1) < Ahead(pc)
  {
  }

  lemma CodeLoops(s: State, pc: Pc, c: Choice)
    requires Code(s, pc, c).Some?
    ensures var pc' := Code(s, pc, c).value.1;
      (pc == Idle ==> pc' == WantRead(c.fd, c.need)) && (pc.WorkerLocked? ==> pc' == Worker(pc.q)) &&
      (pc.Worker? && !c.done ==> pc' == WorkerLocked(pc.q))
  {
  }

  /** Every step of a call brings it nearer to its end; so does every step of a worker that
      has done its work. */
  lemma CallEnds(tr: seq<State>, ms: seq<Move>, k: nat)
    requires Trace(tr, ms) && k < |ms|
    ensures var pc, pc' := At(tr[k], ms[k].t), At(tr[k + 1], ms[k].t);
      if pc == Idle then pc'.WantRead?
      else if pc.WorkerLocked? then pc' == Worker(pc.q)
      else if pc.Worker? && !ms[k].c.done then pc' == WorkerLocked(pc.q)
      else Ahead(pc') < Ahead(pc)
  {
    Nth(tr, ms, k);
    NotSpawn(tr[k], ms[k], tr[k + 1]);
    hide Inv, Trace, Next, Code, Ahead;
    var pc, c := At(tr[k], ms[k].t), ms[k].c;
    assert Code(tr[k], pc, c).Some? by { TakenSome(tr[k], ms[k], tr[k + 1]); }
    CodeLoops(tr[k], pc, c);
    if pc != Idle && !pc.WorkerLocked? && (pc.Worker? ==> c.done) { CodeEnds(tr[k], pc, c); }
  }

  lemma TakenSome(s: State, m: Move, s': State)
    requires Taken(s, m, s')
    ensures Code(s, At(s, m.t), m.c).Some?
  {
    hide Code, Do;
  }
}
