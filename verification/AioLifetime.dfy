/** Reference counting, locking and destruction of AIO queues: `__aio_get_queue`,
    `__aio_unref_queue`, and the way `submit`, the workers and `aio_cancel` use them.

    Acquiring a lock, releasing one, and every access to the map, to `aio_fd_cnt` or to
    a queue's `ref` is an atomic step, and the threads' steps interleave in any order.
 */
module AioLifetime {
  import opened Wrappers

  type Tid = nat
  type Qid = nat
  type Fd = nat

  datatype Queue = Queue(fd: Fd, ref: nat, owner: Option<Tid>)

  /** Where a thread is, with the queue pointer it holds there. `need` tells a submitter
      from a canceller. */
  datatype Pc =
    | Idle
    // __aio_get_queue
    | WantRead(fd: Fd, need: bool)
    | Reading(fd: Fd, need: bool)         // read lock held, map not yet looked at
    | FoundR(q: Qid, need: bool)          // read lock held, about to lock q
    | LockedR(q: Qid, need: bool)         // read lock and q's lock held
    | Missed                              // read lock held, nothing found, nothing needed
    | MissedNeed(fd: Fd)                  // read lock held, nothing found, one is needed
    | WantWrite(fd: Fd)
    | Writing(fd: Fd)                     // write lock held, about to look again
    | Created(q: Qid)                     // in the map, aio_fd_cnt not yet incremented
    | FoundW(q: Qid)                      // write lock held, about to lock q
    | LockedW(q: Qid)                     // write lock and q's lock held
    | Failed                              // write lock held, allocation failed
    // submit
    | Got(q: Qid)                         // q's lock held, reference not yet counted
    | Counted(q: Qid)                     // q's lock held, reference counted
    | Spawning(q: Qid)                    // reference held, thread not yet created
    // aio_cancel
    | Cancelling(q: Qid)                  // only q's lock held
    // io_thread_func and cleanup
    | Worker(q: Qid)                      // reference held, q not locked
    | WorkerLocked(q: Qid)                // reference and q's lock held
    | Leaving(q: Qid)                     // reference held, about to lock q for the last time
    // __aio_unref_queue
    | Unref(q: Qid)                       // reference and q's lock held
    | Dropped(q: Qid)                     // reference given up, q's lock still held
    | UnrefWantWrite(q: Qid)              // reference held, no lock
    | UnrefWantLock(q: Qid)               // reference and write lock held
    | UnrefBoth(q: Qid)                   // reference, write lock and q's lock held
    | Kept(q: Qid)                        // reference given up, both locks still held
    | Unmapped(q: Qid)                    // last reference, out of the map, not yet uncounted
    | Uncounted(q: Qid)                   // out of the map, both locks still held
    | Dying(q: Qid)                       // out of the map, q's lock still held
    | Doomed(q: Qid)                      // about to free q

  /** `table` is the four-level map, `count` is `aio_fd_cnt`. */
  datatype State = State(
    readers: set<Tid>,
    writer: Option<Tid>,
    table: map<Fd, Qid>,
    count: int,
    queues: map<Qid, Queue>,
    threads: map<Tid, Pc>)

  const Initial := State({}, None, map[], 0, map[], map[])

  function At(s: State, t: Tid): Pc {
    if t in s.threads then s.threads[t] else Idle
  }

  /** What a step does to the shared state. */
  datatype Op =
    | Nop
    | RdLock | RdUnlock | WrLock | WrUnlock   // maplock
    | Lock(q: Qid) | Unlock(q: Qid)           // the queue's mutex
    | Insert(fd: Fd, q: Qid)                  // a new queue enters the map
    | Remove(q: Qid)                          // a queue leaves the map
    | Inc | Dec                               // aio_fd_cnt
    | RefUp(q: Qid) | RefDown(q: Qid)
    | Release(q: Qid)                         // free(q)

  /** The choices that the code leaves to its surroundings: who is called, whether fcntl,
      allocation or pthread_create fails, the address of a new queue, the thread that
      becomes the worker, and whether a worker is done. */
  datatype Choice = Choice(fd: Fd, need: bool, fail: bool, q: Qid, worker: Tid, done: bool)

  /** The code: from a program point, the effect of the next step and the point reached.
      Nothing is defined for a queue that has been freed. */
  function Code(s: State, pc: Pc, c: Choice): Option<(Op, Pc)> {
    match pc
    case Idle => Some((Nop, WantRead(c.fd, c.need)))
    case WantRead(fd, need) => Some((RdLock, Reading(fd, need)))
    case Reading(fd, need) =>
      Some((Nop, if fd in s.table then FoundR(s.table[fd], need) else if need then MissedNeed(fd) else Missed))
    case FoundR(q, need) => Some((Lock(q), LockedR(q, need)))
    case LockedR(q, need) => Some((RdUnlock, if need then Got(q) else Cancelling(q)))
    case Missed => Some((RdUnlock, Idle))
    case MissedNeed(fd) => Some((RdUnlock, if c.fail then Idle else WantWrite(fd)))
    case WantWrite(fd) => Some((WrLock, Writing(fd)))
    case Writing(fd) =>
      if c.fail then Some((Nop, Failed))
      else if fd in s.table then Some((Nop, FoundW(s.table[fd])))
      else Some((Insert(fd, c.q), Created(c.q)))
    case Created(q) => Some((Inc, FoundW(q)))
    case FoundW(q) => Some((Lock(q), LockedW(q)))
    case LockedW(q) => Some((WrUnlock, Got(q)))
    case Failed => Some((WrUnlock, Idle))
    case Got(q) => Some((RefUp(q), Counted(q)))
    case Counted(q) => Some((Unlock(q), Spawning(q)))
    case Spawning(q) => Some((Nop, if c.fail then Leaving(q) else Idle))  // the worker takes over
    case Cancelling(q) => Some((Unlock(q), Idle))
    case Worker(q) => if c.done then Some((Nop, Leaving(q))) else Some((Lock(q), WorkerLocked(q)))
    case WorkerLocked(q) => Some((Unlock(q), Worker(q)))
    case Leaving(q) => Some((Lock(q), Unref(q)))
    case Unref(q) =>
      if q !in s.queues then None
      else if s.queues[q].ref > 1 then Some((RefDown(q), Dropped(q)))
      else Some((Unlock(q), UnrefWantWrite(q)))
    case Dropped(q) => Some((Unlock(q), Idle))
    case UnrefWantWrite(q) => Some((WrLock, UnrefWantLock(q)))
    case UnrefWantLock(q) => Some((Lock(q), UnrefBoth(q)))
    case UnrefBoth(q) =>
      if q !in s.queues then None
      else if s.queues[q].ref == 1 then Some((Remove(q), Unmapped(q)))
      else Some((RefDown(q), Kept(q)))
    case Kept(q) => Some((WrUnlock, Dropped(q)))
    case Unmapped(q) => Some((Dec, Uncounted(q)))
    case Uncounted(q) => Some((WrUnlock, Dying(q)))
    case Dying(q) => Some((Unlock(q), Doomed(q)))
    case Doomed(q) => Some((Release(q), Idle))
  }

  /** The effect of an operation by `t`, or nothing while `t` is blocked. */
  function Do(s: State, t: Tid, op: Op): Option<State> {
    match op
    case Nop => Some(s)
    case RdLock => if s.writer == None then Some(s.(readers := s.readers + {t})) else None
    case RdUnlock => Some(s.(readers := s.readers - {t}))
    case WrLock => if s.writer == None && s.readers == {} then Some(s.(writer := Some(t))) else None
    case WrUnlock => Some(s.(writer := None))
    case Lock(q) =>
      if q in s.queues && s.queues[q].owner == None
      then Some(s.(queues := s.queues[q := s.queues[q].(owner := Some(t))])) else None
    case Unlock(q) =>
      if q in s.queues then Some(s.(queues := s.queues[q := s.queues[q].(owner := None)])) else None
    case Insert(fd, q) =>
      if q !in s.queues
      then Some(s.(table := s.table[fd := q], queues := s.queues[q := Queue(fd, 0, None)])) else None
    case Remove(q) => if q in s.queues then Some(s.(table := s.table - {s.queues[q].fd})) else None
    case Inc => Some(s.(count := s.count + 1))
    case Dec => Some(s.(count := s.count - 1))
    case RefUp(q) =>
      if q in s.queues then Some(s.(queues := s.queues[q := s.queues[q].(ref := s.queues[q].ref + 1)])) else None
    case RefDown(q) =>
      if q in s.queues && s.queues[q].ref > 0
      then Some(s.(queues := s.queues[q := s.queues[q].(ref := s.queues[q].ref - 1)])) else None
    case Release(q) => Some(s.(queues := s.queues - {q}))
  }

  /** Thread `t` takes a step. A successful pthread_create also puts an idle thread to
      work on the queue. */
  function Next(s: State, t: Tid, c: Choice): Option<State> {
    match Code(s, At(s, t), c)
    case None => None
    case Some((op, pc)) =>
      match Do(s, t, op)
      case None => None
      case Some(s') =>
        if At(s, t).Spawning? && !c.fail then
          if c.worker != t && At(s, c.worker) == Idle
          then Some(s'.(threads := s.threads[c.worker := Worker(At(s, t).q)][t := pc])) else None
        else Some(s'.(threads := s.threads[t := pc]))
  }

  ghost predicate Step(s: State, s': State) {
    exists t, c :: Next(s, t, c) == Some(s')
  }

  ghost predicate Run(tr: seq<State>) {
    tr != [] && tr[0] == Initial && forall k :: 0 <= k < |tr| - 1 ==> Step(tr[k], tr[k + 1])
  }

  // ----- what the program points mean

  predicate Points(pc: Pc, q: Qid) {
    match pc
    case Idle | WantRead(_, _) | Reading(_, _) | Missed | MissedNeed(_) | WantWrite(_) | Writing(_) | Failed => false
    case _ => pc.q == q
  }

  predicate HoldsRef(pc: Pc) {
    match pc
    case Counted(_) | Spawning(_) | Worker(_) | WorkerLocked(_) | Leaving(_) | Unref(_) |
         UnrefWantWrite(_) | UnrefWantLock(_) | UnrefBoth(_) | Unmapped(_) | Uncounted(_) | Dying(_) |
         Doomed(_) => true
    case _ => false
  }

  /** The queue is out of the map and this thread is about to free it. */
  predicate Gone(pc: Pc) {
    match pc
    case Unmapped(_) | Uncounted(_) | Dying(_) | Doomed(_) => true
    case _ => false
  }

  predicate HoldsLock(pc: Pc) {
    match pc
    case LockedR(_, _) | LockedW(_) | Got(_) | Counted(_) | Cancelling(_) | WorkerLocked(_) |
         Unref(_) | Dropped(_) | UnrefBoth(_) | Kept(_) | Unmapped(_) | Uncounted(_) | Dying(_) => true
    case _ => false
  }

  predicate HoldsRead(pc: Pc) {
    match pc
    case Reading(_, _) | FoundR(_, _) | LockedR(_, _) | Missed | MissedNeed(_) => true
    case _ => false
  }

  predicate HoldsWrite(pc: Pc) {
    match pc
    case Writing(_) | Created(_) | FoundW(_) | LockedW(_) | Failed | UnrefWantLock(_) | UnrefBoth(_) |
         Kept(_) | Unmapped(_) | Uncounted(_) => true
    case _ => false
  }

  ghost function Holders(s: State, q: Qid): set<Tid> {
    set t | t in s.threads && HoldsRef(s.threads[t]) && Points(s.threads[t], q)
  }

  // ----- the inductive invariant

  ghost predicate LocksOk(s: State) {
    (forall t: Tid :: t in s.readers <==> HoldsRead(At(s, t))) &&
    (forall t: Tid :: s.writer == Some(t) <==> HoldsWrite(At(s, t))) &&
    (s.writer != None ==> s.readers == {}) &&
    (forall t: Tid, q: Qid :: q in s.queues ==> OwnerOk(s, t, q))
  }

  predicate OwnerOk(s: State, t: Tid, q: Qid)
    requires q in s.queues
  {
    s.queues[q].owner == Some(t) <==> HoldsLock(At(s, t)) && Points(At(s, t), q)
  }

  /** No pointer dangles. */
  ghost predicate PointersOk(s: State) {
    forall t: Tid, q: Qid :: Points(At(s, t), q) ==> q in s.queues
  }

  ghost predicate RefsOk(s: State) {
    forall q :: q in s.queues ==> s.queues[q].ref == |Holders(s, q)|
  }

  predicate Mapped(s: State, q: Qid) {
    q in s.queues && s.queues[q].fd in s.table && s.table[s.queues[q].fd] == q
  }

  /** The table holds exactly the queues that no thread has taken out for freeing, and
      a queue taken out is known to that thread only. */
  ghost predicate TableOk(s: State) {
    (forall fd :: fd in s.table ==> s.table[fd] in s.queues && s.queues[s.table[fd]].fd == fd) &&
    (forall q :: q in s.queues && !Mapped(s, q) ==> exists t: Tid :: Gone(At(s, t)) && Points(At(s, t), q)) &&
    (forall t: Tid, q: Qid :: Gone(At(s, t)) && Points(At(s, t), q) ==> !Mapped(s, q) && Alone(s, t, q))
  }

  ghost predicate Alone(s: State, t: Tid, q: Qid) {
    forall u: Tid :: Points(At(s, u), q) ==> u == t
  }

  /** How far `aio_fd_cnt` is off while the map's writer is at a program point. */
  function Debt(pc: Pc): int {
    match pc
    case Created(_) => -1
    case Unmapped(_) => 1
    case _ => 0
  }

  ghost predicate CountOk(s: State) {
    s.count == |s.table| + if s.writer.Some? then Debt(At(s, s.writer.value)) else 0
  }

  ghost predicate Inv(s: State) {
    LocksOk(s) && PointersOk(s) && RefsOk(s) && TableOk(s) && CountOk(s)
  }

  // ----- what one step changes

  /** How the locks a program point stands for follow from the code, point by point. */
  lemma CodeReads(s: State, pc: Pc, c: Choice)
    requires Code(s, pc, c).Some?
    ensures var (op, pc') := Code(s, pc, c).value;
      (op == RdLock ==> !HoldsRead(pc)) && (op == RdUnlock ==> HoldsRead(pc)) &&
      (HoldsRead(pc') <==> op == RdLock || (HoldsRead(pc) && op != RdUnlock))
  {
  }

  lemma CodeWrites(s: State, pc: Pc, c: Choice)
    requires Code(s, pc, c).Some?
    ensures var (op, pc') := Code(s, pc, c).value;
      (op == WrLock ==> !HoldsWrite(pc)) && (op == WrUnlock ==> HoldsWrite(pc)) &&
      (HoldsWrite(pc') <==> op == WrLock || (HoldsWrite(pc) && op != WrUnlock))
  {
  }

  lemma CodeOwner(s: State, pc: Pc, c: Choice, q: Qid)
    requires Code(s, pc, c).Some?
    ensures var (op, pc') := Code(s, pc, c).value;
      (op == Lock(q) ==> !(HoldsLock(pc) && Points(pc, q))) &&
      (op == Unlock(q) ==> HoldsLock(pc) && Points(pc, q)) &&
      (HoldsLock(pc') && Points(pc', q) <==> op == Lock(q) || (HoldsLock(pc) && Points(pc, q) && op != Unlock(q)))
  {
    CodeLocks(s, pc, c, q);
  }

  lemma CodeLocks(s: State, pc: Pc, c: Choice, q: Qid)
    requires Code(s, pc, c).Some?
    ensures var (op, _) := Code(s, pc, c).value;
      (op == Lock(q) ==> !(HoldsLock(pc) && Points(pc, q))) && (op == Unlock(q) ==> HoldsLock(pc) && Points(pc, q))
  {
  }

  lemma CodeRef(s: State, pc: Pc, c: Choice, q: Qid)
    requires Code(s, pc, c).Some? && !(pc.Spawning? && !c.fail)
    ensures var (op, pc') := Code(s, pc, c).value;
      (op == RefUp(q) ==> !(HoldsRef(pc) && Points(pc, q))) &&
      (op == RefDown(q) ==> HoldsRef(pc) && Points(pc, q)) &&
      (HoldsRef(pc') && Points(pc', q) <==>
        op == RefUp(q) || (HoldsRef(pc) && Points(pc, q) && op != RefDown(q) && op != Release(q)))
  {
    CodeRefOps(s, pc, c, q);
  }

  lemma CodeRefOps(s: State, pc: Pc, c: Choice, q: Qid)
    requires Code(s, pc, c).Some? && !(pc.Spawning? && !c.fail)
    ensures var (op, _) := Code(s, pc, c).value;
      (op == RefUp(q) ==> !(HoldsRef(pc) && Points(pc, q))) && (op == RefDown(q) ==> HoldsRef(pc) && Points(pc, q))
  {
  }

  lemma CodePoints(s: State, pc: Pc, c: Choice, q: Qid)
    requires Code(s, pc, c).Some? && TableOk(s)
    ensures var (op, pc') := Code(s, pc, c).value;
      Points(pc', q) ==> Points(pc, q) || Mapped(s, q) || (op.Insert? && op.q == q)
  {
  }

  /** `s'` is `s` after `t` moved from `pc` to `pc'` with effect `op`. */
  ghost predicate Moved(s: State, s': State, t: Tid, op: Op, pc: Pc, pc': Pc) {
    At(s, t) == pc && Do(s, t, op).Some? && s' == Do(s, t, op).value.(threads := s.threads[t := pc'])
  }

  lemma OwnerKept(s: State, s': State, t: Tid, c: Choice, op: Op, pc: Pc, pc': Pc, u: Tid, q: Qid)
    requires LocksOk(s) && PointersOk(s) && Code(s, pc, c) == Some((op, pc')) && Moved(s, s', t, op, pc, pc')
    requires q in s'.queues
    ensures OwnerOk(s', u, q)
  {
    hide Code, HoldsLock, Points, HoldsRead, HoldsWrite;
    CodeOwner(s, pc, c, q);
    if q in s.queues {
      assert OwnerOk(s, u, q) && OwnerOk(s, t, q);
    } else {
      assert !Points(At(s, u), q) && !Points(At(s, t), q);
    }
  }

  lemma MapLockKept(s: State, s': State, t: Tid, c: Choice, op: Op, pc: Pc, pc': Pc)
    requires LocksOk(s) && Code(s, pc, c) == Some((op, pc')) && Moved(s, s', t, op, pc, pc')
    ensures forall u: Tid :: u in s'.readers <==> HoldsRead(At(s', u))
    ensures forall u: Tid :: s'.writer == Some(u) <==> HoldsWrite(At(s', u))
    ensures s'.writer != None ==> s'.readers == {}
  {
    hide Code, HoldsRead, HoldsWrite, OwnerOk;
    CodeReads(s, pc, c);
    CodeWrites(s, pc, c);
    assert t in s.readers <==> HoldsRead(pc);
    assert s.writer == Some(t) <==> HoldsWrite(pc);
    forall u: Tid ensures u in s'.readers <==> HoldsRead(At(s', u)) {
      assert u != t ==> At(s', u) == At(s, u);
    }
    forall u: Tid ensures s'.writer == Some(u) <==> HoldsWrite(At(s', u)) {
      assert u != t ==> At(s', u) == At(s, u);
    }
  }

  lemma LocksKept(s: State, s': State, t: Tid, c: Choice, op: Op, pc: Pc, pc': Pc)
    requires LocksOk(s) && PointersOk(s) && Code(s, pc, c) == Some((op, pc')) && Moved(s, s', t, op, pc, pc')
    ensures LocksOk(s')
  {
    hide Code, HoldsRead, HoldsWrite, OwnerOk, Moved;
    MapLockKept(s, s', t, c, op, pc, pc');
    forall u: Tid, q: Qid | q in s'.queues ensures OwnerOk(s', u, q) {
      OwnerKept(s, s', t, c, op, pc, pc', u, q);
    }
  }

  lemma Toggle(h: set<Tid>, h': set<Tid>, t: Tid)
    requires forall u :: u != t ==> (u in h' <==> u in h)
    ensures |h'| == |h| + (if t in h' && t !in h then 1 else if t in h && t !in h' then -1 else 0)
  {
    if t in h' && t !in h {
      assert h' == h + {t};
    } else if t in h && t !in h' {
      assert h == h' + {t};
    } else {
      assert h' == h;
    }
  }

  lemma HoldersMove(s: State, s': State, t: Tid, q: Qid, pc: Pc, pc': Pc)
    requires At(s, t) == pc && s'.threads == s.threads[t := pc']
    ensures var before, after := HoldsRef(pc) && Points(pc, q), HoldsRef(pc') && Points(pc', q);
      |Holders(s', q)| == |Holders(s, q)| + (if after && !before then 1 else if before && !after then -1 else 0)
  {
    assert !HoldsRef(Idle);
    hide HoldsRef, Points;
    Toggle(Holders(s, q), Holders(s', q), t);
  }

  lemma RefsKept(s: State, s': State, t: Tid, c: Choice, op: Op, pc: Pc, pc': Pc)
    requires Inv(s) && Code(s, pc, c) == Some((op, pc')) && Moved(s, s', t, op, pc, pc') && !(pc.Spawning? && !c.fail)
    ensures RefsOk(s')
  {
    hide Code, HoldsRef, Points, LocksOk, TableOk, CountOk, Holders;
    forall q | q in s'.queues ensures s'.queues[q].ref == |Holders(s', q)| {
      CodeRef(s, pc, c, q);
      HoldersMove(s, s', t, q, pc, pc');
      if q !in s.queues {
        NoHolders(s, q);
      }
    }
  }

  lemma NoHolders(s: State, q: Qid)
    requires PointersOk(s) && q !in s.queues
    ensures Holders(s, q) == {}
  {
    assert forall t: Tid :: t in s.threads ==> At(s, t) == s.threads[t] && !Points(At(s, t), q);
  }

  lemma CodeGone(s: State, pc: Pc, c: Choice)
    requires Code(s, pc, c).Some?
    ensures var (op, pc') := Code(s, pc, c).value;
      (op.Release? ==> pc == Doomed(op.q) && pc' == Idle) && (op.Remove? ==> pc == UnrefBoth(op.q) && pc' == Unmapped(op.q)) &&
      (op.Insert? ==> pc == Writing(op.fd) && pc' == Created(op.q) && op.fd !in s.table) &&
      (Gone(pc') ==> op.Remove? || (Gone(pc) && pc'.q == pc.q)) &&
      (Gone(pc) ==> op.Release? || (Gone(pc') && pc'.q == pc.q))
  {
  }

  lemma GoneAlone(s: State, t: Tid, q: Qid, u: Tid)
    requires TableOk(s) && Gone(At(s, t)) && Points(At(s, t), q) && u != t
    ensures !Points(At(s, u), q) && !Mapped(s, q)
  {
    assert !Mapped(s, q) && Alone(s, t, q);
  }

  lemma DoQueues(s: State, t: Tid, op: Op)
    requires Do(s, t, op).Some?
    ensures var s' := Do(s, t, op).value;
      s'.threads == s.threads &&
      s'.queues.Keys == (if op.Release? then s.queues.Keys - {op.q}
                         else if op.Insert? then s.queues.Keys + {op.q} else s.queues.Keys)
    ensures var s' := Do(s, t, op).value;
      forall q :: q in s.queues && q in s'.queues ==> s'.queues[q].fd == s.queues[q].fd
    ensures op.Insert? ==> op.q !in s.queues
  {
  }

  lemma PointersKept(s: State, s': State, t: Tid, c: Choice, op: Op, pc: Pc, pc': Pc)
    requires PointersOk(s) && TableOk(s) && Code(s, pc, c) == Some((op, pc')) && Moved(s, s', t, op, pc, pc')
    ensures PointersOk(s')
  {
    DoQueues(s, t, op);
    CodeGone(s, pc, c);
    hide Code, Do, TableOk;
    forall u: Tid, q: Qid | Points(At(s', u), q) ensures q in s'.queues {
      if u == t {
        CodePoints(s, pc, c, q);
      } else {
        assert At(s', u) == At(s, u) && Points(At(s, u), q);
        if op == Release(q) {
          GoneAlone(s, t, q, u);
          assert false;
        }
      }
    }
  }

  /** A thread that knows a queue has a reference to it, or has it or the map locked. */
  lemma PointKinds(pc: Pc, q: Qid)
    requires Points(pc, q)
    ensures HoldsRef(pc) || HoldsRead(pc) || HoldsWrite(pc) || HoldsLock(pc)
  {
  }

  /** The heart of the matter: the thread that finds itself with the last reference,
      both locks in hand, is the only one that knows the queue. This counts an
      aio_cancel that holds no reference, only the queue's lock. */
  lemma LastReferenceAlone(s: State, t: Tid, q: Qid, u: Tid)
    requires LocksOk(s) && RefsOk(s) && At(s, t) == UnrefBoth(q) && q in s.queues && s.queues[q].ref == 1
    requires Points(At(s, u), q)
    ensures u == t
  {
    PointKinds(At(s, u), q);
    assert OwnerOk(s, t, q) && OwnerOk(s, u, q);
    assert HoldsWrite(At(s, t)) && s.writer == Some(t);
    if HoldsRef(At(s, u)) {
      OnlyMember(Holders(s, q), t, u);
    }
  }

  lemma OnlyMember(h: set<Tid>, t: Tid, u: Tid)
    requires |h| == 1 && t in h && u in h
    ensures u == t
  {
    assert |h - {t}| == 0;
    assert u !in h - {t};
  }

  /** A queue about to be taken out of the map is in it. */
  lemma RemoveMapped(s: State, t: Tid, q: Qid)
    requires TableOk(s) && At(s, t) == UnrefBoth(q) && q in s.queues
    ensures Mapped(s, q)
  {
    if !Mapped(s, q) {
      var u: Tid :| Gone(At(s, u)) && Points(At(s, u), q);
      assert u != t;
      GoneAlone(s, u, q, t);
      assert false;
    }
  }

  lemma DoTable(s: State, t: Tid, op: Op)
    requires Do(s, t, op).Some?
    ensures var s' := Do(s, t, op).value;
      s'.table == (if op.Insert? then s.table[op.fd := op.q]
                   else if op.Remove? then s.table - {s.queues[op.q].fd} else s.table)
    ensures op.Remove? ==> op.q in s.queues
    ensures op.Insert? ==> op.q in Do(s, t, op).value.queues && Do(s, t, op).value.queues[op.q].fd == op.fd
  {
  }

  /** Which queues are in the map, before and after a step. */
  lemma MappedChange(s: State, s': State, t: Tid, c: Choice, op: Op, pc: Pc, pc': Pc, q: Qid)
    requires TableOk(s) && Code(s, pc, c) == Some((op, pc')) && Moved(s, s', t, op, pc, pc') && q in s'.queues
    ensures Mapped(s', q) <==> (op.Insert? && op.q == q) || (Mapped(s, q) && op != Remove(q))
  {
    DoQueues(s, t, op);
    DoTable(s, t, op);
    CodeGone(s, pc, c);
    if op.Remove? { RemoveMapped(s, t, op.q); }
    hide Code, Do, Points, Gone;
  }

  lemma TableEntriesKept(s: State, s': State, t: Tid, c: Choice, op: Op, pc: Pc, pc': Pc, fd: Fd)
    requires TableOk(s) && Code(s, pc, c) == Some((op, pc')) && Moved(s, s', t, op, pc, pc') && fd in s'.table
    ensures s'.table[fd] in s'.queues && s'.queues[s'.table[fd]].fd == fd
  {
    DoQueues(s, t, op);
    DoTable(s, t, op);
    CodeGone(s, pc, c);
    hide Code, Do;
    if op.Release? {
      assert fd in s.table && s.table[fd] in s.queues;
      assert Gone(At(s, t)) && Points(At(s, t), op.q);
      assert !Mapped(s, op.q);
    }
  }

  lemma UnmappedGone(s: State, s': State, t: Tid, c: Choice, op: Op, pc: Pc, pc': Pc, q: Qid)
    requires TableOk(s) && Code(s, pc, c) == Some((op, pc')) && Moved(s, s', t, op, pc, pc')
    requires q in s'.queues && !Mapped(s', q)
    ensures exists u: Tid :: Gone(At(s', u)) && Points(At(s', u), q)
  {
    MappedChange(s, s', t, c, op, pc, pc', q);
    CodeGone(s, pc, c);
    DoQueues(s, t, op);
    hide Code, Do;
    if op == Remove(q) {
      assert Gone(At(s', t)) && Points(At(s', t), q);
    } else {
      assert q in s.queues && !Mapped(s, q);
      var u: Tid :| Gone(At(s, u)) && Points(At(s, u), q);
      assert u != t ==> At(s', u) == At(s, u);
      assert Gone(At(s', u)) && Points(At(s', u), q);
    }
  }

  lemma NewlyGone(s: State, s': State, t: Tid, c: Choice, pc: Pc, pc': Pc, q: Qid)
    requires Inv(s) && Code(s, pc, c) == Some((Remove(q), pc')) && Moved(s, s', t, Remove(q), pc, pc')
    ensures Alone(s', t, q)
  {
    UnrefLast(s, pc, c, q);
    hide Code, Do, TableOk, CountOk;
    forall u: Tid | Points(At(s', u), q) ensures u == t {
      if u != t {
        assert At(s', u) == At(s, u);
        LastReferenceAlone(s, t, q, u);
        assert false;
      }
    }
  }

  lemma StillGone(s: State, s': State, t: Tid, c: Choice, op: Op, pc: Pc, pc': Pc, v: Tid, q: Qid)
    requires PointersOk(s) && TableOk(s) && Code(s, pc, c) == Some((op, pc')) && Moved(s, s', t, op, pc, pc')
    requires Gone(At(s, v)) && Points(At(s, v), q)
    ensures Alone(s', v, q)
  {
    hide Code, Do, Points, Gone;
    CodePoints(s, pc, c, q);
    DoQueues(s, t, op);
    assert !Mapped(s, q) && Alone(s, v, q) && q in s.queues;
    hide TableOk, PointersOk, Mapped;
    forall u: Tid | Points(At(s', u), q) ensures u == v {
      assert u != t ==> At(s', u) == At(s, u);
    }
  }

  lemma GoneKept(s: State, s': State, t: Tid, c: Choice, op: Op, pc: Pc, pc': Pc, v: Tid, q: Qid)
    requires Inv(s) && Code(s, pc, c) == Some((op, pc')) && Moved(s, s', t, op, pc, pc')
    requires Gone(At(s', v)) && Points(At(s', v), q)
    ensures !Mapped(s', q) && Alone(s', v, q)
  {
    hide Code, Do, LocksOk, RefsOk, CountOk, PointersOk, TableOk, Alone, Mapped;
    CodeGone(s, pc, c);
    if q in s'.queues { MappedChange(s, s', t, c, op, pc, pc', q); }
    MappedInQueues(s', q);
    if v == t && op == Remove(q) {
      NewlyGone(s, s', t, c, pc, pc', q);
    } else {
      assert v != t ==> At(s', v) == At(s, v);
      assert Gone(At(s, v)) && Points(At(s, v), q);
      GoneAlone(s, v, q, v + 1);
      InsertFresh(s, t, op, v, q);
      StillGone(s, s', t, c, op, pc, pc', v, q);
    }
  }

  lemma MappedInQueues(s: State, q: Qid)
    ensures Mapped(s, q) ==> q in s.queues
  {
  }

  lemma InsertFresh(s: State, t: Tid, op: Op, v: Tid, q: Qid)
    requires PointersOk(s) && Do(s, t, op).Some? && Points(At(s, v), q)
    ensures op.Insert? ==> op.q != q
  {
  }

  lemma TableKept(s: State, s': State, t: Tid, c: Choice, op: Op, pc: Pc, pc': Pc)
    requires Inv(s) && Code(s, pc, c) == Some((op, pc')) && Moved(s, s', t, op, pc, pc')
    ensures TableOk(s')
  {
    hide Code, Moved, Mapped, Points, Gone, Alone, LocksOk, PointersOk, RefsOk, CountOk;
    forall fd | fd in s'.table ensures s'.table[fd] in s'.queues && s'.queues[s'.table[fd]].fd == fd {
      TableEntriesKept(s, s', t, c, op, pc, pc', fd);
    }
    forall q | q in s'.queues && !Mapped(s', q) ensures exists u: Tid :: Gone(At(s', u)) && Points(At(s', u), q) {
      UnmappedGone(s, s', t, c, op, pc, pc', q);
    }
    forall v: Tid, q: Qid | Gone(At(s', v)) && Points(At(s', v), q) ensures !Mapped(s', q) && Alone(s', v, q) {
      GoneKept(s, s', t, c, op, pc, pc', v, q);
    }
  }

  lemma CodeCounts(s: State, pc: Pc, c: Choice)
    requires Code(s, pc, c).Some?
    ensures var (op, pc') := Code(s, pc, c).value;
      (Debt(pc) != 0 || Debt(pc') != 0 ==> HoldsWrite(pc) && HoldsWrite(pc')) &&
      Debt(pc') == Debt(pc) + (if op.Insert? then -1 else if op.Inc? then 1 else if op.Remove? then 1
                               else if op.Dec? then -1 else 0)
  {
  }

  lemma DoCount(s: State, t: Tid, op: Op)
    requires Do(s, t, op).Some?
    ensures Do(s, t, op).value.count == s.count + if op.Inc? then 1 else if op.Dec? then -1 else 0
  {
  }

  /** The size of the map changes with the operations that change it. */
  lemma DoSize(s: State, t: Tid, c: Choice, op: Op, pc: Pc, pc': Pc)
    requires TableOk(s) && At(s, t) == pc && Code(s, pc, c) == Some((op, pc')) && Do(s, t, op).Some?
    ensures var s' := Do(s, t, op).value;
      |s'.table| == |s.table| + (if op.Insert? then 1 else if op.Remove? then -1 else 0) &&
      s'.count == s.count + (if op.Inc? then 1 else if op.Dec? then -1 else 0)
  {
    CodeGone(s, pc, c);
    DoTable(s, t, op);
    DoCount(s, t, op);
    hide Code, Do, Points, Gone;
    if op.Remove? {
      RemoveMapped(s, t, op.q);
      var fd := s.queues[op.q].fd;
      assert s.table == (s.table - {fd})[fd := op.q];
    }
  }

  lemma DoWriter(s: State, t: Tid, op: Op)
    requires Do(s, t, op).Some?
    ensures Do(s, t, op).value.writer ==
      if op.WrLock? then Some(t) else if op.WrUnlock? then None else s.writer
    ensures op.WrLock? ==> s.writer == None
  {
  }

  lemma WriterIs(s: State, t: Tid)
    requires LocksOk(s)
    ensures s.writer == Some(t) <==> HoldsWrite(At(s, t))
  {
  }

  lemma CountKept(s: State, s': State, t: Tid, c: Choice, op: Op, pc: Pc, pc': Pc)
    requires LocksOk(s) && TableOk(s) && CountOk(s)
    requires Code(s, pc, c) == Some((op, pc')) && Moved(s, s', t, op, pc, pc')
    ensures CountOk(s')
  {
    hide Code, Do, TableOk, LocksOk, Debt, HoldsWrite, HoldsRead;
    CodeCounts(s, pc, c);
    CodeWrites(s, pc, c);
    DoSize(s, t, c, op, pc, pc');
    DoWriter(s, t, op);
    WriterIs(s, t);
    assert s.writer.Some? && s.writer.value != t ==> At(s', s.writer.value) == At(s, s.writer.value);
  }

  lemma UnrefLast(s: State, pc: Pc, c: Choice, q: Qid)
    requires Code(s, pc, c).Some? && Code(s, pc, c).value.0 == Remove(q)
    ensures pc == UnrefBoth(q) && q in s.queues && s.queues[q].ref == 1
  {
  }

  /** pthread_create succeeded: the reference passes from the submitter to the worker. */
  ghost predicate Spawned(s: State, s': State, t: Tid, w: Tid, q: Qid) {
    At(s, t) == Spawning(q) && w != t && At(s, w) == Idle &&
    s' == s.(threads := s.threads[w := Worker(q)][t := Idle])
  }

  lemma SpawnPoints(s: State, s': State, t: Tid, w: Tid, q: Qid, u: Tid)
    requires Spawned(s, s', t, w, q)
    ensures HoldsRead(At(s', u)) == HoldsRead(At(s, u)) && HoldsWrite(At(s', u)) == HoldsWrite(At(s, u))
    ensures HoldsLock(At(s', u)) == HoldsLock(At(s, u)) && Gone(At(s', u)) == Gone(At(s, u))
    ensures HoldsLock(At(s', u)) || Gone(At(s', u)) ==> At(s', u) == At(s, u)
    ensures forall r :: Points(At(s', u), r) ==> Points(At(s, u), r) || (u == w && r == q)
  {
  }

  lemma SpawnRefs(s: State, s': State, t: Tid, w: Tid, q: Qid, r: Qid)
    requires Spawned(s, s', t, w, q)
    ensures |Holders(s', r)| == |Holders(s, r)|
  {
    if r == q {
      assert Holders(s', r) == Holders(s, r) - {t} + {w};
      assert t in Holders(s, r) && w !in Holders(s, r);
    } else {
      assert Holders(s', r) == Holders(s, r);
    }
  }

  lemma SpawnTable(s: State, s': State, t: Tid, w: Tid, q: Qid)
    requires TableOk(s) && Spawned(s, s', t, w, q)
    ensures TableOk(s')
  {
    forall u: Tid ensures Gone(At(s', u)) == Gone(At(s, u)) && (Gone(At(s', u)) ==> At(s', u) == At(s, u)) {
      SpawnPoints(s, s', t, w, q, u);
    }
    forall r | r in s'.queues && !Mapped(s', r) ensures exists u: Tid :: Gone(At(s', u)) && Points(At(s', u), r) {
      var u: Tid :| Gone(At(s, u)) && Points(At(s, u), r);
      assert Gone(At(s', u)) && Points(At(s', u), r);
    }
    forall v: Tid, r: Qid | Gone(At(s', v)) && Points(At(s', v), r) ensures !Mapped(s', r) && Alone(s', v, r) {
      assert Gone(At(s, v)) && Points(At(s, v), r) && !Mapped(s, r) && Alone(s, v, r);
      assert Points(At(s, t), q);
      forall u: Tid | Points(At(s', u), r) ensures u == v { SpawnPoints(s, s', t, w, q, u); }
    }
  }

  lemma SpawnLocks(s: State, s': State, t: Tid, w: Tid, q: Qid)
    requires LocksOk(s) && PointersOk(s) && Spawned(s, s', t, w, q)
    ensures LocksOk(s') && PointersOk(s')
  {
    assert Points(At(s, t), q);
    hide HoldsRead, HoldsWrite, HoldsLock, Points, Gone;
    forall u: Tid, r: Qid
      ensures r in s'.queues ==> OwnerOk(s', u, r)
      ensures Points(At(s', u), r) ==> r in s'.queues
    {
      SpawnPoints(s, s', t, w, q, u);
      if r in s'.queues { assert OwnerOk(s, u, r); }
    }
    forall u: Tid
      ensures HoldsRead(At(s', u)) == HoldsRead(At(s, u)) && HoldsWrite(At(s', u)) == HoldsWrite(At(s, u))
    {
      SpawnPoints(s, s', t, w, q, u);
    }
  }

  lemma SpawnKeepsInv(s: State, s': State, t: Tid, w: Tid, q: Qid)
    requires Inv(s) && Spawned(s, s', t, w, q)
    ensures Inv(s')
  {
    SpawnTable(s, s', t, w, q);
    SpawnLocks(s, s', t, w, q);
    if s.writer.Some? { WriterIs(s, s.writer.value); }
    hide TableOk, LocksOk, PointersOk;
    forall r | r in s'.queues ensures s'.queues[r].ref == |Holders(s', r)| { SpawnRefs(s, s', t, w, q, r); }
    if s.writer.Some? { assert At(s', s.writer.value) == At(s, s.writer.value); }
  }

  lemma StepKeepsInv(s: State, t: Tid, c: Choice)
    requires Inv(s) && Next(s, t, c).Some?
    ensures Inv(Next(s, t, c).value)
  {
    var s' := Next(s, t, c).value;
    var (op, pc') := Code(s, At(s, t), c).value;
    if At(s, t).Spawning? && !c.fail {
      SpawnKeepsInv(s, s', t, c.worker, At(s, t).q);
    } else {
      assert Moved(s, s', t, op, At(s, t), pc');
      hide Code, Do, LocksOk, RefsOk, CountOk, PointersOk, TableOk, Moved;
      LocksKept(s, s', t, c, op, At(s, t), pc');
      PointersKept(s, s', t, c, op, At(s, t), pc');
      RefsKept(s, s', t, c, op, At(s, t), pc');
      TableKept(s, s', t, c, op, At(s, t), pc');
      CountKept(s, s', t, c, op, At(s, t), pc');
    }
  }

  // ----- what holds over every run

  lemma {:induction false} RunKeepsInv(tr: seq<State>, k: nat)
    requires Run(tr) && k < |tr|
    ensures Inv(tr[k])
  {
    if k > 0 {
      RunKeepsInv(tr, k - 1);
      assert Step(tr[k - 1], tr[k - 1 + 1]);
      var t, c :| Next(tr[k - 1], t, c) == Some(tr[k]);
      StepKeepsInv(tr[k - 1], t, c);
    } else {
      assert forall q :: Holders(Initial, q) == {};
    }
  }

  /** No thread ever holds a pointer to a queue that has been freed, so every access the
      code makes to a queue is to a live one. */
  lemma NoUseAfterFree(tr: seq<State>, k: nat, t: Tid, c: Choice, q: Qid)
    requires Run(tr) && k < |tr|
    ensures Points(At(tr[k], t), q) ==> q in tr[k].queues
    ensures Code(tr[k], At(tr[k], t), c).Some?
    ensures var op := Code(tr[k], At(tr[k], t), c).value.0;
      (op.Lock? || op.Unlock? || op.RefUp? || op.RefDown? || op.Remove? || op.Release?) ==> op.q in tr[k].queues
  {
    RunKeepsInv(tr, k);
    hide LocksOk, RefsOk, TableOk, CountOk, Code, Points;
    CodeTargets(tr[k], At(tr[k], t), c);
  }

  /** Every queue the code touches is one its program point holds a pointer to. */
  lemma CodeTargets(s: State, pc: Pc, c: Choice)
    ensures Code(s, pc, c).None? ==> exists q :: Points(pc, q) && q !in s.queues
    ensures Code(s, pc, c).Some? ==> var op := Code(s, pc, c).value.0;
      (op.Lock? || op.Unlock? || op.RefUp? || op.RefDown? || op.Remove? || op.Release?) ==> Points(pc, op.q)
  {
    if Code(s, pc, c).None? { assert Points(pc, pc.q); }
  }

  /** `ref` is the number of submissions and workers that hold the queue. */
  lemma RefCountsHolders(tr: seq<State>, k: nat, q: Qid)
    requires Run(tr) && k < |tr| && q in tr[k].queues
    ensures tr[k].queues[q].ref == |Holders(tr[k], q)|
  {
    RunKeepsInv(tr, k);
  }

  /** When a queue is freed no other thread knows it, not even one that holds no
      reference, and the map does not lead to it. */
  lemma FreedUnknown(tr: seq<State>, k: nat, t: Tid, q: Qid, u: Tid, fd: Fd)
    requires Run(tr) && k < |tr| && At(tr[k], t) == Doomed(q) && u != t
    ensures !Points(At(tr[k], u), q)
    ensures fd in tr[k].table ==> tr[k].table[fd] != q
  {
    RunKeepsInv(tr, k);
    GoneAlone(tr[k], t, q, u);
  }

  /** The map leads only to live queues, each under its own descriptor, and to all of
      them but those a single thread is about to free. */
  lemma MapIsExact(tr: seq<State>, k: nat, fd: Fd, q: Qid)
    requires Run(tr) && k < |tr|
    ensures fd in tr[k].table ==> tr[k].table[fd] in tr[k].queues && tr[k].queues[tr[k].table[fd]].fd == fd
    ensures q in tr[k].queues ==>
      ((tr[k].queues[q].fd in tr[k].table && tr[k].table[tr[k].queues[q].fd] == q) <==>
       !exists t: Tid :: Gone(At(tr[k], t)) && Points(At(tr[k], t), q))
  {
    RunKeepsInv(tr, k);
    var s := tr[k];
    if t: Tid :| Gone(At(s, t)) && Points(At(s, t), q) {
      assert !Mapped(s, q);
    }
  }

  /** `aio_fd_cnt` is the number of queues in the map whenever the map is not locked
      for writing. */
  lemma CountIsExact(tr: seq<State>, k: nat)
    requires Run(tr) && k < |tr| && tr[k].writer == None
    ensures tr[k].count == |tr[k].table|
  {
    RunKeepsInv(tr, k);
  }
}
