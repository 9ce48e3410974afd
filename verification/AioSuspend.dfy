/** The wake-up handshakes between `aio_suspend` and the tail of a worker's `cleanup`.

    Each access to a shared word is one atomic step, and so is the kernel's
    compare-and-sleep. Every aiocb is submitted once (a waited-on aiocb is not
    resubmitted), and a thread is in at most one aio_suspend call at a time.
 */
module AioSuspend {
  import opened Collections

  type Cb = nat

  /** Thread ids are nonzero, since zero means that `__aio_fut` is not taken. */
  type Tid = t: nat | t > 0 witness 1

  /** The `__err` word of an aiocb: EINPROGRESS, EINPROGRESS with the sign bit that a
      single waiter sets, or a final error value. */
  datatype Err = InProgress | InProgressWaited | Finished

  /** Where a worker is: still working, about to wake the sleepers on its aiocb, about
      to swap `__aio_fut` to zero, about to wake the sleepers on it, or past all that. */
  datatype WorkerPc = Working | WakeErr | SwapFut | WakeFut | Gone

  datatype WaiterPc =
    | Count(n: nat)       // first pass: counting, and returning early
    | Scan(n: nat)        // the pass at the head of the retry loop
    | CasErr              // set the sign bit of the only aiocb
    | CasFut              // take __aio_fut or adopt its holder's token
    | Recheck(n: nat)     // the pass that follows
    | WaitErr | WaitFut   // about to compare and sleep
    | AsleepErr | AsleepFut | AsleepNone
    | Completed           // returned 0
    | GaveUp              // timed out or interrupted

  /** `cbs` holds the non-null entries of the array passed in. `token` is the value
      the waiter will sleep on. The last two fields are history: the number of times
      `__aio_fut` had been taken when the waiter last tried to take it, and whether
      that number was still current when it fell asleep. */
  datatype Waiter = Waiter(cbs: seq<Cb>, pc: WaiterPc, token: nat, seen: nat, inTime: bool)

  /** `taken` counts how often `__aio_fut` went from zero to a thread id. */
  datatype State = State(
    fut: nat,
    taken: nat,
    err: map<Cb, Err>,
    workers: map<Cb, WorkerPc>,
    waiters: map<Tid, Waiter>)

  const Initial := State(0, 0, map[], map[], map[])

  /** `aio_error(cb) != EINPROGRESS`; an aiocb never submitted counts as finished. */
  predicate Complete(s: State, cb: Cb) {
    cb in s.err ==> s.err[cb] == Finished
  }

  predicate Active(s: State, t: Tid) {
    t in s.waiters && s.waiters[t].pc != Completed && s.waiters[t].pc != GaveUp
  }

  function SetPc(s: State, t: Tid, pc: WaiterPc): State
    requires t in s.waiters
  {
    s.(waiters := s.waiters[t := s.waiters[t].(pc := pc)])
  }

  /** What a waiter does after a pass that found nothing complete. */
  function AfterScan(cbs: seq<Cb>): WaiterPc {
    if |cbs| == 0 then AsleepNone else if |cbs| == 1 then CasErr else CasFut
  }

  /** FUTEX_WAKE of every sleeper on one word. */
  function WakeAllErr(s: State, cb: Cb): State {
    s.(waiters := map t | t in s.waiters :: var w := s.waiters[t];
      if w.pc == AsleepErr && w.cbs == [cb] then w.(pc := Scan(0)) else w)
  }

  function WakeAllFut(s: State): State {
    s.(waiters := map t | t in s.waiters :: var w := s.waiters[t];
      if w.pc == AsleepFut then w.(pc := Scan(0)) else w)
  }

  datatype Action =
    | Submit(cb: Cb)
    | Finish(cb: Cb)            // a_swap(&cb->__err, at->err)
    | DoWakeErr(cb: Cb)
    | DoSwapFut(cb: Cb)         // a_swap(&__aio_fut, 0)
    | DoWakeFut(cb: Cb)
    | Suspend(t: Tid, cbs: seq<Cb>)
    | Check(t: Tid)             // one aio_error call of a pass, or the end of the pass
    | TryErr(t: Tid)
    | TryFut(t: Tid)
    | SleepErr(t: Tid)          // the kernel compares the word and maybe sleeps
    | SleepFut(t: Tid)
    | Leave(t: Tid)             // timeout, cancellation or signal while asleep
    | Spurious(t: Tid)          // woken for no reason

  predicate Enabled(s: State, a: Action) {
    match a
    case Submit(cb) => cb !in s.err && cb !in s.workers
    case Finish(cb) => cb in s.workers && s.workers[cb] == Working && cb in s.err
    case DoWakeErr(cb) => cb in s.workers && s.workers[cb] == WakeErr
    case DoSwapFut(cb) => cb in s.workers && s.workers[cb] == SwapFut
    case DoWakeFut(cb) => cb in s.workers && s.workers[cb] == WakeFut
    case Suspend(t, _) => !Active(s, t)
    case Check(t) => t in s.waiters &&
      (s.waiters[t].pc.Count? || s.waiters[t].pc.Scan? || s.waiters[t].pc.Recheck?)
    case TryErr(t) => t in s.waiters && s.waiters[t].pc == CasErr && |s.waiters[t].cbs| == 1
    case TryFut(t) => t in s.waiters && s.waiters[t].pc == CasFut
    case SleepErr(t) => t in s.waiters && s.waiters[t].pc == WaitErr && |s.waiters[t].cbs| == 1
    case SleepFut(t) => t in s.waiters && s.waiters[t].pc == WaitFut
    case Leave(t) => t in s.waiters && s.waiters[t].pc in {AsleepErr, AsleepFut, AsleepNone}
    case Spurious(t) => t in s.waiters && s.waiters[t].pc in {AsleepErr, AsleepFut, AsleepNone}
  }

  function CheckNext(s: State, w: Waiter): WaiterPc
    requires w.pc.Count? || w.pc.Scan? || w.pc.Recheck?
  {
    if w.pc.n < |w.cbs| then
      if Complete(s, w.cbs[w.pc.n]) then Completed
      else
        match w.pc
        case Count(n) => Count(n + 1)
        case Scan(n) => Scan(n + 1)
        case Recheck(n) => Recheck(n + 1)
    else
      match w.pc
      case Count(_) => Scan(0)
      case Scan(_) => AfterScan(w.cbs)
      case Recheck(_) => WaitFut
  }

  function Apply(s: State, a: Action): State
    requires Enabled(s, a)
  {
    match a
    case Submit(cb) => s.(err := s.err[cb := InProgress], workers := s.workers[cb := Working])
    case Finish(cb) =>
      s.(err := s.err[cb := Finished],
         workers := s.workers[cb := if s.err[cb] != InProgress then WakeErr else SwapFut])
    case DoWakeErr(cb) => WakeAllErr(s, cb).(workers := s.workers[cb := SwapFut])
    case DoSwapFut(cb) => s.(fut := 0, workers := s.workers[cb := if s.fut != 0 then WakeFut else Gone])
    case DoWakeFut(cb) => WakeAllFut(s).(workers := s.workers[cb := Gone])
    case Suspend(t, cbs) => s.(waiters := s.waiters[t := Waiter(cbs, Count(0), 0, 0, false)])
    case Check(t) => SetPc(s, t, CheckNext(s, s.waiters[t]))
    case TryErr(t) =>
      var cb := s.waiters[t].cbs[0];
      SetPc(s, t, WaitErr).(
        err := if cb in s.err && s.err[cb] == InProgress then s.err[cb := InProgressWaited] else s.err)
    case TryFut(t) =>
      var w := s.waiters[t];
      var s' := if s.fut == 0 then s.(fut := t, taken := s.taken + 1) else s;
      s'.(waiters := s.waiters[t := w.(pc := Recheck(0), token := s'.fut, seen := s'.taken)])
    case SleepErr(t) =>
      var cb := s.waiters[t].cbs[0];
      SetPc(s, t, if cb in s.err && s.err[cb] == InProgressWaited then AsleepErr else Scan(0))
    case SleepFut(t) =>
      var w := s.waiters[t];
      if s.fut == w.token then
        s.(waiters := s.waiters[t := w.(pc := AsleepFut, inTime := w.seen == s.taken)])
      else SetPc(s, t, Scan(0))
    case Leave(t) => SetPc(s, t, GaveUp)
    case Spurious(t) => SetPc(s, t, Scan(0))
  }

  ghost predicate Step(s: State, s': State) {
    exists a :: Enabled(s, a) && s' == Apply(s, a)
  }

  ghost predicate Run(tr: seq<State>) {
    tr != [] && tr[0] == Initial && forall k :: 0 <= k < |tr| - 1 ==> Step(tr[k], tr[k + 1])
  }

  // ----- the inductive invariant

  /** The worker of a finished aiocb has not yet swapped `__aio_fut`. */
  predicate SwapAhead(s: State, cb: Cb) {
    cb in s.workers && s.workers[cb] in {WakeErr, SwapFut}
  }

  predicate ErrOk(s: State) {
    s.workers.Keys == s.err.Keys &&
    forall cb :: cb in s.err ==> (s.err[cb] == Finished <==> s.workers[cb] != Working)
  }

  /** Someone will wake the sleepers on `__aio_fut`. */
  ghost predicate FutWakeAhead(s: State) {
    exists cb :: cb in s.workers && s.workers[cb] == WakeFut
  }

  /** Of a waiter that last tried for the token in the present tenure of `__aio_fut`:
      the aiocbs it has rechecked and that are finished have their swap ahead. */
  ghost predicate Rechecked(s: State, w: Waiter, n: nat) {
    forall j :: 0 <= j < n && j < |w.cbs| ==>
      w.cbs[j] in s.err && (s.err[w.cbs[j]] == Finished ==> SwapAhead(s, w.cbs[j]))
  }

  ghost predicate TokenOk(s: State, t: Tid, w: Waiter) {
    w.seen <= s.taken &&
    (w.seen == s.taken ==> s.fut == w.token || s.fut == 0) &&
    (w.token == t && s.fut == t ==> w.seen == s.taken)
  }

  ghost predicate WaiterOk(s: State, t: Tid, w: Waiter) {
    match w.pc
    case CasErr => |w.cbs| == 1
    case WaitErr => |w.cbs| == 1
    case AsleepErr => |w.cbs| == 1 && w.cbs[0] in s.err && w.cbs[0] in s.workers &&
      (s.err[w.cbs[0]] == InProgressWaited || s.workers[w.cbs[0]] == WakeErr)
    case CasFut => |w.cbs| > 1
    case Recheck(n) => |w.cbs| > 1 && w.token != 0 && TokenOk(s, t, w) &&
      (w.seen == s.taken && s.fut == w.token ==> Rechecked(s, w, n))
    case WaitFut => |w.cbs| > 1 && w.token != 0 && TokenOk(s, t, w) &&
      (w.seen == s.taken && s.fut == w.token ==> Rechecked(s, w, |w.cbs|))
    case AsleepFut => |w.cbs| > 1 && w.token != 0 && (w.token == t ==> w.inTime) &&
      (w.inTime ==> FutWakeAhead(s) || (s.fut == w.token && w.seen == s.taken && Rechecked(s, w, |w.cbs|)))
    case AsleepNone => w.cbs == []
    case _ => true
  }

  ghost predicate Inv(s: State) {
    ErrOk(s) && forall t :: t in s.waiters ==> WaiterOk(s, t, s.waiters[t])
  }

  /** A pending wake of `__aio_fut` stays pending until it happens, and a swap that
      finds a token creates one. */
  lemma FutWakeKept(s: State, a: Action)
    requires Enabled(s, a)
    ensures FutWakeAhead(s) && !a.DoWakeFut? ==> FutWakeAhead(Apply(s, a))
    ensures a.DoSwapFut? && s.fut != 0 ==> FutWakeAhead(Apply(s, a))
  {
    var s' := Apply(s, a);
    if FutWakeAhead(s) && !a.DoWakeFut? {
      var cb :| cb in s.workers && s.workers[cb] == WakeFut;
      assert cb in s'.workers && s'.workers[cb] == WakeFut;
    } else if a.DoSwapFut? && s.fut != 0 {
      assert s'.workers[a.cb] == WakeFut;
    }
  }

  predicate ByWorker(a: Action) {
    a.Submit? || a.Finish? || a.DoWakeErr? || a.DoSwapFut? || a.DoWakeFut?
  }

  /** What has been rechecked stays covered until `__aio_fut` is swapped. */
  lemma RecheckedKept(s: State, a: Action, w: Waiter, n: nat)
    requires ErrOk(s) && Enabled(s, a) && !a.DoSwapFut? && Rechecked(s, w, n)
    ensures Rechecked(Apply(s, a), w, n)
  {
    var s' := Apply(s, a);
    forall j | 0 <= j < n && j < |w.cbs|
      ensures w.cbs[j] in s'.err && (s'.err[w.cbs[j]] == Finished ==> SwapAhead(s', w.cbs[j]))
    {
      assert w.cbs[j] in s.err;
    }
  }

  /** Any step of a worker or of another waiter keeps what is said of a waiter that is
      still on its way to sleep, or asleep on `__aio_fut`. */
  lemma FutWaiterKept(s: State, a: Action, t: Tid)
    requires Inv(s) && Enabled(s, a) && t in s.waiters && (ByWorker(a) || a.t != t)
    requires s.waiters[t].pc.Recheck? || s.waiters[t].pc == WaitFut || s.waiters[t].pc == AsleepFut
    ensures t in Apply(s, a).waiters && WaiterOk(Apply(s, a), t, Apply(s, a).waiters[t])
  {
    if s.waiters[t].pc == AsleepFut { SleeperKept(s, a, t); } else { RecheckerKept(s, a, t); }
  }

  lemma SleeperKept(s: State, a: Action, t: Tid)
    requires Inv(s) && Enabled(s, a) && t in s.waiters && (ByWorker(a) || a.t != t) && s.waiters[t].pc == AsleepFut
    ensures t in Apply(s, a).waiters && WaiterOk(Apply(s, a), t, Apply(s, a).waiters[t])
  {
    hide Rechecked, FutWakeAhead, ErrOk;
    var w := s.waiters[t];
    assert WaiterOk(s, t, w);
    FutWakeKept(s, a);
    if !a.DoSwapFut? && Rechecked(s, w, |w.cbs|) { RecheckedKept(s, a, w, |w.cbs|); }
  }

  lemma RecheckerKept(s: State, a: Action, t: Tid)
    requires Inv(s) && Enabled(s, a) && t in s.waiters && (ByWorker(a) || a.t != t)
    requires s.waiters[t].pc.Recheck? || s.waiters[t].pc == WaitFut
    ensures t in Apply(s, a).waiters && WaiterOk(Apply(s, a), t, Apply(s, a).waiters[t])
  {
    hide Rechecked, FutWakeAhead, ErrOk;
    var w := s.waiters[t];
    var n := if w.pc.Recheck? then w.pc.n else |w.cbs|;
    assert WaiterOk(s, t, w);
    if !a.DoSwapFut? && Rechecked(s, w, n) { RecheckedKept(s, a, w, n); }
  }

  lemma OtherWaitersKept(s: State, a: Action, t: Tid)
    requires Inv(s) && Enabled(s, a) && t in s.waiters && (ByWorker(a) || a.t != t)
    ensures t in Apply(s, a).waiters && WaiterOk(Apply(s, a), t, Apply(s, a).waiters[t])
  {
    var w := s.waiters[t];
    if w.pc.Recheck? || w.pc == WaitFut || w.pc == AsleepFut {
      hide Apply, WaiterOk, Inv;
      FutWaiterKept(s, a, t);
    } else {
      hide Rechecked, TokenOk, FutWakeAhead;
      assert WaiterOk(s, t, w);
    }
  }

  lemma OwnWaiterKept(s: State, a: Action)
    requires Inv(s) && Enabled(s, a)
    requires !ByWorker(a)
    ensures a.t in Apply(s, a).waiters && WaiterOk(Apply(s, a), a.t, Apply(s, a).waiters[a.t])
  {
    if a.t in s.waiters { assert WaiterOk(s, a.t, s.waiters[a.t]); }
  }

  lemma StepKeepsInv(s: State, a: Action)
    requires Inv(s) && Enabled(s, a)
    ensures Inv(Apply(s, a))
  {
    var s' := Apply(s, a);
    forall t | t in s'.waiters ensures WaiterOk(s', t, s'.waiters[t]) {
      if !ByWorker(a) && a.t == t {
        OwnWaiterKept(s, a);
      } else {
        OtherWaitersKept(s, a, t);
      }
    }
  }

  // ----- what holds over every run

  lemma {:induction false} RunKeepsInv(tr: seq<State>, k: nat)
    requires Run(tr) && k < |tr|
    ensures Inv(tr[k])
  {
    if k > 0 {
      RunKeepsInv(tr, k - 1);
      assert Step(tr[k - 1], tr[k - 1 + 1]);
      var a :| Enabled(tr[k - 1], a) && tr[k] == Apply(tr[k - 1], a);
      StepKeepsInv(tr[k - 1], a);
    }
  }

  predicate AsleepOn(s: State, t: Tid, pc: WaiterPc) {
    t in s.waiters && s.waiters[t].pc == pc
  }

  /** A thread that waits for one aiocb and sleeps although it is finished has its
      wake-up ahead: that aiocb's worker is about to wake it, and doing so ends the
      sleep. */
  lemma SingleWaiterNotLost(tr: seq<State>, k: nat, t: Tid)
    requires Run(tr) && k < |tr| && AsleepOn(tr[k], t, AsleepErr)
    ensures var cbs := tr[k].waiters[t].cbs; |cbs| == 1 && cbs[0] in tr[k].err
    ensures var cb := tr[k].waiters[t].cbs[0];
      Complete(tr[k], cb) ==> Enabled(tr[k], DoWakeErr(cb)) && !AsleepOn(Apply(tr[k], DoWakeErr(cb)), t, AsleepErr)
  {
    RunKeepsInv(tr, k);
    assert WaiterOk(tr[k], t, tr[k].waiters[t]);
  }

  /** A thread that waits for a list and tried for the token in the tenure of
      `__aio_fut` it fell asleep in: if one of its aiocbs is finished, then a wake of
      `__aio_fut` is ahead, or that aiocb's worker has yet to swap `__aio_fut` and will
      find a token there. */
  lemma ListWaiterNotLost(tr: seq<State>, k: nat, t: Tid, cb: Cb)
    requires Run(tr) && k < |tr| && AsleepOn(tr[k], t, AsleepFut) && tr[k].waiters[t].inTime
    requires cb in tr[k].waiters[t].cbs && Complete(tr[k], cb)
    ensures FutWakeAhead(tr[k]) || (SwapAhead(tr[k], cb) && tr[k].fut != 0)
  {
    RunKeepsInv(tr, k);
    assert WaiterOk(tr[k], t, tr[k].waiters[t]);
  }

  /** A waiter whose token is its own thread id always falls asleep in time. */
  lemma OwnTokenInTime(tr: seq<State>, k: nat, t: Tid)
    requires Run(tr) && k < |tr| && AsleepOn(tr[k], t, AsleepFut) && tr[k].waiters[t].token == t
    ensures tr[k].waiters[t].inTime
  {
    RunKeepsInv(tr, k);
    assert WaiterOk(tr[k], t, tr[k].waiters[t]);
  }

  /** Asleep for a list of which one aiocb is finished, with no finished request's worker
      left that will swap or wake `__aio_fut`. */
  ghost predicate Lost(s: State, t: Tid) {
    AsleepOn(s, t, AsleepFut) &&
    (exists cb :: cb in s.waiters[t].cbs && Complete(s, cb)) &&
    (forall cb :: cb in s.workers ==> s.workers[cb] == Working || s.workers[cb] == Gone)
  }

  ghost function ListWaiters(s: State): set<Tid> {
    set t | t in s.waiters && Active(s, t) && |s.waiters[t].cbs| > 1
  }

  /** Never more than `n` threads are inside aio_suspend with a list at one time. */
  ghost predicate AtMost(tr: seq<State>, n: nat) {
    forall k :: 0 <= k < |tr| ==> |ListWaiters(tr[k])| <= n
  }

  /** With one list waiter at a time nobody re-installs a token that was adopted. */
  ghost predicate InTime(s: State, t: Tid) {
    t in s.waiters ==> var w := s.waiters[t];
      ((w.pc.Recheck? || w.pc == WaitFut) ==> w.seen == s.taken) && (w.pc == AsleepFut ==> w.inTime)
  }

  lemma InTimeKept(s: State, a: Action, t: Tid)
    requires Inv(s) && Enabled(s, a) && |ListWaiters(s)| <= 1 && InTime(s, t)
    ensures InTime(Apply(s, a), t)
  {
    if a.TryFut? && a.t != t && t in s.waiters { AloneAtFut(s, a.t, t); }
    hide Inv, ListWaiters;
  }

  /** No other list waiter is between trying for the token and sleeping. */
  lemma AloneAtFut(s: State, u: Tid, t: Tid)
    requires Inv(s) && Enabled(s, TryFut(u)) && |ListWaiters(s)| <= 1 && u != t && t in s.waiters
    ensures !s.waiters[t].pc.Recheck? && s.waiters[t].pc != WaitFut
  {
    hide Rechecked, TokenOk;
    var w := s.waiters[t];
    assert WaiterOk(s, u, s.waiters[u]) && WaiterOk(s, t, w);
    if w.pc.Recheck? || w.pc == WaitFut {
      assert {u, t} <= ListWaiters(s);
      SubsetFits({u, t}, ListWaiters(s));
      assert false;
    }
  }

  lemma {:induction false} AloneInTime(tr: seq<State>, k: nat, t: Tid)
    requires Run(tr) && AtMost(tr, 1) && k < |tr|
    ensures InTime(tr[k], t)
  {
    if k > 0 {
      AloneInTime(tr, k - 1, t);
      RunKeepsInv(tr, k - 1);
      assert Step(tr[k - 1], tr[k - 1 + 1]);
      var a :| Enabled(tr[k - 1], a) && tr[k] == Apply(tr[k - 1], a);
      InTimeKept(tr[k - 1], a, t);
    }
  }

  lemma AloneNotLost(tr: seq<State>, k: nat, t: Tid)
    requires Run(tr) && AtMost(tr, 1) && k < |tr|
    ensures !Lost(tr[k], t)
  {
    if Lost(tr[k], t) {
      AloneInTime(tr, k, t);
      var cb :| cb in tr[k].waiters[t].cbs && Complete(tr[k], cb);
      ListWaiterNotLost(tr, k, t, cb);
      assert false;
    }
  }

  // ----- two list waiters are enough to lose a wake-up

  /** Some run with at most two list waiters at a time ends in `s`. */
  ghost predicate Reached(s: State) {
    exists tr :: Run(tr) && AtMost(tr, 2) && tr[|tr| - 1] == s
  }

  lemma ReachStep(s: State, a: Action)
    requires Reached(s) && Enabled(s, a) && Apply(s, a).waiters.Keys <= {1, 2}
    ensures Reached(Apply(s, a))
  {
    var tr :| Run(tr) && AtMost(tr, 2) && tr[|tr| - 1] == s;
    var tr' := tr + [Apply(s, a)];
    SubsetFits(ListWaiters(Apply(s, a)), {1, 2});
    forall k | 0 <= k < |tr'| - 1 ensures Step(tr'[k], tr'[k + 1]) {
      if k < |tr| - 1 { assert Step(tr[k], tr[k + 1]); }
    }
    forall k | 0 <= k < |tr'| ensures |ListWaiters(tr'[k])| <= 2 {
      assert k < |tr| ==> tr'[k] == tr[k];
    }
    assert Run(tr') && AtMost(tr', 2) && tr'[|tr'| - 1] == Apply(s, a);
  }

  /** A whole pass over a list of two unfinished aiocbs. */
  lemma ReachPass(s: State, t: Tid)
    requires Reached(s) && s.waiters.Keys <= {1, 2} && t in s.waiters
    requires s.waiters[t].pc in {Count(0), Scan(0), Recheck(0)}
    requires var cbs := s.waiters[t].cbs; |cbs| == 2 && !Complete(s, cbs[0]) && !Complete(s, cbs[1])
    ensures Reached(SetPc(s, t, match s.waiters[t].pc case Count(_) => Scan(0) case Scan(_) => CasFut case _ => WaitFut))
  {
    hide Reached;
    ReachStep(s, Check(t));
    var s1 := Apply(s, Check(t));
    ReachStep(s1, Check(t));
    var s2 := Apply(s1, Check(t));
    ReachStep(s2, Check(t));
    var s3 := Apply(s2, Check(t));
    assert s3.waiters == SetPc(s, t, s3.waiters[t].pc).waiters;
  }

  /** Two passes and the attempt to take the token. */
  lemma ReachToken(s: State, t: Tid, cbs: seq<Cb>)
    requires Reached(s) && s.waiters.Keys <= {1, 2} && t <= 2 && t !in s.waiters
    requires |cbs| == 2 && !Complete(s, cbs[0]) && !Complete(s, cbs[1])
    ensures var fut, taken := if s.fut == 0 then t else s.fut, if s.fut == 0 then s.taken + 1 else s.taken;
      Reached(s.(fut := fut, taken := taken, waiters := s.waiters[t := Waiter(cbs, WaitFut, fut, taken, false)]))
  {
    hide Reached;
    ReachStep(s, Suspend(t, cbs));
    var s1 := Apply(s, Suspend(t, cbs));
    ReachPass(s1, t);
    var s2 := SetPc(s1, t, Scan(0));
    ReachPass(s2, t);
    var s3 := SetPc(s2, t, CasFut);
    ReachStep(s3, TryFut(t));
    var s4 := Apply(s3, TryFut(t));
    ReachPass(s4, t);
    assert SetPc(s4, t, WaitFut).waiters == s.waiters[t := s4.waiters[t].(pc := WaitFut)];
  }

  const FourErrs: map<Cb, Err> := map[0 := InProgress, 1 := InProgress, 2 := InProgress, 3 := InProgress]
  const FourWorkers: map<Cb, WorkerPc> := map[0 := Working, 1 := Working, 2 := Working, 3 := Working]
  const Submitted := State(0, 0, FourErrs, FourWorkers, map[])

  /** Thread 1 sleeps on its own token. */
  const FirstAsleep := State(1, 1, FourErrs, FourWorkers, map[1 := Waiter([0, 1], AsleepFut, 1, 1, true)])

  /** Thread 2 has adopted that token. */
  const Adopter := Waiter([2, 3], WaitFut, 1, 1, false)
  const Adopted := State(1, 1, FourErrs, FourWorkers, map[1 := Waiter([0, 1], AsleepFut, 1, 1, true), 2 := Adopter])

  /** An aiocb of thread 2 has finished and thread 1 has been woken by it. */
  const FirstWoken := State(0, 1, FourErrs[2 := Finished], FourWorkers[2 := Gone],
    map[1 := Waiter([0, 1], Scan(0), 1, 1, true), 2 := Adopter])

  /** Thread 1 has taken the token again, and thread 2 has fallen asleep on it. */
  const SecondLost := State(1, 2, FourErrs[2 := Finished], FourWorkers[2 := Gone],
    map[1 := Waiter([0, 1], Recheck(0), 1, 2, true), 2 := Waiter([2, 3], AsleepFut, 1, 1, false)])

  lemma ReachSubmitted()
    ensures Reached(Submitted)
  {
    assert Reached(Initial) by {
      assert ListWaiters(Initial) == {};
      assert Run([Initial]) && AtMost([Initial], 2);
    }
    hide Reached;
    var s := Initial;
    ReachStep(s, Submit(0)); s := Apply(s, Submit(0));
    ReachStep(s, Submit(1)); s := Apply(s, Submit(1));
    ReachStep(s, Submit(2)); s := Apply(s, Submit(2));
    ReachStep(s, Submit(3)); s := Apply(s, Submit(3));
    assert s.err == FourErrs && s.workers == FourWorkers;
  }

  lemma ReachFirstAsleep()
    ensures Reached(FirstAsleep)
  {
    ReachSubmitted();
    hide Reached;
    ReachToken(Submitted, 1, [0, 1]);
    var w := Waiter([0, 1], WaitFut, 1, 1, false);
    var s := Submitted.(fut := 1, taken := 1, waiters := Submitted.waiters[1 := w]);
    assert Reached(s);
    ReachStep(s, SleepFut(1));
    assert Apply(s, SleepFut(1)).waiters == FirstAsleep.waiters;
  }

  lemma ReachAdopted()
    ensures Reached(Adopted)
  {
    ReachFirstAsleep();
    hide Reached;
    ReachToken(FirstAsleep, 2, [2, 3]);
    assert FirstAsleep.waiters[2 := Adopter] == Adopted.waiters;
  }

  lemma ReachFirstWoken()
    ensures Reached(FirstWoken)
  {
    ReachAdopted();
    hide Reached;
    ReachStep(Adopted, Finish(2));
    var s1 := Apply(Adopted, Finish(2));
    ReachStep(s1, DoSwapFut(2));
    var s2 := Apply(s1, DoSwapFut(2));
    assert s2.waiters == Adopted.waiters && s2.fut == 0 && s2.workers[2] == WakeFut;
    ReachStep(s2, DoWakeFut(2));
    var s3 := Apply(s2, DoWakeFut(2));
    assert s3.waiters == FirstWoken.waiters && s3.workers == FirstWoken.workers && s3.err == FirstWoken.err;
  }

  lemma ReachSecondLost()
    ensures Reached(SecondLost)
  {
    ReachFirstWoken();
    hide Reached;
    ReachPass(FirstWoken, 1);
    var s1 := SetPc(FirstWoken, 1, CasFut);
    ReachStep(s1, TryFut(1));
    var s2 := Apply(s1, TryFut(1));
    assert s2.waiters == FirstWoken.waiters[1 := Waiter([0, 1], Recheck(0), 1, 2, true)];
    ReachStep(s2, SleepFut(2));
    var s3 := Apply(s2, SleepFut(2));
    assert s3.waiters == SecondLost.waiters;
  }

  /** So a thread that adopts a token can be left asleep with its request finished. */
  lemma LostWakeup()
    ensures Reached(SecondLost) && Lost(SecondLost, 2)
  {
    ReachSecondLost();
    assert 2 in SecondLost.waiters[2].cbs && Complete(SecondLost, 2);
  }

  /** The exact extent of the promise: wake-ups of list waiters are never lost in
      programs with at most `n` concurrent list waiters if and only if `n` is at most 1. */
  lemma NoWakeupLostIff(n: nat)
    ensures (forall tr, k, t :: Run(tr) && AtMost(tr, n) && 0 <= k < |tr| ==> !Lost(tr[k], t)) <==> n <= 1
  {
    if n <= 1 {
      forall tr, k, t | Run(tr) && AtMost(tr, n) && 0 <= k < |tr| ensures !Lost(tr[k], t) {
        AloneNotLost(tr, k, t);
      }
    } else {
      LostWakeup();
      var tr :| Run(tr) && AtMost(tr, 2) && tr[|tr| - 1] == SecondLost;
      assert AtMost(tr, n) && Lost(tr[|tr| - 1], 2);
    }
  }
}
