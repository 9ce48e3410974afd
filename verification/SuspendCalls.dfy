/** What a call of `aio_suspend` returns, and when. */
module SuspendCalls {
  import opened AioSuspend

  /** A run, with its steps. */
  ghost predicate Trace(tr: seq<State>, acts: seq<Action>) {
    |tr| == |acts| + 1 && tr[0] == Initial && forall k :: 0 <= k < |acts| ==> Taken(tr[k], acts[k], tr[k + 1])
  }

  ghost predicate Taken(s: State, a: Action, s': State) { Enabled(s, a) && s' == Apply(s, a) }

  lemma TraceIsRun(tr: seq<State>, acts: seq<Action>)
    requires Trace(tr, acts)
    ensures Run(tr)
  {
    hide Enabled, Apply;
    forall k | 0 <= k < |tr| - 1 ensures Step(tr[k], tr[k + 1]) { assert Taken(tr[k], acts[k], tr[k + 1]); }
  }

  /** Step `k` of a run, and what holds before it. */
  lemma Nth(tr: seq<State>, acts: seq<Action>, k: nat)
    requires Trace(tr, acts) && k < |acts|
    ensures Taken(tr[k], acts[k], tr[k + 1]) && Inv(tr[k])
  {
    hide Enabled, Apply, Inv;
    TraceIsRun(tr, acts);
    RunKeepsInv(tr, k);
  }

  // ----- requests

  ghost predicate Did(acts: seq<Action>, k: nat, a: Action) { exists i :: 0 <= i < k && i < |acts| && acts[i] == a }

  lemma DidNext(acts: seq<Action>, k: nat, a: Action)
    requires k < |acts|
    ensures Did(acts, k + 1, a) <==> Did(acts, k, a) || acts[k] == a
  {
    if Did(acts, k, a) {
      var i :| 0 <= i < k && i < |acts| && acts[i] == a;
      assert 0 <= i < k + 1;
    }
  }

  ghost predicate ErrTold(s: State, acts: seq<Action>, k: nat, cb: Cb) {
    (cb in s.err <==> Did(acts, k, Submit(cb))) && (cb in s.err && s.err[cb] == Finished <==> Did(acts, k, Finish(cb)))
  }

  lemma ErrToldNext(s: State, acts: seq<Action>, k: nat, s': State, cb: Cb)
    requires Inv(s) && ErrTold(s, acts, k, cb) && k < |acts| && Taken(s, acts[k], s')
    ensures ErrTold(s', acts, k + 1, cb)
  {
    hide Did, WaiterOk;
    DidNext(acts, k, Submit(cb));
    DidNext(acts, k, Finish(cb));
  }

  /** A request counts as finished exactly if its worker has said so, or there never was one. */
  lemma {:induction false} FinishedIff(tr: seq<State>, acts: seq<Action>, k: nat, cb: Cb)
    requires Trace(tr, acts) && k < |tr|
    ensures ErrTold(tr[k], acts, k, cb)
    ensures Complete(tr[k], cb) <==> Did(acts, k, Finish(cb)) || !Did(acts, k, Submit(cb))
  {
    hide Inv, Taken, Enabled, Apply;
    if k > 0 {
      hide Did, Trace;
      FinishedIff(tr, acts, k - 1, cb);
      Nth(tr, acts, k - 1);
      ErrToldNext(tr[k - 1], acts, k - 1, tr[k], cb);
    }
  }

  // ----- calls

  /** Step `k` begins a call of `t` that is still the latest after `l` steps. */
  ghost predicate CallSpan(acts: seq<Action>, t: Tid, cbs: seq<Cb>, k: nat, l: nat) {
    k < l <= |acts| && acts[k] == Suspend(t, cbs) && forall m :: k < m < l ==> !(acts[m].Suspend? && acts[m].t == t)
  }

  lemma ListKept(s: State, a: Action, t: Tid)
    requires Enabled(s, a) && t in s.waiters && !(a.Suspend? && a.t == t)
    ensures t in Apply(s, a).waiters && Apply(s, a).waiters[t].cbs == s.waiters[t].cbs
  {
  }

  /** A call is about the requests it was given. */
  lemma {:induction false} SameList(tr: seq<State>, acts: seq<Action>, t: Tid, cbs: seq<Cb>, k: nat, l: nat)
    requires Trace(tr, acts) && CallSpan(acts, t, cbs, k, l)
    ensures t in tr[l].waiters && tr[l].waiters[t].cbs == cbs
  {
    Nth(tr, acts, l - 1);
    if l > k + 1 {
      hide Inv, Enabled, Apply;
      SameList(tr, acts, t, cbs, k, l - 1);
      ListKept(tr[l - 1], acts[l - 1], t);
    }
  }

  /** A call returns 0 only if one of its requests is finished when it does so. */
  lemma ZeroMeansFinished(tr: seq<State>, acts: seq<Action>, t: Tid, cbs: seq<Cb>, k: nat, l: nat)
    requires Trace(tr, acts) && CallSpan(acts, t, cbs, k, l) && l < |acts|
    requires t in tr[l].waiters && tr[l].waiters[t].pc != Completed
    requires t in tr[l + 1].waiters && tr[l + 1].waiters[t].pc == Completed
    ensures exists cb :: cb in cbs && Complete(tr[l], cb)
  {
    SameList(tr, acts, t, cbs, k, l);
    assert Taken(tr[l], acts[l], tr[l + 1]);
    CompletedBy(tr[l], acts[l], t);
  }

  lemma CompletedBy(s: State, a: Action, t: Tid)
    requires Enabled(s, a) && t in s.waiters && s.waiters[t].pc != Completed
    requires t in Apply(s, a).waiters && Apply(s, a).waiters[t].pc == Completed
    ensures exists cb :: cb in s.waiters[t].cbs && Complete(s, cb)
  {
    var w := s.waiters[t];
    assert a == Check(t);
    assert w.cbs[w.pc.n] in w.cbs && Complete(s, w.cbs[w.pc.n]);
  }

  /** A call gives up only from its sleep. */
  lemma GivesUpAsleep(s: State, a: Action, t: Tid)
    requires Enabled(s, a) && t in s.waiters && s.waiters[t].pc != GaveUp
    requires t in Apply(s, a).waiters && Apply(s, a).waiters[t].pc == GaveUp
    ensures a == Leave(t) && (s.waiters[t].pc == AsleepErr || s.waiters[t].pc == AsleepFut || s.waiters[t].pc == AsleepNone)
  {
  }

  /** In one of the passes over its list, before position `n + 1`. */
  predicate Passing(w: Waiter, n: nat) { (w.pc.Count? || w.pc.Scan? || w.pc.Recheck?) && w.pc.n <= n }

  /** Request `f` of the list is finished, and will be found if it has not been. */
  ghost predicate WillFind(s: State, t: Tid, cbs: seq<Cb>, f: nat) {
    f < |cbs| && t in s.waiters && s.waiters[t].cbs == cbs && Complete(s, cbs[f]) &&
    (Passing(s.waiters[t], f) || s.waiters[t].pc == Completed)
  }

  lemma StillFinds(s: State, a: Action, t: Tid, cbs: seq<Cb>, f: nat)
    requires ErrOk(s) && WillFind(s, t, cbs, f) && Enabled(s, a) && !(a.Suspend? && a.t == t)
    requires cbs[f] in s.err
    ensures WillFind(Apply(s, a), t, cbs, f) && cbs[f] in Apply(s, a).err
  {
  }

  /** A pass that begins, or is on its way, with a finished request ahead ends the call with
      0, whatever the length of the list and whatever the others do: the call does not get to
      sleep. */
  lemma {:induction false} FinishedIsFound(tr: seq<State>, acts: seq<Action>, t: Tid, cbs: seq<Cb>, f: nat, k: nat, l: nat)
    requires Trace(tr, acts) && k <= l <= |acts| && WillFind(tr[k], t, cbs, f) && cbs[f] in tr[k].err
    requires forall m :: k <= m < l ==> !(acts[m].Suspend? && acts[m].t == t)
    ensures WillFind(tr[l], t, cbs, f) && cbs[f] in tr[l].err
  {
    if l > k {
      hide WillFind, Enabled, Apply;
      FinishedIsFound(tr, acts, t, cbs, f, k, l - 1);
      Nth(tr, acts, l - 1);
      StillFinds(tr[l - 1], acts[l - 1], t, cbs, f);
    }
  }

  /** A call on a list with a finished request does not sleep: at every later point it is in
      its first pass or has returned 0. */
  lemma FinishedAtOnce(tr: seq<State>, acts: seq<Action>, t: Tid, cbs: seq<Cb>, f: nat, k: nat, l: nat)
    requires Trace(tr, acts) && CallSpan(acts, t, cbs, k, l) && f < |cbs|
    requires Complete(tr[k], cbs[f]) && cbs[f] in tr[k].err
    ensures WillFind(tr[l], t, cbs, f)
  {
    assert Taken(tr[k], acts[k], tr[k + 1]);
    assert WillFind(tr[k + 1], t, cbs, f);
    FinishedIsFound(tr, acts, t, cbs, f, k + 1, l);
  }

  predicate InPass(pc: WaiterPc) { pc.Count? || pc.Scan? || pc.Recheck? }

  /** Every pass begins with the first request; the first pass begins with the call, the
      second after the first and after each sleep, the third after the token. */
  lemma PassesBegin(s: State, a: Action, t: Tid)
    requires Enabled(s, a) && t in s.waiters && t in Apply(s, a).waiters && !(a.Suspend? && a.t == t)
    ensures var pc, pc' := s.waiters[t].pc, Apply(s, a).waiters[t].pc;
      pc' != pc && InPass(pc') ==>
        (InPass(pc) && pc'.n == pc.n + 1 && (pc.Count? <==> pc'.Count?) && (pc.Scan? <==> pc'.Scan?)) ||
        (pc'.n == 0 && !pc'.Count? && (pc'.Recheck? <==> pc == CasFut))
  {
  }

  predicate Returned(pc: WaiterPc) { pc == Completed || pc == GaveUp }

  /** A call that has returned is over. */
  lemma {:induction false} ReturnedStays(tr: seq<State>, acts: seq<Action>, t: Tid, k: nat, l: nat)
    requires Trace(tr, acts) && k <= l <= |acts| && t in tr[k].waiters && Returned(tr[k].waiters[t].pc)
    requires forall m :: k <= m < l ==> !(acts[m].Suspend? && acts[m].t == t)
    ensures t in tr[l].waiters && tr[l].waiters[t] == tr[k].waiters[t]
  {
    if l > k {
      hide Inv, Enabled, Apply, Returned;
      ReturnedStays(tr, acts, t, k, l - 1);
      Nth(tr, acts, l - 1);
      ReturnedStep(tr[l - 1], acts[l - 1], t);
    }
  }

  lemma ReturnedStep(s: State, a: Action, t: Tid)
    requires Enabled(s, a) && t in s.waiters && Returned(s.waiters[t].pc) && !(a.Suspend? && a.t == t)
    ensures t in Apply(s, a).waiters && Apply(s, a).waiters[t] == s.waiters[t]
  {
  }

  /** A pass goes on: one request further with each check, to its end. */
  lemma PassGoesOn(s: State, t: Tid)
    requires t in s.waiters && (s.waiters[t].pc.Count? || s.waiters[t].pc.Scan? || s.waiters[t].pc.Recheck?)
    ensures Enabled(s, Check(t))
    ensures var w, w' := s.waiters[t], Apply(s, Check(t)).waiters[t];
      w.pc.n < |w.cbs| && !Complete(s, w.cbs[w.pc.n]) ==>
        w'.pc == if w.pc.Count? then Count(w.pc.n + 1) else if w.pc.Scan? then Scan(w.pc.n + 1) else Recheck(w.pc.n + 1)
  {
  }

  /** Where a call sleeps depends on the number of its requests alone. */
  lemma SleepsWhere(tr: seq<State>, acts: seq<Action>, t: Tid, cbs: seq<Cb>, k: nat, l: nat)
    requires Trace(tr, acts) && CallSpan(acts, t, cbs, k, l)
    ensures t in tr[l].waiters
    ensures var pc := tr[l].waiters[t].pc;
      (pc == AsleepErr ==> |cbs| == 1) && (pc == AsleepFut ==> |cbs| > 1) && (pc == AsleepNone ==> cbs == [])
  {
    SameList(tr, acts, t, cbs, k, l);
    TraceIsRun(tr, acts);
    RunKeepsInv(tr, l);
    assert WaiterOk(tr[l], t, tr[l].waiters[t]);
  }

  // ----- going to sleep

  predicate Awake(pc: WaiterPc) {
    pc.Count? || pc.Scan? || pc.Recheck? || pc == CasErr || pc == CasFut || pc == WaitErr || pc == WaitFut
  }

  /** The next step of a call that is awake. */
  function Own(t: Tid, pc: WaiterPc): Action
    requires Awake(pc)
  {
    match pc
    case CasErr => TryErr(t)
    case CasFut => TryFut(t)
    case WaitErr => SleepErr(t)
    case WaitFut => SleepFut(t)
    case _ => Check(t)
  }

  /** The steps from the second pass to the sleep, for a list of `n` requests. */
  function Second(n: nat): nat { if n == 0 then 1 else if n == 1 then 4 else 2 * n + 4 }

  /** The steps to the sleep if nothing is finished. */
  function Distance(w: Waiter): int {
    var n := |w.cbs|;
    match w.pc
    case Count(j) => n - j + 1 + Second(n)
    case Scan(j) => Second(n) - j
    case CasErr => 2
    case CasFut => n + 3
    case Recheck(j) => n - j + 2
    case WaitErr => 1
    case WaitFut => 1
    case _ => 0
  }

  /** A call on its way to sleep with none of its requests finished and nobody in its way. */
  ghost predicate Undisturbed(s: State, t: Tid) {
    t in s.waiters && var w := s.waiters[t];
    (Awake(w.pc) || w.pc == AsleepAt(|w.cbs|)) &&
    (w.pc.Count? || w.pc.Scan? || w.pc.Recheck? ==> w.pc.n <= |w.cbs|) &&
    (w.pc == CasErr || w.pc == WaitErr ==> |w.cbs| == 1) &&
    (w.pc == CasFut || w.pc == WaitFut || w.pc.Recheck? ==> |w.cbs| > 1) &&
    (w.pc == WaitErr ==> w.cbs[0] in s.err && s.err[w.cbs[0]] == InProgressWaited) &&
    (w.pc == WaitFut || w.pc.Recheck? ==> w.token == s.fut) &&
    forall j :: 0 <= j < |w.cbs| ==> !Complete(s, w.cbs[j])
  }

  function AsleepAt(n: nat): WaiterPc { if n == 0 then AsleepNone else if n == 1 then AsleepErr else AsleepFut }

  lemma UndisturbedStep(s: State, t: Tid)
    requires Undisturbed(s, t) && Awake(s.waiters[t].pc)
    ensures Enabled(s, Own(t, s.waiters[t].pc))
    ensures var s' := Apply(s, Own(t, s.waiters[t].pc));
      Undisturbed(s', t) && s'.waiters[t].cbs == s.waiters[t].cbs &&
      Distance(s'.waiters[t]) == Distance(s.waiters[t]) - 1
  {
  }

  /** `n` steps of one call, or fewer if it gets to sleep or returns. */
  function OnItsOwn(s: State, t: Tid, n: nat): State
    decreases n
  {
    if n == 0 || t !in s.waiters || !Awake(s.waiters[t].pc) || !Enabled(s, Own(t, s.waiters[t].pc)) then s
    else OnItsOwn(Apply(s, Own(t, s.waiters[t].pc)), t, n - 1)
  }

  lemma {:induction false} GoesToSleep(s: State, t: Tid, n: nat)
    requires Undisturbed(s, t) && n <= Distance(s.waiters[t])
    ensures var s' := OnItsOwn(s, t, n);
      Undisturbed(s', t) && s'.waiters[t].cbs == s.waiters[t].cbs &&
      Distance(s'.waiters[t]) == Distance(s.waiters[t]) - n
    decreases n
  {
    if n > 0 {
      UndisturbedStep(s, t);
      hide Undisturbed, Apply, Enabled;
      GoesToSleep(Apply(s, Own(t, s.waiters[t].pc)), t, n - 1);
    }
  }

  /** A call none of whose requests is finished looks at each of them in two passes, three
      for a list, and then sleeps: on the only request, on `__aio_fut`, or on nothing. */
  lemma UnfinishedSleeps(s: State, t: Tid, cbs: seq<Cb>, n: nat)
    requires Enabled(s, Suspend(t, cbs)) && forall j :: 0 <= j < |cbs| ==> !Complete(s, cbs[j])
    ensures t in OnItsOwn(Apply(s, Suspend(t, cbs)), t, n).waiters
    ensures var pc := OnItsOwn(Apply(s, Suspend(t, cbs)), t, n).waiters[t].pc;
      var m := if |cbs| == 0 then 2 else if |cbs| == 1 then 6 else 3 * |cbs| + 5;
      if n < m then Awake(pc) else pc == AsleepAt(|cbs|)
  {
    var s' := Apply(s, Suspend(t, cbs));
    var m := Distance(s'.waiters[t]);
    assert Undisturbed(s', t);
    GoesToSleep(s', t, if n <= m then n else m);
    if n > m { NoFurther(s', t, m, n); }
  }

  lemma {:induction false} NoFurther(s: State, t: Tid, m: nat, n: nat)
    requires m <= n && t in OnItsOwn(s, t, m).waiters && !Awake(OnItsOwn(s, t, m).waiters[t].pc)
    ensures OnItsOwn(s, t, n) == OnItsOwn(s, t, m)
    decreases m
  {
    hide Apply, Enabled;
    if m > 0 && t in s.waiters && Awake(s.waiters[t].pc) && Enabled(s, Own(t, s.waiters[t].pc)) {
      NoFurther(Apply(s, Own(t, s.waiters[t].pc)), t, m - 1, n - 1);
    }
  }

  // ----- waking up

  /** A sleeper is woken only by the worker of its only request, which is finished, or by a
      worker that found `__aio_fut` taken; else it leaves by itself. */
  lemma WokenBy(tr: seq<State>, acts: seq<Action>, k: nat, t: Tid)
    requires Trace(tr, acts) && k < |acts| && t in tr[k].waiters && !Awake(tr[k].waiters[t].pc)
    requires t in tr[k + 1].waiters && Awake(tr[k + 1].waiters[t].pc)
    requires acts[k] != Spurious(t) && !(acts[k].Suspend? && acts[k].t == t)
    ensures var w := tr[k].waiters[t];
      (w.pc == AsleepErr && acts[k] == DoWakeErr(w.cbs[0]) && Complete(tr[k], w.cbs[0])) ||
      (w.pc == AsleepFut && acts[k].DoWakeFut? && Complete(tr[k], acts[k].cb))
    ensures tr[k + 1].waiters[t].pc == Scan(0)
  {
    Nth(tr, acts, k);
    assert WaiterOk(tr[k], t, tr[k].waiters[t]);
  }

  /** A call has marked `cb`, as the only request it waits for. */
  ghost predicate Marked(tr: seq<State>, acts: seq<Action>, k: nat, cb: Cb) {
    exists i :: 0 <= i < k && i < |acts| && i < |tr| && MarkedAt(tr[i], acts[i], cb)
  }

  predicate MarkedAt(s: State, a: Action, cb: Cb) { a.TryErr? && a.t in s.waiters && s.waiters[a.t].cbs == [cb] }

  /** A call has tried for `__aio_fut`. */
  ghost predicate Tried(acts: seq<Action>, k: nat) { exists i :: 0 <= i < k && i < |acts| && acts[i].TryFut? }

  /** Nobody is woken in vain: a worker makes the call that wakes the sleepers on its request
      only if some call had marked it, and the one that wakes those on `__aio_fut` only if
      some call had tried for it. */
  lemma {:induction false} WakesForSomeone(tr: seq<State>, acts: seq<Action>, k: nat, cb: Cb)
    requires Trace(tr, acts) && k < |tr|
    ensures cb in tr[k].err && tr[k].err[cb] == InProgressWaited ==> Marked(tr, acts, k, cb)
    ensures cb in tr[k].workers && tr[k].workers[cb] == WakeErr ==> Marked(tr, acts, k, cb)
    ensures tr[k].fut != 0 ==> Tried(acts, k)
    ensures cb in tr[k].workers && tr[k].workers[cb] == WakeFut ==> Tried(acts, k)
  {
    hide Inv, Apply, Enabled;
    if k > 0 {
      WakesForSomeone(tr, acts, k - 1, cb);
      Nth(tr, acts, k - 1);
      WakeCause(tr[k - 1], acts[k - 1], cb);
      hide Trace;
      assert MarkedAt(tr[k - 1], acts[k - 1], cb) ==> Marked(tr, acts, k, cb);
      assert acts[k - 1].TryFut? ==> Tried(acts, k);
    }
  }

  lemma WakeCause(s: State, a: Action, cb: Cb)
    requires Inv(s) && Enabled(s, a)
    ensures var s' := Apply(s, a);
      (cb in s'.err && s'.err[cb] == InProgressWaited ==>
        (cb in s.err && s.err[cb] == InProgressWaited) || MarkedAt(s, a, cb)) &&
      (cb in s'.workers && s'.workers[cb] == WakeErr ==>
        cb in s.workers && (s.workers[cb] == WakeErr || (cb in s.err && s.err[cb] == InProgressWaited))) &&
      (s'.fut != 0 ==> s.fut != 0 || a.TryFut?) &&
      (cb in s'.workers && s'.workers[cb] == WakeFut ==> (cb in s.workers && s.workers[cb] == WakeFut) || s.fut != 0)
  {
    hide WaiterOk;
  }

  /** How many steps a worker has ahead. */
  function Ahead(pc: WorkerPc): nat {
    match pc case Working => 4 case WakeErr => 3 case SwapFut => 2 case WakeFut => 1 case Gone => 0
  }

  /** A worker always has a step to take until it is gone, and every one brings it nearer. */
  lemma WorkerGoesOn(s: State, cb: Cb)
    requires ErrOk(s) && cb in s.workers && s.workers[cb] != Gone
    ensures exists a :: Enabled(s, a) && ByWorker(a) && a.cb == cb
    ensures forall a :: Enabled(s, a) && ByWorker(a) && a.cb == cb ==>
      cb in Apply(s, a).workers && Ahead(Apply(s, a).workers[cb]) < Ahead(s.workers[cb])
  {
    var a := match s.workers[cb]
      case Working => Finish(cb) case WakeErr => DoWakeErr(cb) case SwapFut => DoSwapFut(cb) case _ => DoWakeFut(cb);
    assert Enabled(s, a) && ByWorker(a) && a.cb == cb;
  }
}
