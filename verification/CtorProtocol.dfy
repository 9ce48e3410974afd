/** The protocol between threads that run constructors (`do_init_fini`, possibly
    re-entered from a constructor that calls dlopen) and the one thread that runs
    destructors (`__libc_exit_fini`).

    Every stretch of code executed under `init_fini_lock`, and every acquisition of
    that lock, is one atomic step; any thread may take the next step, and a thread
    asleep on `ctor_cond` may wake at any time.
 */
module CtorProtocol {
  import opened Collections
  import opened Wrappers

  type Tid = nat
  type Dso = nat

  /** Program points of `do_init_fini`: about to take the lock, at the head of the
      loop body with the lock held, asleep on the condition variable, inside the
      constructors of `queue[i]`, or about to retake the lock after them. */
  datatype InitPc = Acquire | Check | Waiting | Running | Reacquire

  /** Program points of `__libc_exit_fini`. */
  datatype FiniPc = Enter | Test | Asleep | Retake | Done

  datatype Frame =
    | Init(queue: seq<Dso>, i: nat, pc: InitPc)
    | Fini(pos: nat, fpc: FiniPc)

  /** `finiList` is the list that starts at `fini_head`. The last two fields record
      history: the order in which constructors were started, and destructors run. */
  datatype State = State(
    lock: Option<Tid>,
    shuttingDown: bool,
    exiter: Option<Tid>,
    visitor: map<Dso, Tid>,
    constructed: set<Dso>,
    finiList: seq<Dso>,
    threads: map<Tid, seq<Frame>>,
    started: seq<Dso>,
    destroyed: seq<Dso>)

  const Initial := State(None, false, None, map[], {}, [], map[], [], [])

  function Stack(s: State, t: Tid): seq<Frame> {
    if t in s.threads then s.threads[t] else []
  }

  function Top(fs: seq<Frame>): Frame
    requires fs != []
  {
    fs[|fs| - 1]
  }

  function SetTop(s: State, t: Tid, f: Frame): State
    requires Stack(s, t) != []
  {
    s.(threads := s.threads[t := Stack(s, t)[..|Stack(s, t)| - 1] + [f]])
  }

  /** User code runs in a thread with no frame here, or inside a constructor. */
  predicate InUserCode(s: State, t: Tid) {
    var fs := Stack(s, t);
    fs == [] || (Top(fs).Init? && Top(fs).pc == Running)
  }

  predicate InitAt(s: State, t: Tid, pc: InitPc) {
    var fs := Stack(s, t);
    fs != [] && Top(fs).Init? && Top(fs).pc == pc
  }

  predicate FiniAt(s: State, t: Tid, pc: FiniPc) {
    var fs := Stack(s, t);
    fs != [] && Top(fs).Fini? && Top(fs).fpc == pc
  }

  /** Another thread is inside the constructors of `d`. */
  predicate VisitedByOther(s: State, t: Tid, d: Dso) {
    d in s.visitor && s.visitor[d] != t
  }

  datatype Action =
    | Call(queue: seq<Dso>)   // enter do_init_fini
    | Lock                    // take the lock at entry or after a wait
    | Sleep                   // pthread_cond_wait: give up the lock
    | Wake                    // woken, possibly spuriously
    | Skip                    // already constructed, or in construction by this thread
    | Start                   // become the visitor and run the constructors
    | CtorReturn              // the constructors have returned
    | Finish                  // retake the lock, mark constructed, broadcast
    | Return                  // end of queue
    | Exit                    // enter __libc_exit_fini
    | ExitLock                // take the lock, set shutting_down
    | ExitSleep | ExitWake | ExitRelock
    | ExitSkip                // not constructed
    | Destroy                 // run the destructors of one DSO
    | ExitEnd

  predicate Enabled(s: State, t: Tid, a: Action) {
    match a
    case Call(_) => InUserCode(s, t)
    case Lock => InitAt(s, t, Acquire) && s.lock.None?
    case Sleep => InitAt(s, t, Check) &&
      var f := Top(Stack(s, t));
      f.i < |f.queue| && (VisitedByOther(s, t, f.queue[f.i]) || s.shuttingDown)
    case Wake => InitAt(s, t, Waiting)
    case Skip => InitAt(s, t, Check) &&
      var f := Top(Stack(s, t));
      f.i < |f.queue| && !VisitedByOther(s, t, f.queue[f.i]) && !s.shuttingDown &&
      (f.queue[f.i] in s.visitor || f.queue[f.i] in s.constructed)
    case Start => InitAt(s, t, Check) &&
      var f := Top(Stack(s, t));
      f.i < |f.queue| && !VisitedByOther(s, t, f.queue[f.i]) && !s.shuttingDown &&
      f.queue[f.i] !in s.visitor && f.queue[f.i] !in s.constructed
    case CtorReturn => InitAt(s, t, Running)
    case Finish => InitAt(s, t, Reacquire) && s.lock.None? &&
      var f := Top(Stack(s, t)); f.i < |f.queue|
    case Return => InitAt(s, t, Check) &&
      var f := Top(Stack(s, t)); f.i == |f.queue|
    // exit() lets only the first caller through (src/exit/exit.c)
    case Exit => InUserCode(s, t) && s.exiter.None?
    case ExitLock => FiniAt(s, t, Enter) && s.lock.None?
    case ExitSleep => FiniAt(s, t, Test) &&
      var f := Top(Stack(s, t));
      f.pos < |s.finiList| && VisitedByOther(s, t, s.finiList[f.pos])
    case ExitWake => FiniAt(s, t, Asleep)
    case ExitRelock => FiniAt(s, t, Retake) && s.lock.None?
    case ExitSkip => FiniAt(s, t, Test) &&
      var f := Top(Stack(s, t));
      f.pos < |s.finiList| && !VisitedByOther(s, t, s.finiList[f.pos]) &&
      s.finiList[f.pos] !in s.constructed
    case Destroy => FiniAt(s, t, Test) &&
      var f := Top(Stack(s, t));
      f.pos < |s.finiList| && !VisitedByOther(s, t, s.finiList[f.pos]) &&
      s.finiList[f.pos] in s.constructed
    case ExitEnd => FiniAt(s, t, Test) && Top(Stack(s, t)).pos == |s.finiList|
  }

  /** `fini` holds the DSOs that have DT_FINI or DT_FINI_ARRAY. */
  function Apply(fini: set<Dso>, s: State, t: Tid, a: Action): State
    requires Enabled(s, t, a)
  {
    var fs := Stack(s, t);
    match a
    case Call(q) => s.(threads := s.threads[t := fs + [Init(q, 0, Acquire)]])
    case Lock => SetTop(s, t, Top(fs).(pc := Check)).(lock := Some(t))
    case Sleep => SetTop(s, t, Top(fs).(pc := Waiting)).(lock := None)
    case Wake => SetTop(s, t, Top(fs).(pc := Acquire))
    case Skip => SetTop(s, t, Top(fs).(i := Top(fs).i + 1))
    case Start =>
      var d := Top(fs).queue[Top(fs).i];
      SetTop(s, t, Top(fs).(pc := Running)).(
        lock := None,
        visitor := s.visitor[d := t],
        finiList := if d in fini then [d] + s.finiList else s.finiList,
        started := s.started + [d])
    case CtorReturn => SetTop(s, t, Top(fs).(pc := Reacquire))
    case Finish =>
      var d := Top(fs).queue[Top(fs).i];
      SetTop(s, t, Top(fs).(pc := Check, i := Top(fs).i + 1)).(
        lock := Some(t),
        visitor := s.visitor - {d},
        constructed := s.constructed + {d})
    case Return => s.(threads := s.threads[t := fs[..|fs| - 1]], lock := None)
    case Exit => s.(threads := s.threads[t := fs + [Fini(0, Enter)]], exiter := Some(t))
    case ExitLock => SetTop(s, t, Fini(0, Test)).(lock := Some(t), shuttingDown := true)
    case ExitSleep => SetTop(s, t, Top(fs).(fpc := Asleep)).(lock := None)
    case ExitWake => SetTop(s, t, Top(fs).(fpc := Retake))
    case ExitRelock => SetTop(s, t, Top(fs).(fpc := Test)).(lock := Some(t))
    case ExitSkip => SetTop(s, t, Top(fs).(pos := Top(fs).pos + 1))
    case Destroy =>
      SetTop(s, t, Top(fs).(pos := Top(fs).pos + 1)).(
        destroyed := s.destroyed + [s.finiList[Top(fs).pos]])
    case ExitEnd => SetTop(s, t, Top(fs).(fpc := Done))
  }

  ghost predicate Step(fini: set<Dso>, s: State, s': State) {
    exists t, a :: Enabled(s, t, a) && s' == Apply(fini, s, t, a)
  }

  /** A run: any interleaving of any number of threads from the initial state. */
  ghost predicate Run(fini: set<Dso>, tr: seq<State>) {
    tr != [] && tr[0] == Initial &&
    forall k :: 0 <= k < |tr| - 1 ==> Step(fini, tr[k], tr[k + 1])
  }

  // ----- the inductive invariant

  function Filter(ds: seq<Dso>, keep: set<Dso>): seq<Dso> {
    if ds == [] then []
    else Filter(ds[..|ds| - 1], keep) + (if ds[|ds| - 1] in keep then [ds[|ds| - 1]] else [])
  }

  /** `x` occurs somewhere before `y`. */
  ghost predicate Before(ds: seq<Dso>, x: Dso, y: Dso) {
    exists p, q :: 0 <= p < q < |ds| && ds[p] == x && ds[q] == y
  }

  /** The members of `xs` occur in `ds` in the same order. */
  ghost predicate Along(ds: seq<Dso>, xs: seq<Dso>) {
    forall i, j :: 0 <= i < j < |xs| ==> Before(ds, xs[i], xs[j])
  }

  /** The members of `xs` occur in `ds` in the opposite order. */
  ghost predicate Against(ds: seq<Dso>, xs: seq<Dso>) {
    forall i, j :: 0 <= i < j < |xs| ==> Before(ds, xs[j], xs[i])
  }

  /** `d` is finished, or being constructed by `t` itself further down its stack. */
  predicate Satisfied(s: State, t: Tid, d: Dso) {
    d in s.constructed || (d in s.visitor && s.visitor[d] == t)
  }

  predicate Constructing(f: Frame) {
    f.Init? && (f.pc == Running || f.pc == Reacquire)
  }

  predicate FrameOk(s: State, t: Tid, f: Frame) {
    match f
    case Init(q, i, pc) =>
      i <= |q| && (forall j :: 0 <= j < i ==> Satisfied(s, t, q[j])) &&
      (Constructing(f) ==> i < |q| && q[i] in s.visitor && s.visitor[q[i]] == t)
    case Fini(pos, fpc) =>
      pos <= |s.finiList| && s.exiter == Some(t) &&
      (fpc == Enter ==> pos == 0 && !s.shuttingDown) &&
      (fpc != Enter ==> s.shuttingDown) &&
      (fpc == Done ==> pos == |s.finiList|)
  }

  predicate HoldsLock(f: Frame) {
    match f
    case Init(_, _, pc) => pc == Check
    case Fini(_, fpc) => fpc == Test || fpc == Done
  }

  /** A thread's frames: only the top one can be anything but inside a constructor,
      and no two of them construct the same DSO. */
  predicate StackOk(s: State, t: Tid) {
    var fs := Stack(s, t);
    (forall k :: 0 <= k < |fs| ==> FrameOk(s, t, fs[k])) &&
    (forall k :: 0 <= k < |fs| - 1 ==> fs[k].Init? && fs[k].pc == Running) &&
    (forall k, l :: 0 <= k < l < |fs| && Constructing(fs[k]) && Constructing(fs[l]) ==>
       fs[k].queue[fs[k].i] != fs[l].queue[fs[l].i]) &&
    (s.lock == Some(t) <==> fs != [] && HoldsLock(Top(fs)))
  }

  /** The exit walk has dealt with a prefix of the list: it ran the destructors of
      the constructed DSOs there, and the others are ones that the exiting thread
      itself is constructing, whose constructors will never return. */
  predicate ExitOk(s: State) {
    (s.exiter.None? ==> !s.shuttingDown && s.destroyed == []) &&
    (s.exiter.Some? ==>
       var fs := Stack(s, s.exiter.value);
       fs != [] && Top(fs).Fini? && Top(fs).pos <= |s.finiList| &&
       s.destroyed == Filter(s.finiList[..Top(fs).pos], s.constructed) &&
       forall j :: 0 <= j < Top(fs).pos ==> Satisfied(s, s.exiter.value, s.finiList[j]))
  }

  ghost predicate Inv(fini: set<Dso>, s: State) {
    s.visitor.Keys !! s.constructed &&
    NoDup(s.started) &&
    (forall d :: d in s.started <==> d in s.visitor || d in s.constructed) &&
    s.finiList == Reverse(Filter(s.started, fini)) &&
    (forall t :: StackOk(s, t)) &&
    ExitOk(s)
  }

  lemma InitialInv(fini: set<Dso>)
    ensures Inv(fini, Initial)
  {
  }

  lemma OthersKeep(fini: set<Dso>, s: State, t: Tid, a: Action, u: Tid)
    requires Inv(fini, s) && Enabled(s, t, a) && u != t
    ensures StackOk(Apply(fini, s, t, a), u)
  {
    assert StackOk(s, u) && StackOk(s, t);
    hide Inv, StackOk;
    StepSpares(fini, s, t, a, u);
    SparedKeeps(s, Apply(fini, s, t, a), u);
  }

  /** What a step of another thread leaves alone. */
  ghost predicate Spared(s: State, s': State, u: Tid) {
    Stack(s', u) == Stack(s, u) && s.constructed <= s'.constructed && (s.lock == Some(u) <==> s'.lock == Some(u)) &&
    (forall d :: d in s.visitor && s.visitor[d] == u ==> d in s'.visitor && s'.visitor[d] == u) &&
    (s.exiter == Some(u) ==>
       s'.exiter == s.exiter && s'.shuttingDown == s.shuttingDown && |s.finiList| <= |s'.finiList| &&
       (s.shuttingDown ==> s'.finiList == s.finiList))
  }

  lemma StepSpares(fini: set<Dso>, s: State, t: Tid, a: Action, u: Tid)
    requires StackOk(s, t) && Enabled(s, t, a) && u != t
    ensures Spared(s, Apply(fini, s, t, a), u)
  {
    var fs := Stack(s, t);
    assert s.lock == Some(t) <==> fs != [] && HoldsLock(Top(fs));
    assert fs != [] ==> FrameOk(s, t, Top(fs));
    hide StackOk;
  }

  lemma SparedKeeps(s: State, s': State, u: Tid)
    requires StackOk(s, u) && Spared(s, s', u)
    ensures StackOk(s', u)
  {
    forall k | 0 <= k < |Stack(s, u)| ensures FrameOk(s', u, Stack(s, u)[k]) {
      assert FrameOk(s, u, Stack(s, u)[k]);
    }
  }

  /** The steps that put a frame on the thread's own stack. */
  lemma PushKeeps(fini: set<Dso>, s: State, t: Tid, a: Action)
    requires Inv(fini, s) && Enabled(s, t, a) && (a.Call? || a.Exit?)
    ensures StackOk(Apply(fini, s, t, a), t)
  {
    var s' := Apply(fini, s, t, a);
    var fs, fs' := Stack(s, t), Stack(s', t);
    assert StackOk(s, t) && (s.exiter.None? ==> !s.shuttingDown);
    hide Inv;
    forall k | 0 <= k < |fs'| ensures FrameOk(s', t, fs'[k]) {
      if k < |fs| { assert FrameOk(s, t, fs[k]); }
    }
  }

  lemma PopKeeps(fini: set<Dso>, s: State, t: Tid)
    requires Inv(fini, s) && Enabled(s, t, Return)
    ensures StackOk(Apply(fini, s, t, Return), t)
  {
    var s' := Apply(fini, s, t, Return);
    var fs, fs' := Stack(s, t), Stack(s', t);
    assert StackOk(s, t);
    forall k | 0 <= k < |fs'| ensures FrameOk(s', t, fs'[k]) {
      assert FrameOk(s, t, fs[k]);
    }
  }

  lemma StartKeeps(fini: set<Dso>, s: State, t: Tid)
    requires Inv(fini, s) && Enabled(s, t, Start)
    ensures StackOk(Apply(fini, s, t, Start), t)
  {
    var s' := Apply(fini, s, t, Start);
    var fs, fs' := Stack(s, t), Stack(s', t);
    assert StackOk(s, t);
    forall k | 0 <= k < |fs'| ensures FrameOk(s', t, fs'[k]) {
      assert FrameOk(s, t, fs[k]);
    }
    forall k | 0 <= k < |fs| - 1 ensures fs[k].queue[fs[k].i] in s.visitor {
      assert FrameOk(s, t, fs[k]);
    }
  }

  lemma FinishKeeps(fini: set<Dso>, s: State, t: Tid)
    requires Inv(fini, s) && Enabled(s, t, Finish)
    ensures StackOk(Apply(fini, s, t, Finish), t)
  {
    var s' := Apply(fini, s, t, Finish);
    var fs, fs' := Stack(s, t), Stack(s', t);
    assert StackOk(s, t);
    forall k | 0 <= k < |fs'| ensures FrameOk(s', t, fs'[k]) {
      assert FrameOk(s, t, fs[k]);
    }
  }

  /** Replacing the top frame by one that constructs no other DSO. */
  lemma SetTopKeeps(s: State, s': State, t: Tid)
    requires StackOk(s, t) && Stack(s, t) != []
    requires |Stack(s', t)| == |Stack(s, t)|
    requires Stack(s', t)[..|Stack(s, t)| - 1] == Stack(s, t)[..|Stack(s, t)| - 1]
    requires s'.visitor == s.visitor && s'.constructed == s.constructed
    requires FrameOk(s', t, Top(Stack(s', t)))
    requires s'.lock == Some(t) <==> HoldsLock(Top(Stack(s', t)))
    requires Constructing(Top(Stack(s', t))) ==>
      Constructing(Top(Stack(s, t))) &&
      Top(Stack(s', t)).queue == Top(Stack(s, t)).queue && Top(Stack(s', t)).i == Top(Stack(s, t)).i
    ensures StackOk(s', t)
  {
    var fs, fs' := Stack(s, t), Stack(s', t);
    assert forall k :: 0 <= k < |fs| - 1 ==> fs'[k] == fs[..|fs| - 1][k] == fs[k];
    forall k | 0 <= k < |fs'| ensures FrameOk(s', t, fs'[k]) {
      assert FrameOk(s, t, fs[k]);
    }
  }

  /** The steps that only move the program counter of the top frame. */
  lemma MoveKeeps(fini: set<Dso>, s: State, t: Tid, a: Action)
    requires Inv(fini, s) && Enabled(s, t, a)
    requires a.Lock? || a.Sleep? || a.Wake? || a.Skip? || a.CtorReturn?
    ensures StackOk(Apply(fini, s, t, a), t)
  {
    var s' := Apply(fini, s, t, a);
    var f, f' := Top(Stack(s, t)), Top(Stack(s', t));
    assert StackOk(s, t);
    assert FrameOk(s, t, f);
    assert FrameOk(s', t, f') by {
      assert f'.queue == f.queue && f'.i == if a.Skip? then f.i + 1 else f.i;
      forall j | 0 <= j < f'.i ensures Satisfied(s', t, f'.queue[j]) {
        assert j < f.i ==> Satisfied(s, t, f.queue[j]);
      }
    }
    SetTopKeeps(s, s', t);
  }

  /** The steps of the exit walk. */
  lemma WalkKeeps(fini: set<Dso>, s: State, t: Tid, a: Action)
    requires Inv(fini, s) && Enabled(s, t, a)
    requires a.ExitLock? || a.ExitSleep? || a.ExitWake? || a.ExitRelock? || a.ExitSkip? || a.Destroy? || a.ExitEnd?
    ensures StackOk(Apply(fini, s, t, a), t)
  {
    assert StackOk(s, t);
    assert FrameOk(s, t, Top(Stack(s, t)));
    SetTopKeeps(s, Apply(fini, s, t, a), t);
  }

  lemma SelfKeeps(fini: set<Dso>, s: State, t: Tid, a: Action)
    requires Inv(fini, s) && Enabled(s, t, a)
    ensures StackOk(Apply(fini, s, t, a), t)
  {
    match a
    case Call(_) => PushKeeps(fini, s, t, a);
    case Exit => PushKeeps(fini, s, t, a);
    case Return => PopKeeps(fini, s, t);
    case Start => StartKeeps(fini, s, t);
    case Finish => FinishKeeps(fini, s, t);
    case Lock | Sleep | Wake | Skip | CtorReturn => MoveKeeps(fini, s, t, a);
    case _ => WalkKeeps(fini, s, t, a);
  }

  lemma HistoryKept(fini: set<Dso>, s: State, t: Tid, a: Action)
    requires Inv(fini, s) && Enabled(s, t, a)
    ensures var s' := Apply(fini, s, t, a);
      s'.visitor.Keys !! s'.constructed && NoDup(s'.started) &&
      (forall d :: d in s'.started <==> d in s'.visitor || d in s'.constructed) &&
      s'.finiList == Reverse(Filter(s'.started, fini))
  {
    assert StackOk(s, t);
    if a == Start {
      var f := Top(Stack(s, t));
      hide StackOk, ExitOk;
      ListedStart(fini, s, f.queue[f.i]);
    } else {
      if a == Finish { assert FrameOk(s, t, Top(Stack(s, t))); }
      hide Inv, StackOk;
      OthersUnlisted(fini, s, t, a);
    }
  }

  lemma OthersUnlisted(fini: set<Dso>, s: State, t: Tid, a: Action)
    requires Inv(fini, s) && Enabled(s, t, a) && a != Start && (a == Finish ==> FrameOk(s, t, Top(Stack(s, t))))
    ensures var s' := Apply(fini, s, t, a);
      s'.started == s.started && s'.finiList == s.finiList && s'.visitor.Keys !! s'.constructed &&
      s'.visitor.Keys + s'.constructed == s.visitor.Keys + s.constructed
    ensures forall d :: d in s.started <==> d in s.visitor || d in s.constructed
    ensures NoDup(s.started) && s.finiList == Reverse(Filter(s.started, fini))
  {
    hide StackOk, ExitOk, Reverse, Filter, NoDup;
  }

  lemma ListedStart(fini: set<Dso>, s: State, d: Dso)
    requires s.finiList == Reverse(Filter(s.started, fini))
    ensures (if d in fini then [d] + s.finiList else s.finiList) == Reverse(Filter(s.started + [d], fini))
  {
    assert (s.started + [d])[..|s.started|] == s.started;
    ReverseAppend(Filter(s.started, fini), d);
    assert Filter(s.started, fini) + [] == Filter(s.started, fini);
  }

  lemma {:induction false} FilterSame(ds: seq<Dso>, keep: set<Dso>, keep': set<Dso>)
    requires forall d :: d in ds ==> (d in keep <==> d in keep')
    ensures Filter(ds, keep) == Filter(ds, keep')
  {
    if ds != [] { FilterSame(ds[..|ds| - 1], keep, keep'); }
  }

  /** A DSO that another thread finishes is not one the walk has passed. */
  lemma FinishBehindWalk(fini: set<Dso>, s: State, t: Tid, pos: nat)
    requires Inv(fini, s) && Enabled(s, t, Finish) && s.exiter.Some? && t != s.exiter.value
    requires pos <= |s.finiList| && forall j :: 0 <= j < pos ==> Satisfied(s, s.exiter.value, s.finiList[j])
    ensures Filter(s.finiList[..pos], Apply(fini, s, t, Finish).constructed) ==
            Filter(s.finiList[..pos], s.constructed)
  {
    var s' := Apply(fini, s, t, Finish);
    assert StackOk(s, t);
    assert FrameOk(s, t, Top(Stack(s, t)));
    forall d | d in s.finiList[..pos] ensures d in s.constructed <==> d in s'.constructed {
      var j :| 0 <= j < pos && d == s.finiList[j];
      assert Satisfied(s, s.exiter.value, s.finiList[j]);
    }
    FilterSame(s.finiList[..pos], s.constructed, s'.constructed);
  }

  lemma ExitKeptByOthers(fini: set<Dso>, s: State, t: Tid, a: Action)
    requires Inv(fini, s) && Enabled(s, t, a) && s.exiter.Some? && t != s.exiter.value
    ensures ExitOk(Apply(fini, s, t, a))
  {
    var s' := Apply(fini, s, t, a);
    var e := s.exiter.value;
    assert StackOk(s, t) && StackOk(s, e) && ExitOk(s);
    var f := Top(Stack(s, e));
    assert FrameOk(s, e, f);
    if a.Finish? { FinishBehindWalk(fini, s, t, f.pos); }
    assert Stack(s, t) == [] || FrameOk(s, t, Top(Stack(s, t)));
    StepSpares(fini, s, t, a, e);
    hide Inv, StackOk, Filter;
    assert s'.destroyed == s.destroyed && (a.Finish? || s'.constructed == s.constructed);
    assert s'.finiList[..f.pos] == s.finiList[..f.pos];
    hide Apply, Enabled, FrameOk;
    forall j | 0 <= j < f.pos ensures Satisfied(s', e, s'.finiList[j]) {
      assert s'.finiList[j] == s'.finiList[..f.pos][j] == s.finiList[..f.pos][j] == s.finiList[j];
      assert Satisfied(s, e, s.finiList[j]);
    }
  }

  lemma ExitKeptBySelf(fini: set<Dso>, s: State, t: Tid, a: Action)
    requires Inv(fini, s) && Enabled(s, t, a) && s.exiter == Some(t)
    ensures ExitOk(Apply(fini, s, t, a))
  {
    var f := Top(Stack(s, t));
    assert StackOk(s, t);
    assert FrameOk(s, t, f);
    if a.Destroy? || a.ExitSkip? { ExitKeptByWalk(fini, s, t, a); }
  }

  lemma ExitKeptByWalk(fini: set<Dso>, s: State, t: Tid, a: Action)
    requires Inv(fini, s) && Enabled(s, t, a) && s.exiter == Some(t) && (a.Destroy? || a.ExitSkip?)
    ensures ExitOk(Apply(fini, s, t, a))
  {
    hide StackOk, NoDup, Reverse;
    var f := Top(Stack(s, t));
    assert s.finiList[..f.pos + 1][..f.pos] == s.finiList[..f.pos];
    FiniStarted(fini, s, f.pos);
  }

  lemma ExitKept(fini: set<Dso>, s: State, t: Tid, a: Action)
    requires Inv(fini, s) && Enabled(s, t, a)
    ensures ExitOk(Apply(fini, s, t, a))
  {
    if s.exiter == Some(t) {
      ExitKeptBySelf(fini, s, t, a);
    } else if s.exiter.Some? {
      ExitKeptByOthers(fini, s, t, a);
    } else {
      assert StackOk(s, t);
    }
  }

  lemma {:induction false} FilterSub(ds: seq<Dso>, keep: set<Dso>)
    ensures forall d :: d in Filter(ds, keep) <==> d in ds && d in keep
  {
    if ds != [] {
      FilterSub(ds[..|ds| - 1], keep);
      assert ds == ds[..|ds| - 1] + [ds[|ds| - 1]];
    }
  }

  lemma FiniStarted(fini: set<Dso>, s: State, j: nat)
    requires Inv(fini, s) && j < |s.finiList|
    ensures s.finiList[j] in s.started && s.finiList[j] in fini
  {
    var fs := Filter(s.started, fini);
    ReverseAt(fs, j);
    FilterSub(s.started, fini);
    assert fs[|fs| - 1 - j] in fs;
  }

  lemma StepKeepsInv(fini: set<Dso>, s: State, t: Tid, a: Action)
    requires Inv(fini, s) && Enabled(s, t, a)
    ensures Inv(fini, Apply(fini, s, t, a))
  {
    forall u ensures StackOk(Apply(fini, s, t, a), u) {
      if u == t { SelfKeeps(fini, s, t, a); } else { OthersKeep(fini, s, t, a, u); }
    }
    HistoryKept(fini, s, t, a);
    ExitKept(fini, s, t, a);
  }

  // ----- what holds over every run

  lemma {:induction false} RunKeepsInv(fini: set<Dso>, tr: seq<State>, k: nat)
    requires Run(fini, tr) && k < |tr|
    ensures Inv(fini, tr[k])
  {
    hide Enabled, Apply, Inv;
    if k == 0 {
      InitialInv(fini);
    } else {
      RunKeepsInv(fini, tr, k - 1);
      assert Step(fini, tr[k - 1], tr[k - 1 + 1]);
      var t, a :| Enabled(tr[k - 1], t, a) && tr[k] == Apply(fini, tr[k - 1], t, a);
      StepKeepsInv(fini, tr[k - 1], t, a);
    }
  }

  lemma StepGrows(fini: set<Dso>, s: State, t: Tid, a: Action)
    requires Enabled(s, t, a)
    ensures var s' := Apply(fini, s, t, a);
      s.started <= s'.started && s.destroyed <= s'.destroyed && s.constructed <= s'.constructed &&
      (s.shuttingDown ==> s'.shuttingDown && s'.started == s.started && s'.finiList == s.finiList)
  {
  }

  /** Histories only grow, shutdown is permanent, and from shutdown on no
      constructor starts and the list of destructors to run is frozen. */
  lemma {:induction false} HistoriesGrow(fini: set<Dso>, tr: seq<State>, k: nat, l: nat)
    requires Run(fini, tr) && k <= l < |tr|
    ensures tr[k].started <= tr[l].started && tr[k].constructed <= tr[l].constructed
    ensures tr[k].destroyed <= tr[l].destroyed
    ensures tr[k].shuttingDown ==>
      tr[l].shuttingDown && tr[l].started == tr[k].started && tr[l].finiList == tr[k].finiList
    decreases l
  {
    hide Enabled, Apply;
    if k < l {
      HistoriesGrow(fini, tr, k, l - 1);
      assert Step(fini, tr[l - 1], tr[l - 1 + 1]);
      var t, a :| Enabled(tr[l - 1], t, a) && tr[l] == Apply(fini, tr[l - 1], t, a);
      StepGrows(fini, tr[l - 1], t, a);
    }
  }

  /** Each DSO's constructors are started at most once in a whole run. */
  lemma ConstructorsStartOnce(fini: set<Dso>, tr: seq<State>, k: nat)
    requires Run(fini, tr) && k < |tr|
    ensures NoDup(tr[k].started)
    ensures forall d :: d in tr[k].started <==> d in tr[k].visitor || d in tr[k].constructed
  {
    RunKeepsInv(fini, tr, k);
  }

  /** Two frames that are inside constructors, of one thread or of two, are inside
      those of different DSOs. */
  lemma ConstructorsExclude(fini: set<Dso>, s: State, t: Tid, f: nat, u: Tid, g: nat)
    requires Inv(fini, s) && (t, f) != (u, g)
    requires f < |Stack(s, t)| && Constructing(Stack(s, t)[f])
    requires g < |Stack(s, u)| && Constructing(Stack(s, u)[g])
    ensures var ft, gu := Stack(s, t)[f], Stack(s, u)[g];
      ft.i < |ft.queue| && gu.i < |gu.queue| && ft.queue[ft.i] != gu.queue[gu.i]
  {
    assert StackOk(s, t) && StackOk(s, u);
    assert FrameOk(s, t, Stack(s, t)[f]) && FrameOk(s, u, Stack(s, u)[g]);
  }

  /** When a thread starts a constructor, every DSO before it in that thread's queue
      is constructed, or is under construction by the same thread. */
  lemma EarlierInQueueFirst(fini: set<Dso>, tr: seq<State>, k: nat, t: Tid, j: nat)
    requires Run(fini, tr) && k < |tr| && Enabled(tr[k], t, Start)
    requires j < Top(Stack(tr[k], t)).i
    ensures Satisfied(tr[k], t, Top(Stack(tr[k], t)).queue[j])
  {
    RunKeepsInv(fini, tr, k);
    assert StackOk(tr[k], t);
    assert FrameOk(tr[k], t, Top(Stack(tr[k], t)));
  }

  /** The list headed by `fini_head` never holds a DSO twice, and lists the started
      DSOs that have destructors, latest start first. */
  lemma FiniListReversesStarts(fini: set<Dso>, tr: seq<State>, k: nat)
    requires Run(fini, tr) && k < |tr|
    ensures NoDup(tr[k].finiList)
    ensures forall d :: d in tr[k].finiList <==> d in tr[k].started && d in fini
    ensures Against(tr[k].started, tr[k].finiList)
  {
    RunKeepsInv(fini, tr, k);
    var st := tr[k].started;
    var fs := Filter(st, fini);
    assert tr[k].finiList == Reverse(fs) && NoDup(st);
    hide Inv, Filter, Reverse, Before, Run;
    FilterSub(st, fini);
    FilterOrder(st, fini);
    ReverseAgainst(st, fs);
    forall d ensures d in tr[k].finiList <==> d in fs { ReverseMembers(fs, d); }
  }

  lemma ReverseAgainst(st: seq<Dso>, fs: seq<Dso>)
    requires NoDup(fs) && Along(st, fs)
    ensures NoDup(Reverse(fs)) && Against(st, Reverse(fs))
  {
    hide Before, Reverse;
    var n, r := |fs|, Reverse(fs);
    forall i, j | 0 <= i < j < n ensures Before(st, r[j], r[i]) && r[i] != r[j] {
      ReverseAt(fs, i);
      ReverseAt(fs, j);
      assert Before(st, fs[n - 1 - j], fs[n - 1 - i]);
    }
  }

  /** Filtering keeps the order of a duplicate-free sequence. */
  lemma {:induction false} FilterOrder(ds: seq<Dso>, keep: set<Dso>)
    requires NoDup(ds)
    ensures NoDup(Filter(ds, keep)) && Along(ds, Filter(ds, keep))
  {
    if ds != [] {
      var m := |ds| - 1;
      var fs := Filter(ds[..m], keep);
      FilterOrder(ds[..m], keep);
      FilterSub(ds[..m], keep);
      forall i, j | 0 <= i < j < |Filter(ds, keep)| ensures Before(ds, Filter(ds, keep)[i], Filter(ds, keep)[j]) {
        assert fs[i] in ds[..m];
        if j < |fs| {
          assert Before(ds[..m], fs[i], fs[j]);
          var p, q :| 0 <= p < q < m && ds[..m][p] == fs[i] && ds[..m][q] == fs[j];
          assert ds[p] == fs[i] && ds[q] == fs[j];
        } else {
          var p :| 0 <= p < m && ds[..m][p] == fs[i];
          assert ds[p] == fs[i];
        }
      }
    }
  }

  /** Destructors run at most once per DSO, only for DSOs whose constructors have
      returned, and in the reverse of the order in which constructors started. */
  lemma DestructorsReverseConstructors(fini: set<Dso>, tr: seq<State>, k: nat)
    requires Run(fini, tr) && k < |tr|
    ensures NoDup(tr[k].destroyed)
    ensures forall d :: d in tr[k].destroyed ==> d in tr[k].constructed && d in fini && d !in tr[k].visitor
    ensures Against(tr[k].started, tr[k].destroyed)
  {
    RunKeepsInv(fini, tr, k);
    var s := tr[k];
    if s.exiter.Some? {
      var pos := Top(Stack(s, s.exiter.value)).pos;
      var done := s.finiList[..pos];
      FiniListReversesStarts(fini, tr, k);
      FilterSub(done, s.constructed);
      FilterOrder(done, s.constructed);
      forall i, j | 0 <= i < j < |s.destroyed| ensures Before(s.started, s.destroyed[j], s.destroyed[i]) {
        assert Before(done, s.destroyed[i], s.destroyed[j]);
        var p, q :| 0 <= p < q < pos && done[p] == s.destroyed[i] && done[q] == s.destroyed[j];
        assert s.finiList[p] == done[p] && s.finiList[q] == done[q];
      }
      assert forall d :: d in done ==> d in s.finiList;
    }
  }

  /** When the exit walk ends, the destructors have run of exactly the DSOs that have
      destructors and are constructed; any other DSO with destructors whose
      constructors ever started is one the exiting thread is inside of. */
  lemma ExitIsComplete(fini: set<Dso>, tr: seq<State>, k: nat, t: Tid)
    requires Run(fini, tr) && k < |tr| && FiniAt(tr[k], t, Done)
    ensures forall d :: d in tr[k].destroyed <==> d in fini && d in tr[k].constructed
    ensures forall d :: d in fini && d in tr[k].started && d !in tr[k].destroyed ==>
      d in tr[k].visitor && tr[k].visitor[d] == t
  {
    RunKeepsInv(fini, tr, k);
    var s := tr[k];
    assert StackOk(s, t);
    assert FrameOk(s, t, Top(Stack(s, t)));
    assert s.finiList[..|s.finiList|] == s.finiList;
    FiniListReversesStarts(fini, tr, k);
    FilterSub(s.finiList, s.constructed);
    forall d | d in fini && d in s.started && d !in s.destroyed
      ensures d in s.visitor && s.visitor[d] == t
    {
      var j :| 0 <= j < |s.finiList| && s.finiList[j] == d;
      assert Satisfied(s, t, s.finiList[j]);
    }
  }
}
