/** What a whole call of `do_init_fini` achieves, and whom a thread waits for. */
module CtorCalls {
  import opened CtorProtocol
  import opened Wrappers

  datatype Move = Move(t: Tid, a: Action)

  /** A run, with the steps that were taken. */
  ghost predicate Trace(fini: set<Dso>, tr: seq<State>, acts: seq<Move>) {
    |tr| == |acts| + 1 && tr[0] == Initial && forall k :: 0 <= k < |acts| ==> Taken(fini, tr[k], acts[k], tr[k + 1])
  }

  ghost predicate Taken(fini: set<Dso>, s: State, m: Move, s': State) {
    Enabled(s, m.t, m.a) && s' == Apply(fini, s, m.t, m.a)
  }

  lemma TraceIsRun(fini: set<Dso>, tr: seq<State>, acts: seq<Move>)
    requires Trace(fini, tr, acts)
    ensures Run(fini, tr)
  {
    hide Enabled, Apply;
    forall k | 0 <= k < |tr| - 1 ensures Step(fini, tr[k], tr[k + 1]) {
      assert Taken(fini, tr[k], acts[k], tr[k + 1]);
    }
  }

  // ----- what a step does to the stacks

  /** A step of a thread pushes a frame, pops one, or changes the top one. */
  ghost predicate Stepped(fs: seq<Frame>, fs': seq<Frame>, a: Action) {
    match a
    case Call(q) => fs' == fs + [Init(q, 0, Acquire)]
    case Exit => fs' == fs + [Fini(0, Enter)]
    case Return => fs != [] && Top(fs).Init? && Top(fs).i == |Top(fs).queue| && !Constructing(Top(fs)) && fs' == fs[..|fs| - 1]
    case _ =>
      fs != [] && |fs'| == |fs| && (forall k :: 0 <= k < |fs| - 1 ==> fs'[k] == fs[k]) && TopMoved(Top(fs), Top(fs'), a)
  }

  predicate TopMoved(f: Frame, f': Frame, a: Action) {
    if f.Fini? then f'.Fini?
    else
      f'.Init? && f'.queue == f.queue &&
      (Constructing(f) && a != Finish ==> Constructing(f') && f'.i == f.i) &&
      (a == Start ==> Constructing(f') && f'.i == f.i < |f.queue|)
  }

  lemma StackStepped(fini: set<Dso>, s: State, m: Move, s': State)
    requires Taken(fini, s, m, s')
    ensures Stepped(Stack(s, m.t), Stack(s', m.t), m.a)
  {
    hide Stepped, Enabled, Apply;
    OwnStep(fini, s, m.t, m.a);
  }

  lemma OwnStep(fini: set<Dso>, s: State, t: Tid, a: Action)
    requires Enabled(s, t, a)
    ensures Stepped(Stack(s, t), Stack(Apply(fini, s, t, a), t), a)
  {
    match a
    case Call(_) =>
    case Exit =>
    case Return =>
    case _ => TopStep(fini, s, t, a);
  }

  lemma TopStep(fini: set<Dso>, s: State, t: Tid, a: Action)
    requires Enabled(s, t, a) && !a.Call? && !a.Exit? && !a.Return?
    ensures var fs, fs' := Stack(s, t), Stack(Apply(fini, s, t, a), t);
      fs != [] && |fs'| == |fs| && (forall k :: 0 <= k < |fs| - 1 ==> fs'[k] == fs[k]) && TopMoved(Top(fs), Top(fs'), a)
  {
    match a
    case Lock | Sleep | Wake | Skip =>
    case Start | CtorReturn | Finish =>
    case ExitLock | ExitSleep | ExitWake | ExitRelock =>
    case ExitSkip | Destroy | ExitEnd =>
  }

  lemma OtherStacks(fini: set<Dso>, s: State, m: Move, s': State, u: Tid)
    requires Taken(fini, s, m, s') && u != m.t
    ensures Stack(s', u) == Stack(s, u)
  {
    hide Enabled, Apply;
    OtherStep(fini, s, m.t, m.a, u);
  }

  lemma OtherStep(fini: set<Dso>, s: State, t: Tid, a: Action, u: Tid)
    requires Enabled(s, t, a) && u != t
    ensures Stack(Apply(fini, s, t, a), u) == Stack(s, u)
  {
    match a
    case Call(_) | Exit | Return =>
    case Lock | Sleep | Wake | Skip =>
    case Start | CtorReturn | Finish =>
    case ExitLock | ExitSleep | ExitWake | ExitRelock =>
    case ExitSkip | Destroy | ExitEnd =>
  }

  /** The DSO of the top frame. */
  ghost predicate Current(fs: seq<Frame>, d: Dso) {
    fs != [] && Top(fs).Init? && Top(fs).i < |Top(fs).queue| && Top(fs).queue[Top(fs).i] == d
  }

  lemma VisitorsStepped(fini: set<Dso>, s: State, m: Move, s': State, d: Dso)
    requires Taken(fini, s, m, s')
    ensures d in s'.visitor && !(m.a == Start && Current(Stack(s, m.t), d)) ==> d in s.visitor && s'.visitor[d] == s.visitor[d]
    ensures m.a == Start && Current(Stack(s, m.t), d) ==> d in s'.visitor && s'.visitor[d] == m.t
    ensures m.a == Finish && Current(Stack(s, m.t), d) ==> d !in s'.visitor
    ensures s.constructed <= s'.constructed && (m.a == Return ==> s'.visitor == s.visitor)
  {
  }

  // ----- a call

  /** Step `k` of the trace calls `do_init_fini` with `q` in thread `t`, and the call returns
      with step `l - 1`: until then the stack is deeper. */
  ghost predicate CallSpan(tr: seq<State>, acts: seq<Move>, t: Tid, q: seq<Dso>, k: nat, l: nat) {
    k < l <= |acts| && |tr| == |acts| + 1 && acts[k] == Move(t, Call(q)) &&
    |Stack(tr[l], t)| <= |Stack(tr[k], t)| && Deeper(tr, t, |Stack(tr[k], t)|, k + 1, l)
  }

  ghost predicate Deeper(tr: seq<State>, t: Tid, n: nat, k: nat, l: nat) {
    forall m :: k <= m < l && m < |tr| ==> |Stack(tr[m], t)| > n
  }

  ghost predicate WorksThrough(s: State, t: Tid, n: nat, q: seq<Dso>) {
    |Stack(s, t)| > n && Stack(s, t)[n].Init? && Stack(s, t)[n].queue == q
  }

  /** The frame at one level keeps its queue as long as it is there. */
  lemma FrameStays(fini: set<Dso>, s: State, m: Move, s': State, t: Tid, n: nat, q: seq<Dso>)
    requires Taken(fini, s, m, s') && WorksThrough(s, t, n, q) && |Stack(s', t)| > n
    ensures WorksThrough(s', t, n, q)
  {
    hide Enabled, Apply;
    if m.t == t { StackStepped(fini, s, m, s'); } else { OtherStacks(fini, s, m, s', t); }
  }

  lemma {:induction false} CallKeepsQueue(fini: set<Dso>, tr: seq<State>, acts: seq<Move>, t: Tid, q: seq<Dso>, k: nat, m: nat)
    requires Trace(fini, tr, acts) && k < m < |tr| && acts[k] == Move(t, Call(q))
    requires Deeper(tr, t, |Stack(tr[k], t)|, k + 1, m + 1)
    ensures WorksThrough(tr[m], t, |Stack(tr[k], t)|, q)
  {
    hide Enabled, Apply;
    assert Taken(fini, tr[m - 1], acts[m - 1], tr[m - 1 + 1]);
    if m == k + 1 {
      StackStepped(fini, tr[k], acts[k], tr[m]);
    } else {
      CallKeepsQueue(fini, tr, acts, t, q, k, m - 1);
      FrameStays(fini, tr[m - 1], acts[m - 1], tr[m], t, |Stack(tr[k], t)|, q);
    }
  }

  /** A stack gets shorter only by the return of a call that has gone through its queue. */
  lemma PopsWhenDone(fini: set<Dso>, s: State, m: Move, s': State, t: Tid)
    requires Inv(fini, s) && Taken(fini, s, m, s') && |Stack(s', t)| < |Stack(s, t)|
    ensures |Stack(s', t)| == |Stack(s, t)| - 1 && Top(Stack(s, t)).Init?
    ensures forall d :: d in Top(Stack(s, t)).queue ==> Satisfied(s', t, d)
  {
    hide Enabled, Apply;
    assert StackOk(s, t);
    var f := Top(Stack(s, t));
    assert FrameOk(s, t, f);
    if m.t == t { StackStepped(fini, s, m, s'); } else { OtherStacks(fini, s, m, s', t); }
    VisitorsStepped(fini, s, m, s', 0);
    hide Inv, StackOk;
    forall d | d in f.queue ensures Satisfied(s', t, d) {
      var j :| 0 <= j < |f.queue| && f.queue[j] == d;
      assert Satisfied(s, t, f.queue[j]);
    }
  }

  /** A call that has returned has gone through the queue it was given: every DSO of it is
      constructed, or the thread is inside its constructors further down. */
  lemma CallGoesThrough(fini: set<Dso>, tr: seq<State>, acts: seq<Move>, t: Tid, q: seq<Dso>, k: nat, l: nat)
    requires Trace(fini, tr, acts) && CallSpan(tr, acts, t, q, k, l)
    ensures forall d :: d in q ==> Satisfied(tr[l], t, d)
    ensures Stack(tr[k], t) == [] ==> forall d :: d in q ==> d in tr[l].constructed
  {
    hide Enabled, Apply, Inv;
    TraceIsRun(fini, tr, acts);
    RunKeepsInv(fini, tr, l - 1);
    var n := |Stack(tr[k], t)|;
    assert Taken(fini, tr[l - 1], acts[l - 1], tr[l - 1 + 1]);
    if l == k + 1 {
      StackStepped(fini, tr[k], acts[k], tr[l]);
    } else {
      CallKeepsQueue(fini, tr, acts, t, q, k, l - 1);
      PopsWhenDone(fini, tr[l - 1], acts[l - 1], tr[l], t);
    }
    if Stack(tr[k], t) == [] {
      VisitorsRun(fini, tr, l);
      assert forall d :: !InCtor(tr[l], t, d);
    }
  }

  // ----- visitors

  /** Thread `t` is inside the constructors of `d`. */
  ghost predicate InCtor(s: State, t: Tid, d: Dso) {
    exists k :: 0 <= k < |Stack(s, t)| && CtorFrame(Stack(s, t)[k], d)
  }

  predicate CtorFrame(f: Frame, d: Dso) { Constructing(f) && f.i < |f.queue| && f.queue[f.i] == d }

  ghost predicate Visiting(s: State) { forall d :: d in s.visitor ==> InCtor(s, s.visitor[d], d) }

  lemma VisitKept(fini: set<Dso>, s: State, m: Move, s': State, d: Dso)
    requires Visiting(s) && Taken(fini, s, m, s') && d in s'.visitor
    ensures InCtor(s', s'.visitor[d], d)
  {
    hide Enabled, Apply;
    StackStepped(fini, s, m, s');
    VisitorsStepped(fini, s, m, s', d);
    var fs, fs' := Stack(s, m.t), Stack(s', m.t);
    if m.a == Start && Current(fs, d) {
      assert CtorFrame(fs'[|fs'| - 1], d);
    } else {
      var u := s.visitor[d];
      var k :| 0 <= k < |Stack(s, u)| && CtorFrame(Stack(s, u)[k], d);
      if u == m.t {
        assert k == |fs| - 1 ==> Current(fs, d);
      } else {
        OtherStacks(fini, s, m, s', u);
      }
      assert CtorFrame(Stack(s', u)[k], d);
    }
  }

  /** Whoever is the visitor of a DSO is inside its constructors. */
  lemma {:induction false} VisitorsRun(fini: set<Dso>, tr: seq<State>, k: nat)
    requires Run(fini, tr) && k < |tr|
    ensures Visiting(tr[k])
  {
    hide Enabled, Apply, Inv;
    if k > 0 {
      VisitorsRun(fini, tr, k - 1);
      assert Step(fini, tr[k - 1], tr[k - 1 + 1]);
      var t, a :| Enabled(tr[k - 1], t, a) && tr[k] == Apply(fini, tr[k - 1], t, a);
      forall d | d in tr[k].visitor ensures InCtor(tr[k], tr[k].visitor[d], d) {
        VisitKept(fini, tr[k - 1], Move(t, a), tr[k], d);
      }
    }
  }

  // ----- waiting

  /** At the head of the loop body with a DSO to deal with. */
  ghost predicate Facing(s: State, t: Tid, d: Dso) {
    Stack(s, t) != [] && Top(Stack(s, t)).Init? && Top(Stack(s, t)).pc == Check &&
    Top(Stack(s, t)).i < |Top(Stack(s, t)).queue| && Top(Stack(s, t)).queue[Top(Stack(s, t)).i] == d
  }

  /** Another thread is inside the constructors of `d`. */
  ghost predicate OtherInside(s: State, t: Tid, d: Dso) { exists u: Tid :: u != t && InCtor(s, u, d) }

  lemma OthersVisit(fini: set<Dso>, tr: seq<State>, k: nat, t: Tid, d: Dso)
    requires Run(fini, tr) && k < |tr|
    ensures VisitedByOther(tr[k], t, d) <==> OtherInside(tr[k], t, d)
  {
    RunKeepsInv(fini, tr, k);
    VisitorsRun(fini, tr, k);
    if u: Tid :| u != t && InCtor(tr[k], u, d) {
      assert StackOk(tr[k], u);
      var j :| 0 <= j < |Stack(tr[k], u)| && CtorFrame(Stack(tr[k], u)[j], d);
      assert FrameOk(tr[k], u, Stack(tr[k], u)[j]);
    }
  }

  /** What a thread does about the DSO it has come to, in every run: it sleeps exactly while
      the process exits or another thread is inside that DSO's constructors; otherwise it
      starts them if nobody ever has, and goes on to the next if somebody has. */
  lemma Dispatch(fini: set<Dso>, tr: seq<State>, k: nat, t: Tid, d: Dso, a: Action)
    requires Run(fini, tr) && k < |tr| && Facing(tr[k], t, d) && Enabled(tr[k], t, a)
    ensures var f, s' := Top(Stack(tr[k], t)), Apply(fini, tr[k], t, a);
      Stack(s', t) != [] && var f' := Top(Stack(s', t));
      if tr[k].shuttingDown || OtherInside(tr[k], t, d) then f' == f.(pc := Waiting) && s'.lock == None
      else if d in tr[k].started then f' == f.(i := f.i + 1) && s'.started == tr[k].started
      else f' == f.(pc := Running) && s'.started == tr[k].started + [d] && s'.lock == None
  {
    RunKeepsInv(fini, tr, k);
    OthersVisit(fini, tr, k, t, d);
    hide StackOk, ExitOk, OtherInside;
  }

  /** Done with the constructors of a DSO, a thread goes on to the next of its queue. */
  lemma GoesOnAfter(fini: set<Dso>, s: State, m: Move, s': State, d: Dso)
    requires Taken(fini, s, m, s') && Facing(s', m.t, d) && m.a == Finish
    ensures var f, f' := Top(Stack(s, m.t)), Top(Stack(s', m.t)); 0 < f'.i && f' == f.(pc := Check, i := f'.i) && f.i + 1 == f'.i
    ensures var f := Top(Stack(s, m.t)); f.queue[f.i] in s'.constructed && f.queue[f.i] !in s'.visitor
  {
  }

  /** It always has something to do there. */
  lemma NeverStuck(s: State, t: Tid, d: Dso)
    requires Facing(s, t, d)
    ensures exists a :: Enabled(s, t, a)
  {
    assert Enabled(s, t, Sleep) || Enabled(s, t, Skip) || Enabled(s, t, Start);
  }

  /** The DSO the exit walk has come to. */
  ghost predicate Walking(s: State, t: Tid, d: Dso) {
    FiniAt(s, t, Test) && Top(Stack(s, t)).pos < |s.finiList| && s.finiList[Top(Stack(s, t)).pos] == d
  }

  /** The exit walk sleeps exactly while another thread is inside the constructors of the DSO
      it has come to; otherwise it runs the destructors if the DSO is constructed, and goes
      on. */
  lemma WalkDispatch(fini: set<Dso>, tr: seq<State>, k: nat, t: Tid, d: Dso, a: Action)
    requires Run(fini, tr) && k < |tr| && Walking(tr[k], t, d) && Enabled(tr[k], t, a)
    ensures var f, s' := Top(Stack(tr[k], t)), Apply(fini, tr[k], t, a);
      Stack(s', t) != [] && var f' := Top(Stack(s', t));
      if OtherInside(tr[k], t, d) then f' == f.(fpc := Asleep) && s'.lock == None && s'.destroyed == tr[k].destroyed
      else f' == f.(pos := f.pos + 1) &&
           s'.destroyed == if d in tr[k].constructed then tr[k].destroyed + [d] else tr[k].destroyed
  {
    OthersVisit(fini, tr, k, t, d);
    hide OtherInside;
  }

  // ----- going forward

  /** How far a call or the exit walk is from its end. */
  function Rank(s: State, f: Frame): int {
    match f
    case Init(q, i, pc) =>
      5 * (|q| - i) + (match pc case Waiting => 4 case Acquire => 3 case Check => 2 case Running => 1 case Reacquire => 0)
    case Fini(pos, fpc) =>
      3 * (|s.finiList| - pos) + (match fpc case Enter => 4 case Asleep => 3 case Retake => 2 case Test => 1 case Done => 0)
  }

  predicate Leaves(a: Action) { a.Call? || a.Exit? || a.Sleep? || a.ExitSleep? }

  /** Every step of a call or of the exit walk brings it nearer to its end, but the ones that
      go to sleep or into another call. */
  lemma Forward(fini: set<Dso>, s: State, m: Move, s': State)
    requires Inv(fini, s) && Taken(fini, s, m, s') && !Leaves(m.a)
    ensures Stack(s, m.t) != [] && Rank(s, Top(Stack(s, m.t))) >= 0
    ensures |Stack(s', m.t)| < |Stack(s, m.t)| ||
            (|Stack(s', m.t)| == |Stack(s, m.t)| && Rank(s', Top(Stack(s', m.t))) < Rank(s, Top(Stack(s, m.t))))
  {
    assert StackOk(s, m.t) && FrameOk(s, m.t, Top(Stack(s, m.t)));
    hide Inv;
    if Top(Stack(s, m.t)).Init? { InitForward(fini, s, m.t, m.a); } else { FiniForward(fini, s, m.t, m.a); }
  }

  lemma InitForward(fini: set<Dso>, s: State, t: Tid, a: Action)
    requires Enabled(s, t, a) && !Leaves(a) && Stack(s, t) != [] && Top(Stack(s, t)).Init?
    requires FrameOk(s, t, Top(Stack(s, t)))
    ensures var fs, fs' := Stack(s, t), Stack(Apply(fini, s, t, a), t);
      Rank(s, Top(fs)) >= 0 &&
      (|fs'| < |fs| || (|fs'| == |fs| && Rank(Apply(fini, s, t, a), Top(fs')) < Rank(s, Top(fs))))
  {
    match a
    case Lock =>
    case Wake =>
    case Skip =>
    case Start =>
    case CtorReturn =>
    case Finish =>
    case Return =>
  }

  lemma FiniForward(fini: set<Dso>, s: State, t: Tid, a: Action)
    requires Enabled(s, t, a) && !Leaves(a) && Stack(s, t) != [] && Top(Stack(s, t)).Fini?
    requires FrameOk(s, t, Top(Stack(s, t)))
    ensures var fs, fs' := Stack(s, t), Stack(Apply(fini, s, t, a), t);
      Rank(s, Top(fs)) >= 0 && |fs'| == |fs| && Rank(Apply(fini, s, t, a), Top(fs')) < Rank(s, Top(fs))
  {
    match a
    case ExitLock =>
    case ExitWake =>
    case ExitRelock =>
    case ExitSkip =>
    case Destroy =>
    case ExitEnd =>
  }

  /** The exit walk is over. */
  predicate Over(s: State, t: Tid) { FiniAt(s, t, Done) }

  /** A thread in a call or in the walk has something to do whenever the lock is free or its
      own. */
  lemma NotBlocked(fini: set<Dso>, tr: seq<State>, k: nat, t: Tid)
    requires Run(fini, tr) && k < |tr| && Stack(tr[k], t) != [] && !Over(tr[k], t)
    requires tr[k].lock == None || tr[k].lock == Some(t)
    ensures exists a :: Enabled(tr[k], t, a) && !a.Call? && !a.Exit?
  {
    RunKeepsInv(fini, tr, k);
    var s, f := tr[k], Top(Stack(tr[k], t));
    assert StackOk(s, t) && FrameOk(s, t, f);
    var a :=
      match f
      case Init(q, i, pc) => (
        match pc
        case Acquire => Lock
        case Check =>
          if i == |q| then Return
          else if VisitedByOther(s, t, q[i]) || s.shuttingDown then Sleep
          else if q[i] in s.visitor || q[i] in s.constructed then Skip else Start
        case Waiting => Wake
        case Running => CtorReturn
        case Reacquire => Finish)
      case Fini(pos, fpc) => (
        match fpc
        case Enter => ExitLock
        case Test =>
          if pos == |s.finiList| then ExitEnd
          else if VisitedByOther(s, t, s.finiList[pos]) then ExitSleep
          else if s.finiList[pos] in s.constructed then Destroy else ExitSkip
        case Asleep => ExitWake
        case Retake => ExitRelock
        case Done => ExitEnd);
    assert Enabled(s, t, a);
  }
}
