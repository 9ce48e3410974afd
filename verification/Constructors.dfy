/** The constructor protocol run on the queues that the dependency sort produces. */
module Constructors {
  import opened DepGraph
  import opened CtorQueue
  import P = CtorProtocol
  import C = CtorCalls

  /** Over every interleaving: when a thread that works through a queue for `root`
      starts the constructors of a DSO, each direct dependency of that DSO is already
      constructed, or under construction by this very thread, or itself depends on the
      DSO being started. */
  lemma DependenciesConstructedFirst(fini: set<Dso>, tr: seq<P.State>, k: nat, t: P.Tid,
                                     g: Graph, root: Dso, d: Dso)
    requires P.Run(fini, tr) && k < |tr| && P.Enabled(tr[k], t, P.Start)
    requires QueueFor(g, root, P.Top(P.Stack(tr[k], t)).queue)
    requires var f := P.Top(P.Stack(tr[k], t)); Edge(g, f.queue[f.i], d)
    ensures var f := P.Top(P.Stack(tr[k], t));
      P.Satisfied(tr[k], t, d) || Reaches(g, d, f.queue[f.i])
  {
    var f := P.Top(P.Stack(tr[k], t));
    assert DependencyFirst(g, f.queue, f.i, d);
    if !Reaches(g, d, f.queue[f.i]) {
      var j :| 0 <= j < f.i && f.queue[..f.i][j] == d;
      P.EarlierInQueueFirst(fini, tr, k, t, j);
    }
  }

  /** Over every interleaving: when a call on the queue for `root` has returned, everything
      `root` depends on, and `root` itself, is constructed, or the same thread is inside its
      constructors further down; if the call was not made from a constructor, all of it is
      constructed. */
  lemma OpenedIsConstructed(fini: set<Dso>, tr: seq<P.State>, acts: seq<C.Move>, t: P.Tid, g: Graph, root: Dso, q: seq<Dso>,
                            k: nat, l: nat, d: Dso)
    requires C.Trace(fini, tr, acts) && C.CallSpan(tr, acts, t, q, k, l) && QueueFor(g, root, q) && Reaches(g, root, d)
    ensures P.Satisfied(tr[l], t, d)
    ensures P.Stack(tr[k], t) == [] ==> d in tr[l].constructed
  {
    C.CallGoesThrough(fini, tr, acts, t, q, k, l);
    assert d in q;
  }
}
