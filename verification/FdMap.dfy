/** The four-level table from file descriptors to AIO queues, grown on demand. */
module FdMap {
  import opened Wrappers

  type Queue = nat

  const INT_LIMIT := 0x8000_0000

  /** Nonnegative C ints. */
  type Fd = fd: int | 0 <= fd < INT_LIMIT

  type Level4 = l: seq<Option<Queue>> | |l| == 256 witness seq(256, _ => None)
  type Level3 = l: seq<Option<Level4>> | |l| == 256 witness seq(256, _ => None)
  type Level2 = l: seq<Option<Level3>> | |l| == 256 witness seq(256, _ => None)

  /** `(-1U/2+1)>>24` entries. */
  type Level1 = l: seq<Option<Level2>> | |l| == 128 witness seq(128, _ => None)

  /** The four indices: `fd>>24`, and the bytes below it. */
  function A(fd: Fd): (r: nat)
    ensures r < 128
  { fd / 0x1000000 }

  function B(fd: Fd): (r: nat)
    ensures r < 256
  { fd / 0x10000 % 256 }

  function C(fd: Fd): (r: nat)
    ensures r < 256
  { fd / 0x100 % 256 }

  function D(fd: Fd): (r: nat)
    ensures r < 256
  { fd % 256 }

  /** Different descriptors have different index paths. */
  lemma PathsDiffer(x: Fd, y: Fd)
    requires A(x) == A(y) && B(x) == B(y) && C(x) == C(y) && D(x) == D(y)
    ensures x == y
  {
    FromPath(x);
    FromPath(y);
  }

  lemma FromPath(fd: Fd)
    ensures fd == 0x1000000 * A(fd) + 0x10000 * B(fd) + 0x100 * C(fd) + D(fd)
  {
    var h := fd / 0x100;
    var g := h / 0x100;
    assert fd == 0x100 * h + D(fd);
    assert h == 0x100 * g + C(fd);
    assert fd / 0x10000 == g && fd / 0x1000000 == g / 0x100;
  }

  /** What the chain of null tests in `__aio_get_queue` finds. */
  function Lookup(m: Option<Level1>, fd: Fd): Option<Queue> {
    if m.None? then None else
    var l2 := m.value[A(fd)]; if l2.None? then None else
    var l3 := l2.value[B(fd)]; if l3.None? then None else
    var l4 := l3.value[C(fd)]; if l4.None? then None else
    l4.value[D(fd)]
  }

  class Map {
    var root: Option<Level1>

    /** The table as a plain map. */
    ghost predicate Agrees(m: map<Fd, Queue>)
      reads this
    {
      forall fd: Fd :: Lookup(root, fd) == if fd in m then Some(m[fd]) else None
    }

    constructor ()
      ensures Agrees(map[])
    {
      root := None;
    }

    method Get(fd: Fd, ghost m: map<Fd, Queue>) returns (q: Option<Queue>)
      requires Agrees(m)
      ensures q == if fd in m then Some(m[fd]) else None
    {
      q := None;
      if root.Some? && root.value[A(fd)].Some? {
        var l2 := root.value[A(fd)].value;
        if l2[B(fd)].Some? && l2[B(fd)].value[C(fd)].Some? {
          q := l2[B(fd)].value[C(fd)].value[D(fd)];
        }
      }
    }

    /** Allocate the missing levels, then store the new queue. */
    method Put(fd: Fd, q: Queue, ghost m: map<Fd, Queue>)
      requires Agrees(m)
      modifies this
      ensures Agrees(m[fd := q])
    {
      ghost var before := root;
      var l1: Level1 := if root.Some? then root.value else seq(128, _ => None);
      var l2: Level2 := if l1[A(fd)].Some? then l1[A(fd)].value else seq(256, _ => None);
      var l3: Level3 := if l2[B(fd)].Some? then l2[B(fd)].value else seq(256, _ => None);
      var l4: Level4 := if l3[C(fd)].Some? then l3[C(fd)].value else seq(256, _ => None);
      l4 := l4[D(fd) := Some(q)];
      l3 := l3[C(fd) := Some(l4)];
      l2 := l2[B(fd) := Some(l3)];
      root := Some(l1[A(fd) := Some(l2)]);
      forall x: Fd ensures Lookup(root, x) == if x == fd then Some(q) else Lookup(before, x) {
        if A(x) == A(fd) && B(x) == B(fd) && C(x) == C(fd) && D(x) == D(fd) { PathsDiffer(x, fd); }
      }
    }

    /** `map[a][b][c][d] = 0`, for a descriptor that has a queue. */
    method Clear(fd: Fd, ghost m: map<Fd, Queue>)
      requires Agrees(m) && fd in m
      modifies this
      ensures Agrees(m - {fd})
    {
      ghost var before := root;
      assert Lookup(root, fd).Some?;
      var l1 := root.value;
      var l2 := l1[A(fd)].value;
      var l3 := l2[B(fd)].value;
      var l4 := l3[C(fd)].value;
      l4 := l4[D(fd) := None];
      l3 := l3[C(fd) := Some(l4)];
      l2 := l2[B(fd) := Some(l3)];
      root := Some(l1[A(fd) := Some(l2)]);
      forall x: Fd ensures Lookup(root, x) == if x == fd then None else Lookup(before, x) {
        if A(x) == A(fd) && B(x) == B(fd) && C(x) == C(fd) && D(x) == D(fd) { PathsDiffer(x, fd); }
      }
    }
  }
}
