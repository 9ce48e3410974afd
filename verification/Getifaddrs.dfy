/** `getifaddrs`: a pass over the routing messages that sizes one allocation, and a pass
    that fills it. */
module Getifaddrs {
  import opened Arith
  import opened Bits
  import opened Wrappers

  /** Word size, alignment unit and size of `struct if_data` in bytes, bits in an address,
      and the address of the data area. */
  datatype Conf = Conf(word: nat, align: nat, ifDataSize: nat, bits: nat, base: nat)

  ghost predicate ConfOk(cf: Conf) {
    IsPow2(cf.word) && IsPow2(cf.align) && 0 < cf.word < Pow2(cf.bits) && 0 < cf.align < Pow2(cf.bits) &&
    256 + cf.word <= Pow2(cf.bits)
  }

  /** A socket address as it stands in a message: `sa_len`, and the bytes up to the next. */
  datatype Sa = Sa(len: nat, bytes: seq<nat>)

  /** Messages of the right version; `Skip` is any other. */
  datatype Msg =
    | Skip
    | IfInfo(ifp: bool, index: nat, flags: int, dl: Sa, name: string, ifData: seq<nat>)
    | NewAddr(index: nat, addrs: set<nat>, sas: seq<Sa>)

  const RTAX_NETMASK := 2
  const RTAX_IFA := 5
  const RTAX_BRD := 7
  const RTAX_MAX := 15

  predicate Masked(addrs: set<nat>, i: nat) {
    (i == RTAX_NETMASK || i == RTAX_IFA || i == RTAX_BRD) && i in addrs
  }

  /** SA_RLEN. */
  function RLen(cf: Conf, len: nat): nat
    requires 0 < cf.word < Pow2(cf.bits)
  {
    if len == 0 then cf.word else AlignUp(cf.bits, len, cf.word)
  }

  /** The length in a message: the next multiple of the word size, and one word for nothing. */
  lemma RLenIs(cf: Conf, len: nat)
    requires ConfOk(cf) && len < 256
    ensures RLen(cf, len) % cf.word == 0 && RLen(cf, len) > 0
    ensures len <= RLen(cf, len) < cf.word + if len == 0 then 1 else len
  {
    hide AlignUp, Pow2;
    if len > 0 {
      AlignUpIs(cf.bits, len, cf.word);
    } else {
      ModIs(cf.word, cf.word, 1, 0);
    }
  }

  /** How many of the wanted addresses come before index `i`. */
  function Rank(addrs: set<nat>, i: nat): nat {
    if i == 0 then 0 else Rank(addrs, i - 1) + if Masked(addrs, i - 1) then 1 else 0
  }

  ghost predicate SaOk(cf: Conf, sa: Sa) {
    0 < cf.word < Pow2(cf.bits) && sa.len < 256 && |sa.bytes| == RLen(cf, sa.len) && sa.len <= |sa.bytes|
  }

  ghost predicate MsgOk(cf: Conf, m: Msg) {
    match m
    case Skip => true
    case IfInfo(_, _, _, dl, _, _) => SaOk(cf, dl)
    case NewAddr(_, addrs, sas) =>
      Rank(addrs, RTAX_MAX) <= |sas| && forall j :: 0 <= j < |sas| ==> SaOk(cf, sas[j])
  }

  lemma {:induction false} RankGrows(addrs: set<nat>, i: nat, n: nat)
    requires i <= n
    ensures Rank(addrs, i) <= Rank(addrs, n)
    ensures i < n && Masked(addrs, i) ==> Rank(addrs, i) < Rank(addrs, n)
    decreases n - i
  {
    if i < n { RankGrows(addrs, i + 1, n); }
  }

  ghost function SaAt(cf: Conf, m: Msg, i: nat): Sa
    requires m.NewAddr? && MsgOk(cf, m) && i < RTAX_MAX && Masked(m.addrs, i)
  {
    RankGrows(m.addrs, i, RTAX_MAX);
    m.sas[Rank(m.addrs, i)]
  }

  function Zeros(n: nat): (z: seq<nat>)
    ensures |z| == n && forall i :: 0 <= i < n ==> z[i] == 0
  {
    seq(n, _ => 0)
  }

  /** The length of the interface address, which an empty netmask takes on. */
  ghost function ALen(cf: Conf, m: Msg): nat
    requires m.NewAddr? && MsgOk(cf, m)
  {
    if Masked(m.addrs, RTAX_IFA) then |SaAt(cf, m, RTAX_IFA).bytes| else 0
  }

  /** What the result holds for address `i`. */
  ghost function Address(cf: Conf, m: Msg, i: nat): Option<seq<nat>>
    requires m.NewAddr? && MsgOk(cf, m) && i < RTAX_MAX
  {
    if !Masked(m.addrs, i) then None
    else if i == RTAX_NETMASK && SaAt(cf, m, i).len == 0 then Some(Zeros(ALen(cf, m)))
    else Some(SaAt(cf, m, i).bytes)
  }

  ghost function Length(a: Option<seq<nat>>): nat { if a.Some? then |a.value| else 0 }

  ghost function Need(cf: Conf, m: Msg, i: nat): nat
    requires m.NewAddr? && MsgOk(cf, m) && i <= RTAX_MAX
  {
    if i == 0 then 0 else Need(cf, m, i - 1) + Length(Address(cf, m, i - 1))
  }

  /** One element of the result. */
  datatype Entry = Entry(name: string, flags: int, addr: Option<seq<nat>>, netmask: Option<seq<nat>>,
                         brd: Option<seq<nat>>, ifData: Option<seq<nat>>)

  function IfData(cf: Conf, d: seq<nat>): seq<nat> { if |d| > cf.ifDataSize then d[..cf.ifDataSize] else d }

  /** The meaning of the messages: the interface they are about, and the entries so far. */
  datatype State = State(index: nat, current: Option<(string, int)>, out: seq<Entry>)

  ghost predicate Relevant(s: State, m: Msg) {
    s.index != 0 && m.NewAddr? && exists i :: 0 <= i < RTAX_MAX && Masked(m.addrs, i)
  }

  ghost function Step(cf: Conf, s: State, m: Msg): State
    requires MsgOk(cf, m)
  {
    match m
    case Skip => s
    case IfInfo(ifp, index, flags, dl, name, ifData) =>
      if ifp then State(index, Some((name, flags)),
                        s.out + [Entry(name, flags, Some(dl.bytes[..dl.len]), None, None, Some(IfData(cf, ifData)))])
      else s.(index := 0)
    case NewAddr(_, _, _) =>
      if Relevant(s, m) && s.current.Some?
      then s.(out := s.out + [Entry(s.current.value.0, s.current.value.1, Address(cf, m, RTAX_IFA),
                                    Address(cf, m, RTAX_NETMASK), Address(cf, m, RTAX_BRD), None)])
      else s
  }

  ghost function After(cf: Conf, msgs: seq<Msg>, k: nat): State
    requires k <= |msgs| && forall j :: 0 <= j < |msgs| ==> MsgOk(cf, msgs[j])
  {
    if k == 0 then State(0, None, []) else Step(cf, After(cf, msgs, k - 1), msgs[k - 1])
  }

  /** The kernel's messages: addresses follow their interface, so the program does not
      abort. */
  ghost predicate BufferOk(cf: Conf, msgs: seq<Msg>) {
    ConfOk(cf) && (forall j :: 0 <= j < |msgs| ==> MsgOk(cf, msgs[j])) &&
    forall k :: 0 <= k < |msgs| ==> Follows(After(cf, msgs, k), msgs[k])
  }

  ghost predicate Follows(s: State, m: Msg) { m.NewAddr? ==> s.index == 0 || m.index == s.index }

  // ----- sizes

  ghost function DataNeed(cf: Conf, s: State, m: Msg): nat
    requires MsgOk(cf, m) && cf.align > 0
  {
    if m.IfInfo? && m.ifp then |m.dl.bytes| + (cf.align - 1) + cf.ifDataSize
    else if Relevant(s, m) then Need(cf, m, RTAX_MAX) else 0
  }

  ghost function NameNeed(m: Msg): nat { if m.IfInfo? && m.ifp then |m.name| + 1 else 0 }

  ghost function DataTotal(cf: Conf, msgs: seq<Msg>, k: nat): nat
    requires k <= |msgs| && BufferOk(cf, msgs)
  {
    if k == 0 then 0 else DataTotal(cf, msgs, k - 1) + DataNeed(cf, After(cf, msgs, k - 1), msgs[k - 1])
  }

  ghost function NameTotal(msgs: seq<Msg>, k: nat): nat
    requires k <= |msgs|
  {
    if k == 0 then 0 else NameTotal(msgs, k - 1) + NameNeed(msgs[k - 1])
  }

  lemma {:induction false} TotalsGrow(cf: Conf, msgs: seq<Msg>, k: nat, n: nat)
    requires BufferOk(cf, msgs) && k <= n <= |msgs|
    ensures DataTotal(cf, msgs, k) <= DataTotal(cf, msgs, n) && NameTotal(msgs, k) <= NameTotal(msgs, n)
    ensures |After(cf, msgs, k).out| <= |After(cf, msgs, n).out|
  {
    if k < n {
      TotalsGrow(cf, msgs, k, n - 1);
      OneGrows(cf, msgs, n);
    }
  }

  lemma OneGrows(cf: Conf, msgs: seq<Msg>, n: nat)
    requires BufferOk(cf, msgs) && 0 < n <= |msgs|
    ensures DataTotal(cf, msgs, n - 1) <= DataTotal(cf, msgs, n) && NameTotal(msgs, n - 1) <= NameTotal(msgs, n)
    ensures |After(cf, msgs, n - 1).out| <= |After(cf, msgs, n).out|
  {
  }

  /** An index is set only together with a current interface. */
  lemma {:induction false} HasCurrent(cf: Conf, msgs: seq<Msg>, k: nat)
    requires k <= |msgs| && forall j :: 0 <= j < |msgs| ==> MsgOk(cf, msgs[j])
    ensures After(cf, msgs, k).index != 0 ==> After(cf, msgs, k).current.Some?
  {
    if k > 0 { HasCurrent(cf, msgs, k - 1); }
  }

  // ----- the sizing pass

  predicate HasMasks(addrs: set<nat>) { RTAX_NETMASK in addrs || RTAX_IFA in addrs || RTAX_BRD in addrs }

  lemma MasksAre(s: State, m: Msg)
    requires m.NewAddr?
    ensures Relevant(s, m) <==> s.index != 0 && HasMasks(m.addrs)
  {
    if HasMasks(m.addrs) {
      assert Masked(m.addrs, RTAX_NETMASK) || Masked(m.addrs, RTAX_IFA) || Masked(m.addrs, RTAX_BRD);
    }
  }

  /** The scan for the length of the interface address. */
  method ScanAddr(cf: Conf, m: Msg) returns (alen: nat)
    requires m.NewAddr? && MsgOk(cf, m) && 0 < cf.word < Pow2(cf.bits)
    ensures alen == ALen(cf, m)
  {
    hide RLen;
    alen := 0;
    var p, i := 0, 0;
    while i < RTAX_MAX
      invariant 0 <= i <= RTAX_MAX && p == Rank(m.addrs, i) && alen == 0
      invariant i > RTAX_IFA ==> !Masked(m.addrs, RTAX_IFA)
    {
      if Masked(m.addrs, i) {
        RankGrows(m.addrs, i, RTAX_MAX);
        var len := RLen(cf, m.sas[p].len);
        if i == RTAX_IFA { return len; }
        p := p + 1;
      }
      i := i + 1;
    }
  }

  method SizeAddrs(cf: Conf, m: Msg) returns (d: nat)
    requires m.NewAddr? && MsgOk(cf, m) && 0 < cf.word < Pow2(cf.bits)
    ensures d == Need(cf, m, RTAX_MAX)
  {
    hide RLen;
    var alen := ScanAddr(cf, m);
    d := 0;
    var p, i := 0, 0;
    while i < RTAX_MAX
      invariant 0 <= i <= RTAX_MAX && p == Rank(m.addrs, i) && d == Need(cf, m, i)
    {
      if Masked(m.addrs, i) {
        RankGrows(m.addrs, i, RTAX_MAX);
        var sa := m.sas[p];
        var len := RLen(cf, sa.len);
        if i == RTAX_NETMASK && sa.len == 0 { d := d + alen; } else { d := d + len; }
        p := p + 1;
      }
      i := i + 1;
    }
  }

  /** The first loop: nodes, one to spare; bytes of data; bytes of names. */
  method Sizes(cf: Conf, msgs: seq<Msg>) returns (icnt: nat, dcnt: nat, ncnt: nat)
    requires BufferOk(cf, msgs)
    ensures icnt == |After(cf, msgs, |msgs|).out| + 1
    ensures dcnt == DataTotal(cf, msgs, |msgs|) && ncnt == NameTotal(msgs, |msgs|)
  {
    hide RLen, MsgOk;
    icnt, dcnt, ncnt := 1, 0, 0;
    var index := 0;
    var k := 0;
    while k < |msgs|
      invariant 0 <= k <= |msgs| && index == After(cf, msgs, k).index && icnt == |After(cf, msgs, k).out| + 1
      invariant dcnt == DataTotal(cf, msgs, k) && ncnt == NameTotal(msgs, k)
    {
      var m := msgs[k];
      assert MsgOk(cf, m) && Follows(After(cf, msgs, k), m);
      HasCurrent(cf, msgs, k);
      match m {
        case Skip =>
        case IfInfo(ifp, ix, flags, dl, name, ifData) =>
          if ifp {
            index := ix;
            icnt := icnt + 1;
            DlLength(cf, m);
            dcnt := dcnt + RLen(cf, dl.len) + (cf.align - 1);
            dcnt := dcnt + cf.ifDataSize;
            ncnt := ncnt + |name| + 1;
          } else {
            index := 0;
          }
        case NewAddr(ix, addrs, sas) =>
          MasksAre(After(cf, msgs, k), m);
          if index != 0 && HasMasks(addrs) {
            icnt := icnt + 1;
            var d := SizeAddrs(cf, m);
            dcnt := dcnt + d;
          }
      }
      k := k + 1;
    }
  }

  lemma DlLength(cf: Conf, m: Msg)
    requires m.IfInfo? && MsgOk(cf, m)
    ensures 0 < cf.word < Pow2(cf.bits) && RLen(cf, m.dl.len) == |m.dl.bytes| && m.dl.len <= |m.dl.bytes|
  {
  }

  // ----- the filling pass

  /** `struct ifaddrs`; pointers are indices of nodes, or offsets into data and names. */
  datatype Node = Node(next: Option<nat>, name: nat, flags: int, addr: Option<nat>, netmask: Option<nat>,
                       brd: Option<nat>, ifData: Option<nat>)

  const ZERO := Node(None, 0, 0, None, None, None, None)

  /** A pointer to the bytes of `v`, which lie before `limit`. */
  ghost predicate Ptr(p: Option<nat>, v: Option<seq<nat>>, d: seq<nat>, limit: nat) {
    match v
    case None => p.None?
    case Some(b) => p.Some? && p.value + |b| <= limit <= |d| && d[p.value..p.value + |b|] == b
  }

  lemma PtrKept(p: Option<nat>, v: Option<seq<nat>>, d: seq<nat>, d': seq<nat>, limit: nat, limit': nat)
    requires Ptr(p, v, d, limit) && limit <= limit' <= |d'| && limit <= |d| && d'[..limit] == d[..limit]
    ensures Ptr(p, v, d', limit')
  {
    if v.Some? { SliceKept(d, d', limit, p.value, p.value + |v.value|); }
  }

  lemma SliceKept<T>(d: seq<T>, d': seq<T>, n: nat, a: nat, b: nat)
    requires a <= b <= n <= |d| && n <= |d'| && d'[..n] == d[..n]
    ensures d'[a..b] == d[a..b]
  {
    forall i | a <= i < b ensures d'[i] == d[i] { assert d'[..n][i] == d[..n][i]; }
  }

  method Put<T>(d: array<T>, at: nat, bytes: seq<T>)
    requires at + |bytes| <= d.Length
    modifies d
    ensures d[..at] == old(d[..at]) && d[at..at + |bytes|] == bytes
  {
    var k := 0;
    while k < |bytes|
      invariant 0 <= k <= |bytes| && d[..at] == old(d[..at]) && d[at..at + k] == bytes[..k]
    {
      d[at + k] := bytes[k];
      k := k + 1;
    }
  }

  lemma {:induction false} NeedGrows(cf: Conf, m: Msg, i: nat, n: nat)
    requires m.NewAddr? && MsgOk(cf, m) && i <= n <= RTAX_MAX
    ensures Need(cf, m, i) <= Need(cf, m, n)
    ensures i < n ==> Need(cf, m, i) + Length(Address(cf, m, i)) <= Need(cf, m, n)
    decreases n - i
  {
    if i < n { NeedGrows(cf, m, i + 1, n); }
  }

  /** The bytes of one address, at the end of what has been filled. */
  method PutAddress(cf: Conf, m: Msg, i: nat, p: nat, alen: nat, data: array<nat>, at: nat) returns (next: nat)
    requires m.NewAddr? && MsgOk(cf, m) && 0 < cf.word < Pow2(cf.bits) && i < RTAX_MAX && Masked(m.addrs, i)
    requires p == Rank(m.addrs, i) && alen == ALen(cf, m) && at + Length(Address(cf, m, i)) <= data.Length
    modifies data
    ensures next == at + Length(Address(cf, m, i)) && data[..at] == old(data[..at])
    ensures Ptr(Some(at), Address(cf, m, i), data[..], next)
  {
    hide RLen;
    RankGrows(m.addrs, i, RTAX_MAX);
    var sa := m.sas[p];
    if i == RTAX_NETMASK && sa.len == 0 {
      Put(data, at, Zeros(alen));
      next := at + alen;
    } else {
      Put(data, at, sa.bytes);
      next := at + RLen(cf, sa.len);
    }
  }

  ghost function Seen(cf: Conf, m: Msg, j: nat, i: nat): Option<seq<nat>>
    requires m.NewAddr? && MsgOk(cf, m) && j < RTAX_MAX
  {
    if j < i then Address(cf, m, j) else None
  }

  method FillAddrs(cf: Conf, m: Msg, data: array<nat>, at0: nat)
    returns (at: nat, addr: Option<nat>, netmask: Option<nat>, brd: Option<nat>)
    requires m.NewAddr? && MsgOk(cf, m) && 0 < cf.word < Pow2(cf.bits) && at0 + Need(cf, m, RTAX_MAX) <= data.Length
    modifies data
    ensures at == at0 + Need(cf, m, RTAX_MAX) && data[..at0] == old(data[..at0])
    ensures Ptr(addr, Address(cf, m, RTAX_IFA), data[..], at)
    ensures Ptr(netmask, Address(cf, m, RTAX_NETMASK), data[..], at)
    ensures Ptr(brd, Address(cf, m, RTAX_BRD), data[..], at)
  {
    hide MsgOk, Address, Ptr;
    var alen := ScanAddr(cf, m);
    at, addr, netmask, brd := at0, None, None, None;
    NullPtr(data[..], at);
    var p, i := 0, 0;
    while i < RTAX_MAX
      invariant 0 <= i <= RTAX_MAX && p == Rank(m.addrs, i) && at == at0 + Need(cf, m, i) <= data.Length
      invariant data[..at0] == old(data[..at0])
      invariant Ptr(addr, Seen(cf, m, RTAX_IFA, i), data[..], at)
      invariant Ptr(netmask, Seen(cf, m, RTAX_NETMASK, i), data[..], at)
      invariant Ptr(brd, Seen(cf, m, RTAX_BRD, i), data[..], at)
    {
      NotMasked(cf, m, i);
      if Masked(m.addrs, i) {
        NeedGrows(cf, m, i, RTAX_MAX);
        ghost var was, lim := data[..], at;
        var next := PutAddress(cf, m, i, p, alen, data, at);
        PtrKept(addr, Seen(cf, m, RTAX_IFA, i), was, data[..], lim, next);
        PtrKept(netmask, Seen(cf, m, RTAX_NETMASK, i), was, data[..], lim, next);
        PtrKept(brd, Seen(cf, m, RTAX_BRD, i), was, data[..], lim, next);
        assert data[..at0] == data[..at][..at0] == was[..at0];
        if i == RTAX_IFA { addr := Some(at); }
        if i == RTAX_NETMASK { netmask := Some(at); }
        if i == RTAX_BRD { brd := Some(at); }
        at := next;
        p := p + 1;
      }
      i := i + 1;
    }
  }

  lemma NullPtr(d: seq<nat>, limit: nat)
    ensures Ptr(None, None, d, limit)
  {
  }

  lemma NotMasked(cf: Conf, m: Msg, i: nat)
    requires m.NewAddr? && MsgOk(cf, m) && i < RTAX_MAX
    ensures !Masked(m.addrs, i) ==> Address(cf, m, i).None?
  {
  }

  ghost predicate NamePtr(p: nat, s: string, names: seq<char>, limit: nat) {
    p + |s| + 1 <= limit <= |names| && names[p..p + |s| + 1] == s + ['\0']
  }

  lemma NameKept(p: nat, s: string, names: seq<char>, names': seq<char>, limit: nat, limit': nat)
    requires NamePtr(p, s, names, limit) && limit <= limit' <= |names'| && names'[..limit] == names[..limit]
    ensures NamePtr(p, s, names', limit')
  {
    SliceKept(names, names', limit, p, p + |s| + 1);
  }

  /** How far data and names have been filled, with what they hold. */
  datatype Areas = Areas(data: seq<nat>, at: nat, names: seq<char>, nameAt: nat)

  ghost predicate AreasOk(a: Areas) { a.at <= |a.data| && a.nameAt <= |a.names| }

  ghost predicate Extends(a: Areas, b: Areas) {
    AreasOk(a) && AreasOk(b) && a.at <= b.at && a.nameAt <= b.nameAt && b.data[..a.at] == a.data[..a.at] &&
    b.names[..a.nameAt] == a.names[..a.nameAt]
  }

  /** A node shows an entry. */
  ghost predicate Shows(n: Node, e: Entry, a: Areas) {
    NamePtr(n.name, e.name, a.names, a.nameAt) && n.flags == e.flags && Ptr(n.addr, e.addr, a.data, a.at) &&
    Ptr(n.netmask, e.netmask, a.data, a.at) && Ptr(n.brd, e.brd, a.data, a.at) && Ptr(n.ifData, e.ifData, a.data, a.at)
  }

  lemma ShowsKept(n: Node, e: Entry, a: Areas, b: Areas)
    requires Shows(n, e, a) && Extends(a, b)
    ensures Shows(n, e, b)
  {
    hide Ptr, NamePtr;
    NameKept(n.name, e.name, a.names, b.names, a.nameAt, b.nameAt);
    PtrKept(n.addr, e.addr, a.data, b.data, a.at, b.at);
    PtrKept(n.netmask, e.netmask, a.data, b.data, a.at, b.at);
    PtrKept(n.brd, e.brd, a.data, b.data, a.at, b.at);
    PtrKept(n.ifData, e.ifData, a.data, b.data, a.at, b.at);
  }

  predicate IsAligned(cf: Conf, off: nat)
    requires cf.align > 0
  {
    (cf.base + off) % cf.align == 0
  }

  /** The offset of ALIGN(data). */
  function AlignedOff(cf: Conf, off: nat): int
    requires 0 < cf.align < Pow2(cf.bits)
  {
    AlignUp(cf.bits, cf.base + off, cf.align) - cf.base
  }

  lemma AlignedOffIs(cf: Conf, off: nat)
    requires ConfOk(cf) && cf.base + off + cf.align <= Pow2(cf.bits)
    ensures off <= AlignedOff(cf, off) < off + cf.align && IsAligned(cf, AlignedOff(cf, off))
  {
    hide AlignUp;
    AlignUpIs(cf.bits, cf.base + off, cf.align);
  }

  ghost function LinkNeed(cf: Conf, m: Msg): int
    requires m.IfInfo?
  {
    |m.dl.bytes| + (cf.align - 1) + cf.ifDataSize
  }

  /** The link address, and the interface data at the next aligned address. */
  method FillLink(cf: Conf, m: Msg, data: array<nat>, at0: nat) returns (at: nat, addr: nat, ifData: nat)
    requires ConfOk(cf) && m.IfInfo? && MsgOk(cf, m) && at0 + LinkNeed(cf, m) <= data.Length
    requires cf.base + data.Length + cf.align <= Pow2(cf.bits)
    modifies data
    ensures at0 <= at <= at0 + LinkNeed(cf, m) && data[..at0] == old(data[..at0])
    ensures Ptr(Some(addr), Some(m.dl.bytes[..m.dl.len]), data[..], at)
    ensures Ptr(Some(ifData), Some(IfData(cf, m.ifData)), data[..], at) && IsAligned(cf, ifData)
  {
    hide RLen, MsgOk, AlignedOff, IsPow2, IsAligned, Pow2;
    DlLength(cf, m);
    addr := at0;
    Put(data, at0, m.dl.bytes[..m.dl.len]);
    at := at0 + RLen(cf, m.dl.len);
    ghost var was, lim := data[..], at;
    PtrAt(was, at0, m.dl.bytes[..m.dl.len], lim);
    AlignedOffIs(cf, at);
    at := AlignedOff(cf, at);
    ifData := at;
    Put(data, at, IfData(cf, m.ifData));
    at := at + cf.ifDataSize;
    PtrAt(data[..], ifData, IfData(cf, m.ifData), at);
    Shorter(data[..], was, ifData, lim);
    Shorter(data[..], was, ifData, at0);
    PtrKept(Some(addr), Some(m.dl.bytes[..m.dl.len]), was, data[..], lim, at);
  }

  lemma Shorter<T>(a: seq<T>, b: seq<T>, n: nat, k: nat)
    requires k <= n <= |a| && n <= |b| && a[..n] == b[..n]
    ensures a[..k] == b[..k]
  {
    assert a[..k] == a[..n][..k] && b[..k] == b[..n][..k];
  }

  lemma PtrAt(d: seq<nat>, p: nat, b: seq<nat>, limit: nat)
    requires p + |b| <= limit <= |d| && d[p..p + |b|] == b
    ensures Ptr(Some(p), Some(b), d, limit)
  {
  }

  // ----- the two passes together

  ghost predicate NodeOk(n: Node, j: nat, e: Entry, a: Areas) { Shows(n, e, a) && n.next == Some(j + 1) }

  /** The state of the second loop after `k` messages. */
  ghost predicate Filled(cf: Conf, msgs: seq<Msg>, k: nat, nodes: seq<Node>, ift: nat, index: nat, cif: nat, a: Areas)
    requires BufferOk(cf, msgs) && k <= |msgs|
  {
    var s := After(cf, msgs, k);
    ift == |s.out| <= |nodes| && index == s.index && AreasOk(a) && a.at <= DataTotal(cf, msgs, k) &&
    a.nameAt == NameTotal(msgs, k) && CurrentOk(s, nodes, ift, cif, a) &&
    (forall j: nat :: j < ift ==> NodeOk(nodes[j], j, s.out[j], a)) &&
    forall j: nat :: ift <= j < |nodes| ==> nodes[j] == ZERO
  }

  ghost predicate CurrentOk(s: State, nodes: seq<Node>, ift: nat, cif: nat, a: Areas)
    requires ift <= |nodes|
  {
    s.current.Some? ==>
      cif < ift && nodes[cif].flags == s.current.value.1 &&
      NamePtr(nodes[cif].name, s.current.value.0, a.names, a.nameAt)
  }

  /** Messages without an entry. */
  lemma FilledSkip(cf: Conf, msgs: seq<Msg>, k: nat, nodes: seq<Node>, ift: nat, index: nat, cif: nat, a: Areas)
    requires BufferOk(cf, msgs) && k < |msgs| && Filled(cf, msgs, k, nodes, ift, index, cif, a)
    requires !(msgs[k].IfInfo? && msgs[k].ifp) && !Relevant(After(cf, msgs, k), msgs[k])
    ensures Filled(cf, msgs, k + 1, nodes, ift, if msgs[k].IfInfo? then 0 else index, cif, a)
  {
    hide Shows;
    assert MsgOk(cf, msgs[k]);
  }

  /** One entry more, at the end of the list and of both areas. */
  lemma FilledNext(cf: Conf, msgs: seq<Msg>, k: nat, nodes: seq<Node>, ift: nat, index: nat, cif: nat, a: Areas,
                   n: Node, b: Areas, cif': nat)
    requires BufferOk(cf, msgs) && k < |msgs| && Filled(cf, msgs, k, nodes, ift, index, cif, a) && Extends(a, b)
    requires MsgOk(cf, msgs[k])
    requires var s := After(cf, msgs, k);
      b.at <= a.at + DataNeed(cf, s, msgs[k]) && b.nameAt == a.nameAt + NameNeed(msgs[k]) && ift < |nodes| &&
      var s' := Step(cf, s, msgs[k]);
      |s'.out| == ift + 1 && s'.out[..ift] == s.out && Shows(n, s'.out[ift], b) && n.next == Some(ift + 1) &&
      if msgs[k].IfInfo? then cif' == ift && s'.current == Some((s'.out[ift].name, s'.out[ift].flags))
      else cif' == cif && s'.current == s.current
    ensures Filled(cf, msgs, k + 1, nodes[ift := n], ift + 1, Step(cf, After(cf, msgs, k), msgs[k]).index, cif', b)
  {
    hide Ptr, NamePtr, Step, DataNeed, NameNeed;
    var s, s', nodes' := After(cf, msgs, k), Step(cf, After(cf, msgs, k), msgs[k]), nodes[ift := n];
    assert After(cf, msgs, k + 1) == s';
    forall j: nat | j < ift + 1 ensures NodeOk(nodes'[j], j, s'.out[j], b) {
      if j < ift {
        assert s'.out[j] == s'.out[..ift][j] == s.out[j] && NodeOk(nodes[j], j, s.out[j], a);
        ShowsKept(nodes[j], s.out[j], a, b);
      }
    }
    if !msgs[k].IfInfo? && s.current.Some? {
      NameKept(nodes[cif].name, s.current.value.0, a.names, b.names, a.nameAt, b.nameAt);
    }
  }

  method FillIfInfo(cf: Conf, ghost msgs: seq<Msg>, ghost k: nat, m: Msg, nodes: array<Node>, ift: nat,
                    ghost index: nat, ghost cif: nat, data: array<nat>, at0: nat, names: array<char>, nameAt0: nat)
    returns (at: nat, nameAt: nat)
    requires BufferOk(cf, msgs) && k < |msgs| && msgs[k] == m && m.IfInfo? && m.ifp
    requires Filled(cf, msgs, k, nodes[..], ift, index, cif, Areas(data[..], at0, names[..], nameAt0))
    requires ift < nodes.Length && DataTotal(cf, msgs, k + 1) <= data.Length && NameTotal(msgs, k + 1) <= names.Length
    requires cf.base + data.Length + cf.align <= Pow2(cf.bits)
    modifies nodes, data, names
    ensures Filled(cf, msgs, k + 1, nodes[..], ift + 1, m.index, ift, Areas(data[..], at, names[..], nameAt))
  {
    hide Filled, After, Ptr, NamePtr, ConfOk;
    ghost var a, was := Areas(data[..], at0, names[..], nameAt0), nodes[..];
    LinkFits(cf, msgs, k, nodes[..], ift, index, cif, a);
    var n := nodes[ift];
    n := n.(name := nameAt0, flags := m.flags);
    Put(names, nameAt0, m.name + ['\0']);
    nameAt := nameAt0 + |m.name| + 1;
    NamePtrAt(names[..], nameAt0, m.name);
    var addr, ifData;
    at, addr, ifData := FillLink(cf, m, data, at0);
    NullPtr(data[..], at);
    n := n.(addr := Some(addr), ifData := Some(ifData), next := Some(ift + 1));
    ghost var b := Areas(data[..], at, names[..], nameAt);
    FilledNext(cf, msgs, k, was, ift, index, cif, a, n, b, ift);
    nodes[ift] := n;
  }

  lemma NamePtrAt(names: seq<char>, p: nat, s: string)
    requires p + |s| + 1 <= |names| && names[p..p + (|s| + 1)] == s + ['\0']
    ensures NamePtr(p, s, names, p + |s| + 1)
  {
  }

  lemma LinkFits(cf: Conf, msgs: seq<Msg>, k: nat, nodes: seq<Node>, ift: nat, index: nat, cif: nat, a: Areas)
    requires BufferOk(cf, msgs) && k < |msgs| && msgs[k].IfInfo? && msgs[k].ifp
    requires Filled(cf, msgs, k, nodes, ift, index, cif, a)
    ensures ConfOk(cf) && MsgOk(cf, msgs[k]) && AreasOk(a) && ift == |After(cf, msgs, k).out|
    ensures a.at + LinkNeed(cf, msgs[k]) <= DataTotal(cf, msgs, k + 1)
    ensures a.nameAt + |msgs[k].name| + 1 == NameTotal(msgs, k + 1) && (ift < |nodes| ==> nodes[ift] == ZERO)
  {
  }

  method FillNewAddr(cf: Conf, ghost msgs: seq<Msg>, ghost k: nat, m: Msg, nodes: array<Node>, ift: nat,
                     ghost index: nat, cif: nat, data: array<nat>, at0: nat, ghost names: seq<char>, ghost nameAt: nat)
    returns (at: nat)
    requires BufferOk(cf, msgs) && k < |msgs| && msgs[k] == m && m.NewAddr? && Relevant(After(cf, msgs, k), m)
    requires Filled(cf, msgs, k, nodes[..], ift, index, cif, Areas(data[..], at0, names, nameAt))
    requires ift < nodes.Length && DataTotal(cf, msgs, k + 1) <= data.Length
    modifies nodes, data
    ensures Filled(cf, msgs, k + 1, nodes[..], ift + 1, index, cif, Areas(data[..], at, names, nameAt))
  {
    hide Filled, After, Ptr, NamePtr, ConfOk, CurrentOk;
    ghost var a, was := Areas(data[..], at0, names, nameAt), nodes[..];
    AddrFits(cf, msgs, k, nodes[..], ift, index, cif, a);
    var n := nodes[ift];
    n := n.(name := nodes[cif].name, flags := nodes[cif].flags, ifData := None);
    var addr, netmask, brd;
    at, addr, netmask, brd := FillAddrs(cf, m, data, at0);
    NullPtr(data[..], at);
    n := n.(addr := addr, netmask := netmask, brd := brd, next := Some(ift + 1));
    ghost var b := Areas(data[..], at, names, nameAt);
    FilledNext(cf, msgs, k, was, ift, index, cif, a, n, b, cif);
    nodes[ift] := n;
  }

  lemma AddrFits(cf: Conf, msgs: seq<Msg>, k: nat, nodes: seq<Node>, ift: nat, index: nat, cif: nat, a: Areas)
    requires BufferOk(cf, msgs) && k < |msgs| && Relevant(After(cf, msgs, k), msgs[k])
    requires Filled(cf, msgs, k, nodes, ift, index, cif, a)
    ensures MsgOk(cf, msgs[k]) && AreasOk(a) && ift == |After(cf, msgs, k).out| && index == After(cf, msgs, k).index
    ensures 0 < cf.word < Pow2(cf.bits) && a.at + Need(cf, msgs[k], RTAX_MAX) <= DataTotal(cf, msgs, k + 1)
    ensures ift < |nodes| ==> nodes[ift] == ZERO
    ensures var s := After(cf, msgs, k);
      s.current.Some? && cif < ift <= |nodes| && nodes[cif].flags == s.current.value.1 &&
      NamePtr(nodes[cif].name, s.current.value.0, a.names, a.nameAt)
  {
    HasCurrent(cf, msgs, k);
    assert MsgOk(cf, msgs[k]);
  }

  /** The list a caller walks: one node for each entry, in order, ending in null. */
  ghost predicate Lists(nodes: seq<Node>, out: seq<Entry>, a: Areas) {
    |nodes| == |out| + 1 &&
    forall j: nat :: j < |out| ==>
      Shows(nodes[j], out[j], a) && nodes[j].next == if j == |out| - 1 then None else Some(j + 1)
  }

  /** Everything fits the single allocation that the first pass sized, and the result is
      what the messages say. */
  method Getifaddrs(cf: Conf, msgs: seq<Msg>, memory: bool)
    returns (ret: int, pif: Option<nat>, nodes: array<Node>, data: array<nat>, names: array<char>, ghost a: Areas)
    requires BufferOk(cf, msgs) && cf.base + DataTotal(cf, msgs, |msgs|) + cf.align <= Pow2(cf.bits)
    ensures ret == if After(cf, msgs, |msgs|).out != [] && !memory then -1 else 0
    ensures var out := After(cf, msgs, |msgs|).out;
      ret == 0 ==> if out == [] then pif == None
                   else pif == Some(0) && a.data == data[..] && a.names == names[..] && Lists(nodes[..], out, a)
    ensures ret == 0 && pif.Some? ==> data.Length == DataTotal(cf, msgs, |msgs|) && names.Length == NameTotal(msgs, |msgs|)
  {
    hide Filled, After, Step, MsgOk, ConfOk, DataNeed, NameNeed, Shows, Relevant;
    a := Areas([], 0, [], 0);
    ret, pif := 0, None;
    var icnt, dcnt, ncnt := Sizes(cf, msgs);
    NothingCounted(cf, msgs, |msgs|);
    if icnt + dcnt + ncnt == 1 || !memory {
      nodes, data, names := new Node[0], new nat[0], new char[0];
      ret := if icnt + dcnt + ncnt == 1 then 0 else -1;
      return;
    }
    nodes := new Node[icnt](_ => ZERO);
    data := new nat[dcnt](_ => 0);
    names := new char[ncnt](_ => '\0');
    var ift, index, cif, at, nameAt := 0, 0, 0, 0, 0;
    FilledNone(cf, msgs, nodes[..], data[..], names[..]);
    var k := 0;
    while k < |msgs|
      invariant 0 <= k <= |msgs|
      invariant Filled(cf, msgs, k, nodes[..], ift, index, cif, Areas(data[..], at, names[..], nameAt))
    {
      var m := msgs[k];
      Fits(cf, msgs, k, nodes[..], ift, index, cif, Areas(data[..], at, names[..], nameAt));
      if m.IfInfo? && m.ifp {
        at, nameAt := FillIfInfo(cf, msgs, k, m, nodes, ift, index, cif, data, at, names, nameAt);
        index, cif, ift := m.index, ift, ift + 1;
      } else if m.NewAddr? && index != 0 && HasMasks(m.addrs) {
        at := FillNewAddr(cf, msgs, k, m, nodes, ift, index, cif, data, at, names[..], nameAt);
        ift := ift + 1;
      } else {
        FilledSkip(cf, msgs, k, nodes[..], ift, index, cif, Areas(data[..], at, names[..], nameAt));
        if m.IfInfo? { index := 0; }
      }
      k := k + 1;
    }
    a := Areas(data[..], at, names[..], nameAt);
    AllFilled(cf, msgs, nodes[..], ift, index, cif, a);
    ift := ift - 1;
    nodes[ift] := nodes[ift].(next := None);
    pif := Some(0);
  }

  lemma FilledNone(cf: Conf, msgs: seq<Msg>, nodes: seq<Node>, data: seq<nat>, names: seq<char>)
    requires BufferOk(cf, msgs) && forall j :: 0 <= j < |nodes| ==> nodes[j] == ZERO
    ensures Filled(cf, msgs, 0, nodes, 0, 0, 0, Areas(data, 0, names, 0))
  {
  }

  /** A node is counted with every byte, so nothing is counted only if nothing is there. */
  lemma {:induction false} NothingCounted(cf: Conf, msgs: seq<Msg>, k: nat)
    requires BufferOk(cf, msgs) && k <= |msgs|
    ensures After(cf, msgs, k).out == [] ==> DataTotal(cf, msgs, k) == 0 && NameTotal(msgs, k) == 0
  {
    if k > 0 {
      NothingCounted(cf, msgs, k - 1);
      HasCurrent(cf, msgs, k - 1);
      assert MsgOk(cf, msgs[k - 1]);
    }
  }

  /** At every message there is room for what it needs. */
  lemma Fits(cf: Conf, msgs: seq<Msg>, k: nat, nodes: seq<Node>, ift: nat, index: nat, cif: nat, a: Areas)
    requires BufferOk(cf, msgs) && k < |msgs| && Filled(cf, msgs, k, nodes, ift, index, cif, a)
    requires |nodes| == |After(cf, msgs, |msgs|).out| + 1
    ensures DataTotal(cf, msgs, k + 1) <= DataTotal(cf, msgs, |msgs|) && NameTotal(msgs, k + 1) <= NameTotal(msgs, |msgs|)
    ensures ift < |nodes| && index == After(cf, msgs, k).index
    ensures msgs[k].NewAddr? ==> (Relevant(After(cf, msgs, k), msgs[k]) <==> index != 0 && HasMasks(msgs[k].addrs))
    ensures !msgs[k].NewAddr? ==> !Relevant(After(cf, msgs, k), msgs[k])
  {
    hide After, DataTotal, NameTotal, Shows, CurrentOk, MsgOk, ConfOk, Follows;
    TotalsGrow(cf, msgs, k + 1, |msgs|);
    TotalsGrow(cf, msgs, k, |msgs|);
    if msgs[k].NewAddr? { MasksAre(After(cf, msgs, k), msgs[k]); }
  }

  lemma AllFilled(cf: Conf, msgs: seq<Msg>, nodes: seq<Node>, ift: nat, index: nat, cif: nat, a: Areas)
    requires BufferOk(cf, msgs) && Filled(cf, msgs, |msgs|, nodes, ift, index, cif, a)
    requires |nodes| == |After(cf, msgs, |msgs|).out| + 1 > 1
    ensures ift == |After(cf, msgs, |msgs|).out|
    ensures Lists(nodes[ift - 1 := nodes[ift - 1].(next := None)], After(cf, msgs, |msgs|).out, a)
  {
    hide Ptr, NamePtr;
    var out := After(cf, msgs, |msgs|).out;
    var nodes' := nodes[ift - 1 := nodes[ift - 1].(next := None)];
    forall j: nat | j < |out|
      ensures Shows(nodes'[j], out[j], a) && nodes'[j].next == if j == |out| - 1 then None else Some(j + 1)
    {
      assert NodeOk(nodes[j], j, out[j], a);
    }
  }
}
