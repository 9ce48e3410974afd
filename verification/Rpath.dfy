/** `fixup_rpath`: expansion of $ORIGIN in a DSO's search path. */
module Rpath {
  import opened Arith
  import opened Wrappers

  // ----- tokens

  predicate At(s: string, i: nat, word: string) {
    i + |word| <= |s| && forall k :: 0 <= k < |word| ==> s[i + k] == word[k]
  }

  predicate IsToken(s: string, i: nat) { At(s, i, "$ORIGIN") || At(s, i, "${ORIGIN}") }

  lemma AtIff(s: string, i: nat, word: string)
    ensures At(s, i, word) <==> i + |word| <= |s| && s[i..i + |word|] == word
  {
    if i + |word| <= |s| && s[i..i + |word|] == word {
      forall k | 0 <= k < |word| ensures s[i + k] == word[k] { assert s[i..i + |word|][k] == word[k]; }
    }
  }

  /** What `strncmp` compares. */
  lemma TokenIff(s: string, i: nat)
    ensures IsToken(s, i) <==>
      (i + 7 <= |s| && s[i..i + 7] == "$ORIGIN") || (i + 9 <= |s| && s[i..i + 9] == "${ORIGIN}")
  {
    hide At;
    AtIff(s, i, "$ORIGIN");
    AtIff(s, i, "${ORIGIN}");
  }

  /** Every dollar starts a token. */
  predicate AllTokens(s: string) { forall i: nat :: i < |s| && s[i] == '$' ==> IsToken(s, i) }

  function TokenLen(s: string, i: nat): nat
    requires IsToken(s, i)
  {
    if At(s, i, "$ORIGIN") then 7 else 9
  }

  /** The path with each token from `i` on replaced. */
  function Expand(s: string, i: nat, origin: string): string
    requires i <= |s|
    decreases |s| - i
  {
    if i == |s| then []
    else if IsToken(s, i) then origin + Expand(s, i + TokenLen(s, i), origin)
    else [s[i]] + Expand(s, i + 1, origin)
  }

  function Dollars(s: string, i: nat): nat
    requires i <= |s|
    decreases |s| - i
  {
    if i == |s| then 0 else (if s[i] == '$' then 1 else 0) + Dollars(s, i + 1)
  }

  /** strchr: the first dollar from `i` on, or the end. */
  function NextDollar(s: string, i: nat): (r: nat)
    requires i <= |s|
    ensures i <= r <= |s| && (r < |s| ==> s[r] == '$') && forall j :: i <= j < r ==> s[j] != '$'
    decreases |s| - i
  {
    if i == |s| || s[i] == '$' then i else NextDollar(s, i + 1)
  }

  lemma {:induction false} Plain(s: string, i: nat, j: nat, origin: string)
    requires i <= j <= |s| && forall k :: i <= k < j ==> s[k] != '$'
    ensures Expand(s, i, origin) == s[i..j] + Expand(s, j, origin) && Dollars(s, i) == Dollars(s, j)
    decreases j - i
  {
    hide IsToken, TokenLen;
    if i < j {
      Plain(s, i + 1, j, origin);
      NotToken(s, i);
      var rest := Expand(s, j, origin);
      assert Expand(s, i, origin) == [s[i]] + (s[i + 1..j] + rest);
      hide Expand;
      assert s[i..j] + rest == [s[i]] + (s[i + 1..j] + rest);
    }
  }

  lemma NotToken(s: string, i: nat)
    requires i < |s| && s[i] != '$'
    ensures !IsToken(s, i)
  {
    assert "$ORIGIN"[0] == '$' && "${ORIGIN}"[0] == '$';
  }

  /** A token starts with its only dollar, and its second character tells which it is. */
  lemma TokenStart(s: string, i: nat)
    requires IsToken(s, i)
    ensures i + TokenLen(s, i) <= |s| && s[i] == '$' && forall k :: i < k < i + TokenLen(s, i) ==> s[k] != '$'
    ensures TokenLen(s, i) == 7 + if s[i + 1] == '{' then 2 else 0
  {
    var w := if At(s, i, "$ORIGIN") then "$ORIGIN" else "${ORIGIN}";
    assert forall k :: 0 < k < |w| ==> w[k] != '$';
    forall k | i < k < i + |w| ensures s[k] != '$' { assert s[i + (k - i)] == w[k - i]; }
    assert s[i + 0] == w[0] && s[i + 1] == w[1];
  }

  lemma TokenStep(s: string, i: nat, origin: string)
    requires IsToken(s, i)
    ensures i + TokenLen(s, i) <= |s| && i < |s|
    ensures Expand(s, i, origin) == origin + Expand(s, i + TokenLen(s, i), origin)
    ensures Dollars(s, i) == 1 + Dollars(s, i + TokenLen(s, i))
  {
    TokenStart(s, i);
    Plain(s, i + 1, i + TokenLen(s, i), origin);
  }

  /** Expansion leaves no dollar of the path behind. */
  lemma {:induction false} ExpandClean(s: string, i: nat, origin: string)
    requires i <= |s| && AllTokens(s) && '$' !in origin
    ensures '$' !in Expand(s, i, origin)
    decreases |s| - i
  {
    hide IsToken, TokenLen;
    if i < |s| {
      if IsToken(s, i) {
        TokenStep(s, i, origin);
        TokenStart(s, i);
        ExpandClean(s, i + TokenLen(s, i), origin);
      } else {
        ExpandClean(s, i + 1, origin);
      }
    }
  }

  // ----- the two loops

  /** The counting loop: the number of dollars, if each starts a token. */
  method CountTokens(s: string) returns (r: Option<nat>)
    ensures r == if AllTokens(s) then Some(Dollars(s, 0)) else None
  {
    hide IsToken, Expand, Dollars;
    var i, n := 0, 0;
    var t := NextDollar(s, i);
    while t < |s|
      invariant 0 <= i <= |s| && t == NextDollar(s, i) && n + Dollars(s, i) == Dollars(s, 0)
      invariant forall j: nat :: j < i && s[j] == '$' ==> IsToken(s, j)
      decreases |s| - i
    {
      TokenIff(s, t);
      if !(t + 7 <= |s| && s[t..t + 7] == "$ORIGIN") && !(t + 9 <= |s| && s[t..t + 9] == "${ORIGIN}") { return None; }
      Plain(s, i, t, "");
      OneDollar(s, t);
      i := t + 1;
      n := n + 1;
      t := NextDollar(s, i);
    }
    Plain(s, i, |s|, "");
    NoDollars(s);
    return Some(n);
  }

  lemma OneDollar(s: string, i: nat)
    requires i < |s| && s[i] == '$'
    ensures Dollars(s, i) == 1 + Dollars(s, i + 1)
  {
  }

  lemma NoDollars(s: string)
    ensures Dollars(s, |s|) == 0
  {
  }

  method CopyIn(d: array<char>, at: nat, src: string)
    requires at + |src| <= d.Length
    modifies d
    ensures d[..at + |src|] == old(d[..at]) + src
  {
    var k := 0;
    while k < |src|
      invariant 0 <= k <= |src| && d[..at + k] == old(d[..at]) + src[..k]
    {
      d[at + k] := src[k];
      k := k + 1;
    }
  }

  method CopyBoth(d: array<char>, at: nat, a: string, b: string)
    requires at + |a| + |b| <= d.Length
    modifies d
    ensures d[..at + |a| + |b|] == old(d[..at]) + a + b
  {
    CopyIn(d, at, a);
    CopyIn(d, at + |a|, b);
  }

  /** The copying loop, into a buffer of the computed size, with the terminator. */
  method CopyExpanded(s: string, n: nat, origin: string) returns (d: array<char>, len: nat)
    requires AllTokens(s) && n == Dollars(s, 0)
    ensures fresh(d) && len < d.Length == |s| + n * |origin| + 1
    ensures d[..len] == Expand(s, 0, origin) && d[len] == '\0'
  {
    hide Expand, Dollars, AllTokens, IsToken, NextDollar;
    var l := |origin|;
    d := new char[|s| + n * l + 1];
    var i: nat, at: nat := 0, 0;
    ghost var left: nat, whole := n, Expand(s, 0, origin);
    var t := NextDollar(s, i);
    assert d[..0] + whole == whole;
    while t < |s|
      invariant 0 <= i <= |s| && t == NextDollar(s, i) && left == Dollars(s, i)
      invariant at <= d.Length && d[..at] + Expand(s, i, origin) == whole
      invariant at + (|s| - i) + left * l + 1 <= d.Length
      decreases |s| - i
    {
      Piece(s, i, t, origin);
      LessLeft(left, l);
      ghost var was := d[..at];
      CopyBoth(d, at, s[i..t], origin);
      at := at + (t - i) + l;
      Regroup(was, s[i..t], origin, Expand(s, PastToken(s, t), origin));
      i := PastToken(s, t);
      left := left - 1;
      t := NextDollar(s, i);
    }
    LastPiece(s, i, t, origin);
    Product(left, l);
    len := CopyRest(d, at, s[i..]);
  }

  function PastToken(s: string, t: nat): nat
    requires t + 1 < |s|
  {
    t + 7 + if s[t + 1] == '{' then 2 else 0
  }

  /** What one round of the loop consumes and produces. */
  lemma Piece(s: string, i: nat, t: nat, origin: string)
    requires AllTokens(s) && i <= t < |s| && t == NextDollar(s, i)
    ensures t + 1 < |s| && t < PastToken(s, t) <= |s| && Dollars(s, i) == 1 + Dollars(s, PastToken(s, t))
    ensures Expand(s, i, origin) == s[i..t] + (origin + Expand(s, PastToken(s, t), origin))
  {
    hide Expand, Dollars, IsToken, TokenLen;
    assert IsToken(s, t);
    Plain(s, i, t, origin);
    TokenStep(s, t, origin);
    TokenStart(s, t);
  }

  lemma LastPiece(s: string, i: nat, t: nat, origin: string)
    requires i <= |s| == t && t == NextDollar(s, i)
    ensures Expand(s, i, origin) == s[i..]
  {
    Plain(s, i, t, origin);
  }

  method CopyRest(d: array<char>, at: nat, tail: string) returns (len: nat)
    requires at + |tail| + 1 <= d.Length
    modifies d
    ensures len == at + |tail| && d[..len] == old(d[..at]) + tail && d[len] == '\0'
  {
    CopyIn(d, at, tail);
    len := at + |tail|;
    d[len] := '\0';
  }

  lemma Regroup(a: string, b: string, c: string, d: string)
    ensures a + (b + (c + d)) == (a + b) + c + d
  {
  }

  lemma LessLeft(left: nat, l: nat)
    requires left > 0
    ensures left * l == (left - 1) * l + l && (left - 1) * l >= 0
  {
    MulAdd(l, left - 1, 1);
  }

  // ----- the whole function

  /** What asking the kernel for the executable's path gives: the path, an error that just
      means there is no origin, or another. */
  datatype ExecPath = Path(path: string) | NoPath | Error

  function LastSlash(s: string): (r: Option<nat>)
    ensures r.None? ==> '/' !in s
    ensures r.Some? ==> r.value < |s| && s[r.value] == '/' && '/' !in s[r.value + 1..]
  {
    if s == [] then None
    else if s[|s| - 1] == '/' then Some(|s| - 1)
    else
      var r := LastSlash(s[..|s| - 1]);
      assert s == s[..|s| - 1] + [s[|s| - 1]];
      assert r.Some? ==> s[r.value + 1..] == s[..|s| - 1][r.value + 1..] + [s[|s| - 1]];
      r
  }

  /** The directory part, or "." for a bare name. */
  function OriginDir(path: string): string {
    var t := LastSlash(path);
    if t.None? then "." else path[..t.value]
  }

  /** Where the origin comes from, if it may be used at all. */
  function OriginOf(kernelMapped: bool, secure: bool, exec: ExecPath, bufSize: nat, name: string): Option<string> {
    var path := if !kernelMapped then Some(name)
                else if !secure && exec.Path? && |exec.path| < bufSize then Some(exec.path) else None;
    if path.None? || (secure && !(|path.value| > 0 && LastSlash(path.value).Some? && path.value[0] == '/')) then None
    else Some(OriginDir(path.value))
  }

  /** The fields of a DSO that matter here. */
  class Dso {
    var rpath: Option<string>
    var rpathOrig: Option<string>

    constructor (orig: Option<string>)
      ensures rpathOrig == orig && rpath == None
    {
      rpath, rpathOrig := None, orig;
    }

    /** A path without dollars is used as it is; one with only tokens is expanded if there
        is an origin; any other path is not used. */
    method FixupRpath(kernelMapped: bool, secure: bool, exec: ExecPath, bufSize: nat, name: string, limit: nat,
                      memory: bool)
      returns (ret: int)
      modifies this`rpath
      ensures ret == 0 || ret == -1
      ensures rpath == Fixed(old(rpath), rpathOrig, kernelMapped, secure, exec, bufSize, name, limit, memory)
      ensures ret == -1 <==> Fails(old(rpath), rpathOrig, kernelMapped, secure, exec, bufSize, name, limit, memory)
    {
      if rpath.Some? || rpathOrig.None? { return 0; }
      var s := rpathOrig.value;
      if NextDollar(s, 0) == |s| {
        rpath := Some(s);
        return 0;
      }
      assert s[NextDollar(s, 0)] == '$';
      var n := CountTokens(s);
      if n.None? || n.value > limit { return 0; }
      var origin := name;
      if kernelMapped {
        if secure { return 0; }
        if exec.Error? { return -1; }
        if exec.NoPath? || |exec.path| >= bufSize { return 0; }
        origin := exec.path;
      }
      var t := LastSlash(origin);
      var l: nat;
      if t.Some? { l := t.value; } else { origin, l := ".", 1; }
      assert "."[..1] == ".";
      if secure && !(|origin| > 0 && origin[0] == '/') { return 0; }
      if !memory { return -1; }
      var d, len := CopyExpanded(s, n.value, origin[..l]);
      rpath := Some(d[..len]);
      ret := 0;
    }
  }

  /** The cases in which loading gives up: the executable's path cannot be determined, or
      there is no memory for the expansion. */
  ghost predicate Fails(rpath: Option<string>, orig: Option<string>, kernelMapped: bool, secure: bool, exec: ExecPath,
                        bufSize: nat, name: string, limit: nat, memory: bool)
  {
    rpath.None? && orig.Some? && '$' in orig.value && AllTokens(orig.value) && Dollars(orig.value, 0) <= limit &&
    ((kernelMapped && !secure && exec.Error?) ||
     (OriginOf(kernelMapped, secure, exec, bufSize, name).Some? && !memory))
  }

  ghost function Fixed(rpath: Option<string>, orig: Option<string>, kernelMapped: bool, secure: bool, exec: ExecPath,
                       bufSize: nat, name: string, limit: nat, memory: bool): Option<string>
  {
    if rpath.Some? || orig.None? then rpath
    else if '$' !in orig.value then orig
    else
      var origin := OriginOf(kernelMapped, secure, exec, bufSize, name);
      if AllTokens(orig.value) && Dollars(orig.value, 0) <= limit && origin.Some? && memory
      then Some(Expand(orig.value, 0, origin.value)) else None
  }
}
