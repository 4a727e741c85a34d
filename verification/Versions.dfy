/**
 Version strings as this project stamps them, and their precedence. The functions say what a string means
 and how two versions are ordered; the methods are the program's parser and comparison, with their loops.
 */
module Versions {
  import opened Wrappers
  import opened Text

  /** `core` is empty when the string has no numeric core; `pre` is None for a release. */
  datatype Version = Version(core: seq<nat>, pre: Option<seq<string>>, ahead: nat)

  const NO_VERSION := Version([], None, 0)

  const MAX_INT: nat := 0x7FFF_FFFF_FFFF_FFFF

  // --------------------------------------------------------------- numbers

  function Saturated(n: nat): nat {
    if n > MAX_INT then MAX_INT else n
  }

  predicate IsNumber(s: string) {
    s != "" && AllDigits(s)
  }

  function NumberOf(s: string): nat
    requires AllDigits(s)
  {
    Saturated(ValueOf(s))
  }

  /** An all-digit string as a number, which saturates; ok is false for anything else. */
  method Digits(s: string) returns (n: nat, ok: bool)
    ensures ok <==> IsNumber(s)
    ensures n == if ok then NumberOf(s) else 0
  {
    if s == "" {
      return 0, false;
    }
    for i := 0 to |s|
      invariant forall k :: 0 <= k < i ==> IsDigit(s[k])
    {
      if !IsDigit(s[i]) {
        return 0, false;
      }
    }
    return NumberOf(s), true;
  }

  // --------------------------------------------------------------- parsing

  predicate IsSpace(c: char) {
    || c in {'\t', '\n', '\U{B}', '\U{C}', '\r', ' ', '\U{85}', '\U{A0}', '\U{1680}'}
    || '\U{2000}' <= c <= '\U{200A}'
    || c in {'\U{2028}', '\U{2029}', '\U{202F}', '\U{205F}', '\U{3000}'}
  }

  function TrimLeft(s: string): string {
    if s != "" && IsSpace(s[0]) then TrimLeft(s[1..]) else s
  }

  function TrimRight(s: string): string {
    if s != "" && IsSpace(s[|s| - 1]) then TrimRight(s[..|s| - 1]) else s
  }

  function TrimSpace(s: string): string {
    TrimRight(TrimLeft(s))
  }

  /** Without surrounding space and one leading v or V. */
  function DisplayVersion(v: string): string {
    var s := TrimSpace(v);
    if s != "" && (s[0] == 'v' || s[0] == 'V') then s[1..] else s
  }

  predicate HasSuffix(s: string, suffix: string) {
    |s| >= |suffix| && s[|s| - |suffix|..] == suffix
  }

  function TrimSuffix(s: string, suffix: string): string {
    if HasSuffix(s, suffix) then s[..|s| - |suffix|] else s
  }

  const DIRTY := "-dirty"

  predicate IsHex(c: char) {
    IsDigit(c) || 'a' <= c <= 'f' || 'A' <= c <= 'F'
  }

  predicate AllHex(s: string) {
    forall i :: 0 <= i < |s| ==> IsHex(s[i])
  }

  /** What `git describe` appends, matched at `i` to the end of `s`; the hash follows the dash at `k`. */
  predicate TailAt(s: string, i: nat, k: nat) {
    && i + 1 < k && k + 6 <= |s|
    && s[i] == '-' && AllDigits(s[i + 1..k])
    && s[k] == '-' && s[k + 1] == 'g' && AllHex(s[k + 2..])
  }

  /** The last dash, or -1. */
  function LastDash(s: string): (k: int)
    ensures -1 <= k < |s|
    ensures k >= 0 ==> s[k] == '-'
    ensures forall j :: k < j < |s| ==> s[j] != '-'
  {
    if s == "" then -1 else if s[|s| - 1] == '-' then |s| - 1 else LastDash(s[..|s| - 1])
  }

  /** The first dash, or the length. */
  function FirstDash(s: string): (k: nat)
    ensures k <= |s|
    ensures k < |s| ==> s[k] == '-'
    ensures forall j :: 0 <= j < k ==> s[j] != '-'
  {
    if s == "" then 0 else if s[0] == '-' then 0 else 1 + FirstDash(s[1..])
  }

  /** Where the describe tail of `s` matches, if it does. */
  function DescribeTail(s: string): Option<(nat, nat)> {
    var k := LastDash(s);
    if k < 0 then None
    else
      var i := LastDash(s[..k]);
      if i >= 0 && TailAt(s, i, k) then Some((i, k)) else None
  }

  /** The describe tail has at most one match, and that is the one found. */
  lemma DescribeTailIsTheMatch(s: string, i: nat, k: nat)
    ensures TailAt(s, i, k) <==> DescribeTail(s) == Some((i, k))
  {
    if TailAt(s, i, k) {
      assert forall j :: k < j < |s| ==> s[j] == (if j == k + 1 then 'g' else s[k + 2..][j - k - 2]);
      assert LastDash(s) == k;
      assert forall j :: i < j < k ==> s[..k][j] == s[i + 1..k][j - i - 1];
      assert LastDash(s[..k]) == i;
    }
  }

  predicate AllNumbers(parts: seq<string>) {
    forall i :: 0 <= i < |parts| ==> IsNumber(parts[i])
  }

  function Numbers(parts: seq<string>): (ns: seq<nat>)
    requires AllNumbers(parts)
    ensures |ns| == |parts|
  {
    seq(|parts|, i requires 0 <= i < |parts| => NumberOf(parts[i]))
  }

  /** A tag without describe tail: numeric core, then the pre-release after the first dash. */
  function ParsedTag(s: string, ahead: nat): Version {
    var dash := FirstDash(s);
    var parts := Split(s[..dash], '.');
    if AllNumbers(parts) then
      Version(Numbers(parts), if dash < |s| then Some(Split(s[dash + 1..], '.')) else None, ahead)
    else NO_VERSION
  }

  function ParsedClean(s: string): Version {
    match DescribeTail(s)
    case None => ParsedTag(s, 0)
    case Some((i, k)) => ParsedTag(s[..i], NumberOf(s[i + 1..k]))
  }

  function Parsed(v: string): Version {
    ParsedClean(TrimSuffix(DisplayVersion(v), DIRTY))
  }

  method ParseVersion(v: string) returns (out: Version)
    ensures out == Parsed(v)
  {
    var s := TrimSuffix(DisplayVersion(v), DIRTY);
    var ahead := 0;
    var tail := DescribeTail(s);
    if tail.Some? {
      var ok;
      ahead, ok := Digits(s[tail.value.0 + 1..tail.value.1]);
      s := s[..tail.value.0];
    }
    out := ParseTag(s, ahead);
  }

  /** The parser past the describe tail. */
  method ParseTag(s: string, ahead: nat) returns (out: Version)
    ensures out == ParsedTag(s, ahead)
  {
    var dash := FirstDash(s);
    var parts := Split(s[..dash], '.');
    var core, valid := ParseCore(parts);
    if !valid {
      return NO_VERSION;
    }
    return Version(core, if dash < |s| then Some(Split(s[dash + 1..], '.')) else None, ahead);
  }

  /** The parser's loop over the parts of the core. */
  method ParseCore(parts: seq<string>) returns (core: seq<nat>, ok: bool)
    ensures ok <==> AllNumbers(parts)
    ensures ok ==> core == Numbers(parts)
  {
    core := [];
    for i := 0 to |parts|
      invariant |core| == i
      invariant forall k :: 0 <= k < i ==> IsNumber(parts[k]) && core[k] == NumberOf(parts[k])
    {
      var n, valid := Digits(parts[i]);
      if !valid {
        return [], false;
      }
      core := core + [n];
    }
    return core, true;
  }

  // ------------------------------------------------------------ precedence

  function Cmp(x: int, y: int): int {
    if x < y then -1 else if x > y then 1 else 0
  }

  /** The first comparison, or the second when the first is a tie. */
  function Then(first: int, second: int): int {
    if first != 0 then first else second
  }

  function At(xs: seq<nat>, i: nat): nat {
    if i < |xs| then xs[i] else 0
  }

  function CoreOrder(a: seq<nat>, b: seq<nat>, i: nat): int
    decreases |a| + |b| - i
  {
    if i >= |a| && i >= |b| then 0 else Then(Cmp(At(a, i), At(b, i)), CoreOrder(a, b, i + 1))
  }

  /** Byte order of UTF-8 text is the order of its scalar values. */
  function StringOrder(x: string, y: string): int {
    if x == "" then (if y == "" then 0 else -1)
    else if y == "" then 1
    else if x[0] != y[0] then (if x[0] < y[0] then -1 else 1)
    else StringOrder(x[1..], y[1..])
  }

  function IdOrder(x: string, y: string): int {
    if IsNumber(x) && IsNumber(y) then Cmp(NumberOf(x), NumberOf(y))
    else if IsNumber(x) then -1
    else if IsNumber(y) then 1
    else StringOrder(x, y)
  }

  function PreOrder(p: seq<string>, q: seq<string>, i: nat): int
    decreases |p| - i
  {
    if i < |p| && i < |q| then Then(IdOrder(p[i], q[i]), PreOrder(p, q, i + 1)) else Cmp(|p|, |q|)
  }

  function Ids(pre: Option<seq<string>>): seq<string> {
    if pre.Some? then pre.value else []
  }

  /** A release sorts above its pre-releases. */
  function ReleaseOrder(a: Option<seq<string>>, b: Option<seq<string>>): int {
    if a.None? == b.None? then 0 else if a.None? then 1 else -1
  }

  function Order(a: Version, b: Version): int {
    Then(CoreOrder(a.core, b.core, 0),
    Then(ReleaseOrder(a.pre, b.pre),
    Then(PreOrder(Ids(a.pre), Ids(b.pre), 0),
         Cmp(a.ahead, b.ahead))))
  }

  method ComparePreID(x: string, y: string) returns (c: int)
    ensures c == IdOrder(x, y)
  {
    var nx, xNum := Digits(x);
    var ny, yNum := Digits(y);
    if xNum && yNum {
      return Cmp(nx, ny);
    } else if xNum {
      return -1;
    } else if yNum {
      return 1;
    }
    return StringOrder(x, y);
  }

  method Compare(a: Version, b: Version) returns (c: int)
    ensures c == Order(a, b)
  {
    var i := 0;
    while i < |a.core| || i < |b.core|
      invariant CoreOrder(a.core, b.core, 0) == CoreOrder(a.core, b.core, i)
      decreases |a.core| + |b.core| - i
    {
      c := Cmp(At(a.core, i), At(b.core, i));
      if c != 0 {
        return c;
      }
      i := i + 1;
    }
    if a.pre.None? != b.pre.None? {
      return if a.pre.None? then 1 else -1;
    }
    var p, q := Ids(a.pre), Ids(b.pre);
    i := 0;
    while i < |p| && i < |q|
      invariant PreOrder(p, q, 0) == PreOrder(p, q, i)
    {
      c := ComparePreID(p[i], q[i]);
      if c != 0 {
        return c;
      }
      i := i + 1;
    }
    if |p| != |q| {
      return Cmp(|p|, |q|);
    }
    return Cmp(a.ahead, b.ahead);
  }

  /** Strictly newer; false when either side has no numeric core. */
  predicate Newer(candidate: string, current: string) {
    var a, b := Parsed(candidate), Parsed(current);
    a.core != [] && b.core != [] && Order(a, b) > 0
  }

  method IsNewer(candidate: string, current: string) returns (newer: bool)
    ensures newer == Newer(candidate, current)
  {
    var a := ParseVersion(candidate);
    var b := ParseVersion(current);
    if a.core == [] || b.core == [] {
      return false;
    }
    var c := Compare(a, b);
    return c > 0;
  }

  function Lower(c: char): char {
    if 'A' <= c <= 'Z' then 'a' + (c - 'A') else c
  }

  /** A development build: its version contains "dev", in any case. */
  predicate IsDevVersion(v: string) {
    exists i | 0 <= i < |v| - 2 :: Lower(v[i]) == 'd' && Lower(v[i + 1]) == 'e' && Lower(v[i + 2]) == 'v'
  }
}
