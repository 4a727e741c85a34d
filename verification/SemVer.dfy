/**
 Semantic Versioning 2.0.0 precedence (section 11), stated on its own terms, and how far the program's
 comparison of version strings follows it.
 */
module SemVer {
  import opened Wrappers
  import opened Text
  import opened Versions
  import opened VersionOrder
  import opened VersionRoundTrip

  /** A version without build metadata, which has no part in precedence (section 10). */
  datatype SemVer = SemVer(major: nat, minor: nat, patch: nat, pre: seq<string>)

  predicate IsIdChar(c: char) {
    IsDigit(c) || 'a' <= c <= 'z' || 'A' <= c <= 'Z' || c == '-'
  }

  /** Section 9: nonempty, of letters, digits and hyphens, and without superfluous zeros when numeric. */
  predicate ValidId(s: string) {
    s != "" && (forall i :: 0 <= i < |s| ==> IsIdChar(s[i])) && (AllDigits(s) && |s| > 1 ==> s[0] != '0')
  }

  predicate InRange(s: string) {
    AllDigits(s) ==> ValueOf(s) <= MAX_INT
  }

  /** Valid under the standard, with every number within the program's integers. */
  predicate Valid(x: SemVer) {
    && x.major <= MAX_INT && x.minor <= MAX_INT && x.patch <= MAX_INT
    && forall i :: 0 <= i < |x.pre| ==> ValidId(x.pre[i]) && InRange(x.pre[i])
  }

  // ------------------------------------------------------------ section 11

  /** Equal before `k`, and at `k` the first text ends or has the smaller character. */
  predicate DiffersBelowAt(a: string, b: string, k: nat) {
    k <= |a| && k < |b| && a[..k] == b[..k] && (k == |a| || a[k] < b[k])
  }

  /** Lexical order by ASCII. */
  predicate AsciiBelow(a: string, b: string) {
    exists k: nat | k < |b| :: DiffersBelowAt(a, b, k)
  }

  /** 11.4.1 to 11.4.3: by number, by ASCII, numeric below alphanumeric. */
  predicate IdBelow(a: string, b: string) {
    if AllDigits(a) && AllDigits(b) then ValueOf(a) < ValueOf(b)
    else if AllDigits(a) then true
    else if AllDigits(b) then false
    else AsciiBelow(a, b)
  }

  /** 11.4.4: the first differing identifier decides, and of two lists the longer one wins. */
  predicate PreDiffersBelowAt(p: seq<string>, q: seq<string>, k: nat) {
    k <= |p| && k < |q| && p[..k] == q[..k] && (k == |p| || (p[k] != q[k] && IdBelow(p[k], q[k])))
  }

  predicate PreBelow(p: seq<string>, q: seq<string>) {
    exists k: nat | k < |q| :: PreDiffersBelowAt(p, q, k)
  }

  /** 11.2 and 11.3: major, minor, patch by number; then a pre-release below its release. */
  predicate Below(x: SemVer, y: SemVer) {
    if x.major != y.major then x.major < y.major
    else if x.minor != y.minor then x.minor < y.minor
    else if x.patch != y.patch then x.patch < y.patch
    else if x.pre == [] then false
    else if y.pre == [] then true
    else PreBelow(x.pre, y.pre)
  }

  // ------------------------------------------------------------ refinement

  lemma PrefixAgrees<T>(a: seq<T>, b: seq<T>, k: nat, i: nat)
    ensures i < k <= |a| && k <= |b| && a[..k] == b[..k] ==> a[i] == b[i]
  {
    assert i < k <= |a| && k <= |b| ==> a[..k][i] == a[i] && b[..k][i] == b[i];
  }

  function AsVersion(x: SemVer): Version {
    Version([x.major, x.minor, x.patch], if x.pre == [] then None else Some(x.pre), 0)
  }

  lemma {:induction false} StringOrderIsAscii(a: string, b: string)
    ensures StringOrder(a, b) < 0 <==> AsciiBelow(a, b)
  {
    if a == "" {
      assert b != "" ==> DiffersBelowAt(a, b, 0);
    } else if b != "" {
      if a[0] != b[0] {
        assert a[0] < b[0] ==> DiffersBelowAt(a, b, 0);
        forall k: nat | k < |b| && DiffersBelowAt(a, b, k) ensures k == 0 {
          PrefixAgrees(a, b, k, 0);
        }
      } else {
        StringOrderIsAscii(a[1..], b[1..]);
        AsciiBelowTails(a, b);
      }
    }
  }

  lemma AsciiBelowTails(a: string, b: string)
    requires a != "" && b != "" && a[0] == b[0]
    ensures AsciiBelow(a, b) <==> AsciiBelow(a[1..], b[1..])
  {
    if AsciiBelow(a, b) {
      var k: nat :| k < |b| && DiffersBelowAt(a, b, k);
      assert k > 0;
      assert a[1..][..k - 1] == a[..k][1..] && b[1..][..k - 1] == b[..k][1..];
      assert DiffersBelowAt(a[1..], b[1..], k - 1);
    }
    if AsciiBelow(a[1..], b[1..]) {
      var k: nat :| k < |b[1..]| && DiffersBelowAt(a[1..], b[1..], k);
      assert a[..k + 1] == [a[0]] + a[1..][..k] && b[..k + 1] == [b[0]] + b[1..][..k];
      assert DiffersBelowAt(a, b, k + 1);
    }
  }

  lemma IdOrderIsSemVer(a: string, b: string)
    requires ValidId(a) && InRange(a) && ValidId(b) && InRange(b)
    ensures IdOrder(a, b) < 0 <==> a != b && IdBelow(a, b)
    ensures IdOrder(a, b) == 0 <==> a == b
  {
    if AllDigits(a) && AllDigits(b) {
      DecimalOfValue(a);
      DecimalOfValue(b);
    } else if !AllDigits(a) && !AllDigits(b) {
      StringOrderIsAscii(a, b);
      StringFlips(a, b);
    }
  }

  ghost predicate IdsInRange(p: seq<string>) {
    forall i :: 0 <= i < |p| ==> ValidId(p[i]) && InRange(p[i])
  }

  lemma {:induction false} PreOrderIsSemVer(p: seq<string>, q: seq<string>, i: nat)
    requires IdsInRange(p) && IdsInRange(q)
    requires i <= |p| && i <= |q| && p[..i] == q[..i]
    ensures PreOrder(p, q, i) < 0 <==> PreBelow(p, q)
    ensures PreOrder(p, q, i) == 0 <==> p == q
    decreases |p| - i
  {
    if i < |p| && i < |q| {
      IdOrderIsSemVer(p[i], q[i]);
      if p[i] == q[i] {
        assert p[..i + 1] == p[..i] + [p[i]] && q[..i + 1] == q[..i] + [q[i]];
        PreOrderIsSemVer(p, q, i + 1);
      } else {
        FirstDifferenceDecides(p, q, i);
      }
    } else {
      assert p[..|p|] == p && q[..|q|] == q;
      if i < |q| {
        assert PreDiffersBelowAt(p, q, i);
      } else {
        forall k: nat | k < |q| ensures !PreDiffersBelowAt(p, q, k) {
          PrefixAgrees(p, q, i, k);
        }
      }
    }
  }

  lemma FirstDifferenceDecides(p: seq<string>, q: seq<string>, i: nat)
    requires i < |p| && i < |q| && p[..i] == q[..i] && p[i] != q[i]
    ensures PreBelow(p, q) <==> IdBelow(p[i], q[i])
  {
    if IdBelow(p[i], q[i]) {
      assert PreDiffersBelowAt(p, q, i);
    }
    forall k: nat | k < |q| && PreDiffersBelowAt(p, q, k) ensures k == i {
      PrefixAgrees(p, q, k, i);
      PrefixAgrees(p, q, i, k);
    }
  }

  lemma ThreePartCore(a: Version, b: Version)
    requires |a.core| == 3 && |b.core| == 3
    ensures CoreOrder(a.core, b.core, 0) ==
      Then(Cmp(a.core[0], b.core[0]), Then(Cmp(a.core[1], b.core[1]), Cmp(a.core[2], b.core[2])))
  {
    assert CoreOrder(a.core, b.core, 3) == 0;
    assert CoreOrder(a.core, b.core, 2) == Cmp(a.core[2], b.core[2]);
    assert CoreOrder(a.core, b.core, 1) == Then(Cmp(a.core[1], b.core[1]), Cmp(a.core[2], b.core[2]));
  }

  /** On valid versions the comparison is the standard's precedence. */
  lemma OrderIsSemVer(x: SemVer, y: SemVer)
    requires Valid(x) && Valid(y)
    ensures Order(AsVersion(x), AsVersion(y)) < 0 <==> Below(x, y)
    ensures Order(AsVersion(x), AsVersion(y)) == 0 <==> x == y
  {
    ThreePartCore(AsVersion(x), AsVersion(y));
    PreOrderIsSemVer(x.pre, y.pre, 0);
  }

  /** The text of a valid version parses to it unless its pre-release reads as -dirty or a describe tail. */
  lemma SemVerParses(x: SemVer)
    requires Valid(x)
    ensures Parsed(TagText(AsVersion(x))) == AsVersion(x) <==> x.pre == [] || KeepsItsEnd(TagText(AsVersion(x)))
  {
    var v := AsVersion(x);
    assert forall i :: 0 <= i < |x.pre| ==> ValidId(x.pre[i]);
    assert Render(v, "0000") == TagText(v);
    RoundTrip(v, "0000");
  }

  /** Through the parser: of two valid version strings, IsNewer picks the one the standard ranks higher. */
  lemma NewerIsSemVer(x: SemVer, y: SemVer)
    requires Valid(x) && (x.pre == [] || KeepsItsEnd(TagText(AsVersion(x))))
    requires Valid(y) && (y.pre == [] || KeepsItsEnd(TagText(AsVersion(y))))
    ensures Newer(TagText(AsVersion(x)), TagText(AsVersion(y))) <==> Below(y, x)
  {
    SemVerParses(x);
    SemVerParses(y);
    OrderIsSemVer(y, x);
    OrderFlips(AsVersion(y), AsVersion(x));
  }

  // ------------------------------------------------------ where it departs

  /** Saturated numbers compare as the numbers do exactly when one is below the bound or they are equal. */
  lemma SaturationIsExactBelowBound(m: nat, n: nat)
    ensures Cmp(NumberOf(Decimal(m)), NumberOf(Decimal(n))) == Cmp(m, n) <==>
            m == n || m < MAX_INT || n < MAX_INT
  {
    ValueOfDecimal(m);
    ValueOfDecimal(n);
  }

  lemma {:induction false} PiecesAreDigits(s: string)
    requires forall i :: 0 <= i < |Split(s, '.')| ==> AllDigits(Split(s, '.')[i])
    ensures forall i :: 0 <= i < |s| ==> IsCoreChar(s[i])
  {
    if s != "" {
      var init := s[..|s| - 1];
      var p, q := Split(init, '.'), Split(s, '.');
      var last := |p| - 1;
      forall i | 0 <= i < |p| ensures AllDigits(p[i]) {
        assert AllDigits(q[i]);
        if s[|s| - 1] != '.' && i == last {
          assert q[i] == p[i] + [s[|s| - 1]];
          forall j | 0 <= j < |p[i]| ensures IsDigit(p[i][j]) {
            assert q[i][j] == p[i][j];
          }
        }
      }
      if s[|s| - 1] != '.' {
        assert AllDigits(q[last]) && q[last] == p[last] + [s[|s| - 1]];
        assert q[last][|p[last]|] == s[|s| - 1];
      }
      PiecesAreDigits(init);
    }
  }

  lemma DirtyHasNoPlus(s: string)
    ensures HasSuffix(s, DIRTY) ==> forall j :: |s| - |DIRTY| <= j < |s| ==> s[j] != '+'
  {
    if HasSuffix(s, DIRTY) {
      forall j | |s| - |DIRTY| <= j < |s| ensures s[j] != '+' {
        assert s[j] == s[|s| - |DIRTY|..][j - (|s| - |DIRTY|)];
      }
    }
  }

  /** What the parser strips off the end never reaches a plus sign: neither -dirty ... */
  lemma PlusSurvivesDirty(s: string, plus: nat) returns (clean: string)
    requires plus < |s| && s[plus] == '+' && IsDigit(s[0])
    ensures clean == TrimSuffix(DisplayVersion(s), DIRTY) && clean <= s && plus < |clean|
  {
    var shown := DisplayIsPrefix(s);
    assert plus < |shown| && shown[plus] == '+';
    clean := TrimSuffix(shown, DIRTY);
    DirtyHasNoPlus(shown);
  }

  /** ... nor a describe tail. */
  lemma PlusSurvives(s: string, plus: nat) returns (m: nat, n: nat)
    requires plus < |s| && s[plus] == '+' && IsDigit(s[0])
    ensures plus < m <= |s| && Parsed(s) == ParsedTag(s[..m], n)
  {
    var clean := PlusSurvivesDirty(s, plus);
    m, n := CleanIsPrefix(clean);
    assert plus < m by {
      assert clean[plus] == '+' && !IsTailChar('+');
    }
    assert clean[..m] == s[..m];
  }

  /**
   Build metadata is not part of the accepted syntax: a release with metadata has no numeric core for the
   parser, so it is never newer or older than anything.
   */
  lemma BuildMetadataIsNotUnderstood(core: seq<nat>, build: string)
    requires core != []
    ensures Parsed(CoreText(core) + "+" + build) == NO_VERSION
  {
    var head := CoreText(core) + "+";
    var s := head + build;
    CoreTextChars(core);
    assert s[0] == CoreText(core)[0];
    assert forall j :: 0 <= j < |head| ==> s[j] == head[j] && head[j] != '-';
    var m, n := PlusSurvives(s, |head| - 1);
    PlusSpoilsTheCore(s[..m], |head| - 1, n);
  }

  lemma PlusSpoilsTheCore(body: string, plus: nat, ahead: nat)
    requires plus < |body| && body[plus] == '+' && forall j :: 0 <= j <= plus ==> body[j] != '-'
    ensures ParsedTag(body, ahead) == NO_VERSION
  {
    var dash := FirstDash(body);
    assert dash > plus;
    assert body[..dash][plus] == '+';
    if AllNumbers(Split(body[..dash], '.')) {
      PiecesAreDigits(body[..dash]);
    }
  }

  lemma {:induction false} JoinIsFree(parts: seq<string>, sep: char, c: char)
    requires c != sep && forall i :: 0 <= i < |parts| ==> c !in parts[i]
    ensures c !in Join(parts, sep)
  {
    if |parts| > 1 {
      JoinIsFree(parts[..|parts| - 1], sep, c);
    }
  }

  lemma {:induction false} TiedIdsTie(p: seq<string>, q: seq<string>, i: nat, j: nat)
    requires PreOrder(p, q, i) == 0 && i <= j < |p|
    ensures j < |q| && IdOrder(p[j], q[j]) == 0
    decreases j - i
  {
    if i < j {
      TiedIdsTie(p, q, i + 1, j);
    }
  }

  /** An identifier with a plus sign never ties with a valid one. */
  lemma PlusNeverTies(p: seq<string>, q: seq<string>)
    requires '+' in Join(p, '.') && forall j :: 0 <= j < |q| ==> ValidId(q[j])
    ensures PreOrder(p, q, 0) != 0
  {
    if PreOrder(p, q, 0) == 0 {
      forall j | 0 <= j < |p| ensures '+' !in p[j] {
        TiedIdsTie(p, q, 0, j);
        StringFlips(p[j], q[j]);
        assert ValidId(q[j]);
      }
      JoinIsFree(p, '.', '+');
    }
  }

  /**
   On a pre-release metadata does count, although section 10 says it must be ignored: whatever it is, the
   version no longer ties with itself.
   */
  lemma PreReleaseMetadataCounts(x: SemVer, build: string)
    requires Valid(x) && x.pre != []
    ensures Order(Parsed(TagText(AsVersion(x)) + "+" + build), AsVersion(x)) != 0
  {
    var v := AsVersion(x);
    var tag := TagText(v);
    var s := tag + "+" + build;
    CoreTextChars(v.core);
    TagTextParts(v);
    assert s[0] == CoreText(v.core)[0] && s[|tag|] == '+';
    var m, n := PlusSurvives(s, |tag|);
    PlusInThePre(s[..m], |CoreText(v.core)|, |tag|, n, v);
  }

  lemma PlusInThePre(body: string, dash: nat, plus: nat, ahead: nat, v: Version)
    requires dash < plus < |body| && body[dash] == '-' && body[plus] == '+'
    requires v.pre.Some? && forall j :: 0 <= j < |v.pre.value| ==> ValidId(v.pre.value[j])
    ensures Order(ParsedTag(body, ahead), v) != 0
  {
    var first := FirstDash(body);
    var text := body[first + 1..];
    assert text[plus - first - 1] == '+';
    JoinOfSplit(text, '.');
    PlusNeverTies(Split(text, '.'), v.pre.value);
    DecidedByPre(ParsedTag(body, ahead), v);
  }

  lemma DecidedByPre(a: Version, b: Version)
    requires b.pre.Some? && (a.pre.Some? ==> PreOrder(a.pre.value, b.pre.value, 0) != 0)
    ensures Order(a, b) != 0
  {
  }

  // ------------------------------------------------------- describe builds

  function ReleaseOf(core: seq<nat>): Version {
    Version(core, None, 0)
  }

  function BumpLast(core: seq<nat>): seq<nat>
    requires core != []
  {
    core[|core| - 1 := core[|core| - 1] + 1]
  }

  lemma {:induction false} CoreOrderSame(a: seq<nat>, i: nat)
    ensures CoreOrder(a, a, i) == 0
    decreases |a| - i
  {
    if i < |a| {
      CoreOrderSame(a, i + 1);
    }
  }

  lemma {:induction false} CoreOrderBump(a: seq<nat>, i: nat)
    requires i < |a|
    ensures CoreOrder(a, BumpLast(a), i) == -1
    decreases |a| - i
  {
    if i < |a| - 1 {
      CoreOrderBump(a, i + 1);
    }
  }

  lemma ReleaseParses(core: seq<nat>)
    requires WellFormed(ReleaseOf(core))
    ensures Parsed(CoreText(core)) == ReleaseOf(core)
  {
    var v := ReleaseOf(core);
    assert TagText(v) == CoreText(core) && Render(v, "0000") == CoreText(core);
    RoundTrip(v, "0000");
  }

  lemma ReleasesParse(core: seq<nat>)
    requires WellFormed(ReleaseOf(core)) && core[|core| - 1] < MAX_INT
    ensures Parsed(CoreText(core)) == ReleaseOf(core)
    ensures Parsed(CoreText(BumpLast(core))) == ReleaseOf(BumpLast(core))
  {
    ReleaseParses(core);
    ReleaseParses(BumpLast(core));
  }

  lemma BuildParses(core: seq<nat>, count: string, hash: string)
    requires WellFormed(ReleaseOf(core)) && IsNumber(count) && IsHash(hash)
    ensures Parsed(CoreText(core) + TailText(count, hash)) == Version(core, None, NumberOf(count))
  {
    var v := ReleaseOf(core);
    assert TagText(v) == CoreText(core);
    DescribedIsStable(v, count, hash);
    StableParses(TagText(v) + TailText(count, hash), v.(ahead := NumberOf(count)));
  }

  lemma BuildIsBetween(core: seq<nat>, ahead: nat)
    requires core != [] && ahead >= 1
    ensures Order(Version(core, None, ahead), ReleaseOf(core)) > 0
    ensures Order(ReleaseOf(BumpLast(core)), Version(core, None, ahead)) > 0
    ensures Order(ReleaseOf(BumpLast(core)), ReleaseOf(core)) > 0
  {
    CoreOrderSame(core, 0);
    CoreOrderBump(core, 0);
    CoreFlips(core, BumpLast(core), 0);
  }

  lemma SortsBetween(tag: string, build: string, next: string, core: seq<nat>, ahead: nat)
    requires core != [] && ahead >= 1
    requires Parsed(tag) == ReleaseOf(core) && Parsed(build) == Version(core, None, ahead)
    requires Parsed(next) == ReleaseOf(BumpLast(core))
    ensures Newer(build, tag) && Newer(next, build) && Newer(next, tag)
  {
    BuildIsBetween(core, ahead);
  }

  /**
   A `git describe` build, n >= 1 commits past a release tag, is newer than the tag and older than the
   next tag, whatever the hash.
   */
  lemma DescribeBuildsSortBetweenTags(core: seq<nat>, count: string, hash: string)
    requires WellFormed(ReleaseOf(core)) && core[|core| - 1] < MAX_INT
    requires IsNumber(count) && ValueOf(count) >= 1 && IsHash(hash)
    ensures var tag, build, next := CoreText(core), CoreText(core) + TailText(count, hash), CoreText(BumpLast(core));
      Newer(build, tag) && Newer(next, build) && Newer(next, tag)
  {
    ReleasesParse(core);
    BuildParses(core, count, hash);
    var (tag, build, next) := (CoreText(core), CoreText(core) + TailText(count, hash), CoreText(BumpLast(core)));
    SortsBetween(tag, build, next, core, NumberOf(count));
  }
}
