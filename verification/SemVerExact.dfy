/**
 Exactly which valid versions the program ranks as the standard does: those whose text keeps its end. For every
 other one there is a version on which they disagree.
 */
module SemVerExact {
  import opened Wrappers
  import opened Text
  import opened Versions
  import opened VersionOrder
  import opened VersionRoundTrip
  import opened SemVer

  function TextOf(x: SemVer): string {
    TagText(AsVersion(x))
  }

  /** The parser strips nothing off the version's text. */
  predicate Keeps(x: SemVer) {
    x.pre == [] || KeepsItsEnd(TextOf(x))
  }

  /** The program and the standard rank the two alike, whichever is the candidate. */
  predicate Agrees(x: SemVer, y: SemVer) {
    (Newer(TextOf(x), TextOf(y)) <==> Below(y, x)) && (Newer(TextOf(y), TextOf(x)) <==> Below(x, y))
  }

  // --------------------------------------------------------- what is stripped

  /** A describe tail or -dirty starts here: a dash, then a digit or a d, and no dot to the end. */
  predicate StripsAt(s: string, m: nat) {
    m + 1 < |s| && s[m] == '-' && (IsDigit(s[m + 1]) || s[m + 1] == 'd') && '.' !in s[m..]
  }

  lemma DirtyStrips(s: string)
    requires HasSuffix(s, DIRTY)
    ensures StripsAt(s, |s| - |DIRTY|)
  {
    var m := |s| - |DIRTY|;
    assert s[m..][0] == s[m] && s[m..][1] == s[m + 1];
  }

  lemma TailStrips(s: string, clean: string, i: nat, k: nat)
    requires clean == TrimSuffix(s, DIRTY) && TailAt(clean, i, k)
    ensures StripsAt(s, i)
  {
    TailChars(clean, i, k);
    assert clean[i + 1..k][0] == clean[i + 1];
    forall j | i <= j < |s| ensures s[j] != '.' {
      if j < |clean| {
        assert IsTailChar(clean[j]) && s[j] == clean[j];
      } else {
        DirtyStrips(s);
        assert s[|clean|..][j - |clean|] == s[j];
      }
    }
  }

  /** Text that ends in no space and does not keep its end is read up to where it strips. */
  lemma StrippedSuffix(s: string) returns (m: nat, n: nat)
    requires s != "" && IsDigit(s[0]) && !IsSpace(s[|s| - 1]) && !KeepsItsEnd(s)
    ensures StripsAt(s, m) && Parsed(s) == ParsedTag(s[..m], n)
  {
    var shown := DisplayIsPrefix(s);
    assert shown == s;
    var clean := TrimSuffix(s, DIRTY);
    match DescribeTail(clean) {
      case None =>
        m, n := |clean|, 0;
        DirtyStrips(s);
      case Some((i, k)) =>
        m, n := i, NumberOf(clean[i + 1..k]);
        DescribeTailIsTheMatch(clean, i, k);
        TailStrips(s, clean, i, k);
        assert clean[..m] == s[..m];
    }
  }

  // ------------------------------------------------------- a disagreement

  lemma ValidText(x: SemVer)
    requires Valid(x)
    ensures WellFormed(AsVersion(x))
    ensures var s := TextOf(x); s != "" && IsDigit(s[0])
    ensures var s := TextOf(x); !IsSpace(s[|s| - 1])
  {
    var v := AsVersion(x);
    forall i | 0 <= i < |x.pre| ensures '.' !in x.pre[i] {
      assert ValidId(x.pre[i]);
    }
    CoreTextChars(v.core);
    assert TextOf(x)[0] == CoreText(v.core)[0];
    if x.pre != [] {
      LastOfJoin(x.pre);
      assert ValidId(x.pre[|x.pre| - 1]);
    }
  }

  lemma LastOfJoin(parts: seq<string>)
    requires parts != [] && parts[|parts| - 1] != ""
    ensures var (s, last) := (Join(parts, '.'), parts[|parts| - 1]);
      s != "" && s[|s| - 1] == last[|last| - 1]
  {
    var n := |parts| - 1;
    if n > 0 {
      var head := Join(parts[..n], '.') + ['.'];
      assert Join(parts, '.') == head + parts[n];
    }
  }

  /** The strip reaches the core: the program takes the pre-release for a build on top of the release. */
  lemma DisagreesWithRelease(x: SemVer, n: nat)
    requires Valid(x) && x.pre != [] && Parsed(TextOf(x)) == Version(AsVersion(x).core, None, n)
    ensures var y := x.(pre := []); Valid(y) && Keeps(y) && !Agrees(x, y)
  {
    var y := x.(pre := []);
    SemVerParses(y);
    CoreOrderSame(AsVersion(x).core, 0);
    NotNewer(TextOf(y), TextOf(x), AsVersion(y), Parsed(TextOf(x)));
  }

  lemma NotNewer(candidate: string, current: string, a: Version, b: Version)
    requires Parsed(candidate) == a && Parsed(current) == b && Order(a, b) <= 0
    ensures !Newer(candidate, current)
  {
  }

  /** The identifiers `p`, the last with `more` appended. */
  function Extended(p: seq<string>, more: string): seq<string>
    requires p != []
  {
    p[..|p| - 1] + [p[|p| - 1] + more]
  }

  lemma {:induction false} PreOrderSkips(p: seq<string>, q: seq<string>, i: nat)
    requires i <= |p| && i <= |q| && p[..i] == q[..i]
    ensures PreOrder(p, q, 0) == PreOrder(p, q, i)
  {
    if i > 0 {
      assert p[..i - 1] == p[..i][..i - 1] && q[..i - 1] == q[..i][..i - 1];
      assert p[..i][i - 1] == q[..i][i - 1];
      PreOrderSkips(p, q, i - 1);
      StringFlips(p[i - 1], p[i - 1]);
    }
  }

  lemma {:induction false} PrefixIsBefore(s: string, more: string)
    requires more != ""
    ensures StringOrder(s, s + more) == -1
  {
    if s == "" {
      assert s + more == more;
    } else {
      assert (s + more)[1..] == s[1..] + more;
      PrefixIsBefore(s[1..], more);
    }
  }

  /** For the program a text extended by dashes sorts above the text. */
  lemma ExtendedIsAbove(p: seq<string>)
    requires p != []
    ensures PreOrder(p, Extended(p, "--"), 0) < 0
  {
    var q, k := Extended(p, "--"), |p| - 1;
    PreOrderSkips(p, q, k);
    PrefixIsBefore(p[k], "--");
    assert q[k][|p[k]|] == '-';
    assert !IsNumber(q[k]);
  }

  /** For the standard it sorts below what the parser stripped. */
  lemma ExtendedIsBelow(p: seq<string>, stripped: string)
    requires p != [] && |stripped| > 1 && stripped[0] == '-' && (IsDigit(stripped[1]) || stripped[1] == 'd')
    ensures PreBelow(Extended(p, "--"), Extended(p, stripped))
  {
    var (y, x, k) := (Extended(p, "--"), Extended(p, stripped), |p| - 1);
    var n := |p[k]|;
    assert y[k][n] == '-' && x[k][n] == '-' && y[k][n + 1] == '-' && x[k][n + 1] == stripped[1];
    assert y[k][..n + 1] == p[k] + ['-'] && x[k][..n + 1] == p[k] + ['-'];
    assert DiffersBelowAt(y[k], x[k], n + 1);
    FirstDifferenceDecides(y, x, k);
  }

  lemma ExtendedIsValid(p: seq<string>, x: SemVer, stripped: string)
    requires Valid(x) && p != [] && x.pre == Extended(p, stripped)
    ensures Valid(x.(pre := Extended(p, "--")))
  {
    var q, k := Extended(p, "--"), |p| - 1;
    forall i | 0 <= i < |q| ensures ValidId(q[i]) && InRange(q[i]) {
      assert ValidId(x.pre[i]) && InRange(x.pre[i]);
      if i == k {
        assert forall j :: 0 <= j < |p[k]| ==> x.pre[k][j] == p[k][j];
        assert q[k][|p[k]|] == '-';
      }
    }
  }

  /** Text that ends in a dash keeps its end. */
  lemma DashKeepsItsEnd(s: string)
    requires s != "" && s[|s| - 1] == '-'
    ensures KeepsItsEnd(s)
  {
    if HasSuffix(s, DIRTY) {
      DirtyEndsInY(s);
    }
    TailEndsInHex(s);
  }

  lemma TailEndsInHex(s: string)
    ensures DescribeTail(s).Some? ==> s != "" && IsHex(s[|s| - 1])
  {
    if DescribeTail(s).Some? {
      var (i, k) := DescribeTail(s).value;
      DescribeTailIsTheMatch(s, i, k);
      assert IsHex(s[k + 2..][|s| - k - 3]);
    }
  }

  lemma DisagreesWithExtended(x: SemVer, p: seq<string>, stripped: string, n: nat)
    requires Valid(x) && p != [] && x.pre == Extended(p, stripped)
    requires |stripped| > 1 && stripped[0] == '-' && (IsDigit(stripped[1]) || stripped[1] == 'd')
    requires Parsed(TextOf(x)) == Version(AsVersion(x).core, Some(p), n)
    ensures var y := x.(pre := Extended(p, "--")); Valid(y) && Keeps(y) && !Agrees(x, y)
  {
    var y := x.(pre := Extended(p, "--"));
    ExtendedIsValid(p, x, stripped);
    LastOfJoin(y.pre);
    DashKeepsItsEnd(TextOf(y));
    SemVerParses(y);
    ExtendedIsBelow(p, stripped);
    ExtendedIsAbove(p);
    CoreOrderSame(AsVersion(x).core, 0);
    NotNewer(TextOf(x), TextOf(y), Parsed(TextOf(x)), AsVersion(y));
  }

  /** Where the strip ends inside the pre-release, its last identifier was cut. */
  lemma CutPreRelease(x: SemVer, m: nat)
    requires Valid(x) && x.pre != []
    requires |CoreText(AsVersion(x).core)| < m && StripsAt(TextOf(x), m)
    ensures var s := TextOf(x);
      var p := Split(s[|CoreText(AsVersion(x).core)| + 1..m], '.'); x.pre == Extended(p, s[m..])
  {
    var s, core := TextOf(x), CoreText(AsVersion(x).core);
    TagTextParts(AsVersion(x));
    SliceSplits(s, |core| + 1, m);
    CutIsExtended(x, s[|core| + 1..m], s[m..]);
  }

  lemma SliceSplits(s: string, from: nat, m: nat)
    requires from <= m <= |s|
    ensures s[from..] == s[from..m] + s[m..]
  {
  }

  lemma CutIsExtended(x: SemVer, kept: string, stripped: string)
    requires Valid(x) && x.pre != [] && Join(x.pre, '.') == kept + stripped && '.' !in stripped
    ensures x.pre == Extended(Split(kept, '.'), stripped)
  {
    forall i | 0 <= i < |x.pre| ensures '.' !in x.pre[i] {
      assert ValidId(x.pre[i]);
    }
    SplitAppend(kept, stripped, '.');
    SplitOfJoin(x.pre, '.');
  }

  lemma CoreAlone(x: SemVer, m: nat, n: nat)
    requires Valid(x) && m == |CoreText(AsVersion(x).core)|
    ensures m <= |TextOf(x)| && ParsedTag(TextOf(x)[..m], n) == Version(AsVersion(x).core, None, n)
  {
    var release := Version(AsVersion(x).core, None, 0);
    TagTextParts(AsVersion(x));
    ParsedTagText(release, n);
    assert TextOf(x)[..m] == TagText(release);
  }

  lemma CoreAndCut(x: SemVer, m: nat, n: nat)
    requires Valid(x) && x.pre != [] && |CoreText(AsVersion(x).core)| < m <= |TextOf(x)|
    ensures var core := |CoreText(AsVersion(x).core)|;
      ParsedTag(TextOf(x)[..m], n) == Version(AsVersion(x).core, Some(Split(TextOf(x)[core + 1..m], '.')), n)
  {
    var v, s := AsVersion(x), TextOf(x);
    var core := CoreText(v.core);
    TagTextParts(v);
    CoreTextChars(v.core);
    CoreTextSplits(v.core);
    assert s[..m] == core + ("-" + s[|core| + 1..m]) by {
      assert s[..m] == s[..|core|] + [s[|core|]] + s[|core| + 1..m];
    }
    TagOfParts(core, s[|core| + 1..m], n);
  }

  /** A tag of dashless core and pre-release text. */
  lemma TagOfParts(core: string, text: string, n: nat)
    requires forall i :: 0 <= i < |core| ==> core[i] != '-'
    requires AllNumbers(Split(core, '.'))
    ensures ParsedTag(core + ("-" + text), n) == Version(Numbers(Split(core, '.')), Some(Split(text, '.')), n)
  {
    var body := core + ("-" + text);
    FirstDashAfter(core, "-" + text);
    assert body[..|core|] == core && body[|core| + 1..] == text;
  }

  lemma Disagreement(x: SemVer) returns (y: SemVer)
    requires Valid(x) && !Keeps(x)
    ensures Valid(y) && Keeps(y) && !Agrees(x, y)
  {
    ValidText(x);
    var s, core := TextOf(x), |CoreText(AsVersion(x).core)|;
    var m, n := StrippedSuffix(s);
    TagTextParts(AsVersion(x));
    CoreTextChars(AsVersion(x).core);
    assert m >= core;
    if m == core {
      CoreAlone(x, m, n);
      DisagreesWithRelease(x, n);
      y := x.(pre := []);
    } else {
      CoreAndCut(x, m, n);
      CutPreRelease(x, m);
      var p := Split(s[core + 1..m], '.');
      DisagreesWithExtended(x, p, s[m..], n);
      y := x.(pre := Extended(p, "--"));
    }
  }

  /**
   A valid version is ranked as the standard ranks it against every version whose text keeps its end, if and
   only if its own text does.
   */
  lemma RankedRightIffKeeps(x: SemVer)
    requires Valid(x)
    ensures Keeps(x) <==> forall y :: Valid(y) && Keeps(y) ==> Agrees(x, y)
  {
    if Keeps(x) {
      forall y | Valid(y) && Keeps(y) ensures Agrees(x, y) {
        NewerIsSemVer(x, y);
        NewerIsSemVer(y, x);
      }
    } else {
      var y := Disagreement(x);
    }
  }
}
