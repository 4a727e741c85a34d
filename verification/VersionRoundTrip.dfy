/** Printing a version and parsing it again, and exactly when that gives the version back. */
module VersionRoundTrip {
  import opened Wrappers
  import opened Text
  import opened Versions

  function Decimals(ns: seq<nat>): (parts: seq<string>)
    ensures |parts| == |ns|
  {
    seq(|ns|, i requires 0 <= i < |ns| => Decimal(ns[i]))
  }

  function CoreText(core: seq<nat>): string {
    Join(Decimals(core), '.')
  }

  function PreText(pre: Option<seq<string>>): string {
    if pre.Some? then "-" + Join(pre.value, '.') else ""
  }

  /** The tag part of a version string. */
  function TagText(v: Version): string {
    CoreText(v.core) + PreText(v.pre)
  }

  /** What `git describe` appends for `count` commits past the tag. */
  function TailText(count: string, hash: string): string {
    "-" + count + "-g" + hash
  }

  function Render(v: Version, hash: string): string {
    TagText(v) + if v.ahead > 0 then TailText(Decimal(v.ahead), hash) else ""
  }

  predicate IsHash(hash: string) {
    |hash| >= 4 && AllHex(hash)
  }

  predicate WellFormed(v: Version) {
    && v.core != [] && (forall i :: 0 <= i < |v.core| ==> v.core[i] <= MAX_INT) && v.ahead <= MAX_INT
    && (v.pre.Some? ==> v.pre.value != [] && forall i :: 0 <= i < |v.pre.value| ==> '.' !in v.pre.value[i])
  }

  /** The parser would not strip anything off the end of this text. */
  predicate KeepsItsEnd(s: string) {
    s != "" && !IsSpace(s[|s| - 1]) && !HasSuffix(s, DIRTY) && DescribeTail(s).None?
  }

  /** What a version must satisfy to survive printing and parsing. */
  predicate Survives(v: Version) {
    v.ahead > 0 || v.pre.None? || KeepsItsEnd(TagText(v))
  }

  // ------------------------------------------------------------------ core

  predicate IsCoreChar(c: char) {
    IsDigit(c) || c == '.'
  }

  /** Core text is digits and dots, starting and ending with a digit. */
  lemma {:induction false} CoreTextChars(core: seq<nat>)
    requires core != []
    ensures var s := CoreText(core);
      s != "" && IsDigit(s[0]) && IsDigit(s[|s| - 1]) && forall i :: 0 <= i < |s| ==> IsCoreChar(s[i])
  {
    var n := |core| - 1;
    if n > 0 {
      CoreTextChars(core[..n]);
      assert Decimals(core)[..n] == Decimals(core[..n]);
    }
  }

  lemma CoreTextSplits(core: seq<nat>)
    requires core != [] && forall i :: 0 <= i < |core| ==> core[i] <= MAX_INT
    ensures var parts := Split(CoreText(core), '.');
      AllNumbers(parts) && Numbers(parts) == core
  {
    var parts := Decimals(core);
    SplitOfJoin(parts, '.');
    forall i | 0 <= i < |core| ensures NumberOf(parts[i]) == core[i] {
      ValueOfDecimal(core[i]);
    }
  }

  lemma FirstDashAfter(s: string, t: string)
    requires forall i :: 0 <= i < |s| ==> s[i] != '-'
    ensures FirstDash(s + t) == |s| + FirstDash(t)
  {
    var k := FirstDash(s + t);
    assert forall i :: 0 <= i < |s| ==> (s + t)[i] == s[i];
    assert forall i :: 0 <= i < |t| ==> (s + t)[|s| + i] == t[i];
    assert k >= |s|;
  }

  lemma TagTextParts(v: Version)
    requires v.core != []
    ensures var core, s := CoreText(v.core), TagText(v);
      && FirstDash(s) == |core| && s[..|core|] == core
      && (v.pre.None? ==> |s| == |core|)
      && (v.pre.Some? ==> |s| > |core| && s[|core| + 1..] == Join(v.pre.value, '.'))
  {
    CoreTextChars(v.core);
    FirstDashAfter(CoreText(v.core), PreText(v.pre));
  }

  /** A tag parses to what was printed. */
  lemma ParsedTagText(v: Version, ahead: nat)
    requires WellFormed(v)
    ensures ParsedTag(TagText(v), ahead) == v.(ahead := ahead)
  {
    TagTextParts(v);
    CoreTextSplits(v.core);
    if v.pre.Some? {
      SplitOfJoin(v.pre.value, '.');
    }
  }

  /** Nor does a shorter text: every character of the pre-release counts. */
  lemma StrictPrefixDiffers(v: Version, m: nat, ahead: nat)
    requires WellFormed(v) && v.pre.Some? && m < |TagText(v)|
    ensures ParsedTag(TagText(v)[..m], ahead) != v
  {
    var core, body := CoreText(v.core), TagText(v)[..m];
    TagTextParts(v);
    CoreTextChars(v.core);
    if m > |core| {
      assert body == core + body[|core|..];
      FirstDashAfter(core, body[|core|..]);
      ShorterPreDiffers(v, body, ahead);
    } else {
      assert FirstDash(body) == m;
    }
  }

  lemma ShorterPreDiffers(v: Version, body: string, ahead: nat)
    requires v.pre.Some? && FirstDash(body) < |body|
    requires |body| - FirstDash(body) - 1 < |Join(v.pre.value, '.')|
    ensures ParsedTag(body, ahead) != v
  {
    JoinOfSplit(body[FirstDash(body) + 1..], '.');
  }

  // ------------------------------------------------------------- the end

  predicate AllSpace(s: string) {
    forall i :: 0 <= i < |s| ==> IsSpace(s[i])
  }

  lemma {:induction false} TrimLeftPad(pad: string, s: string)
    requires AllSpace(pad) && s != "" && !IsSpace(s[0])
    ensures TrimLeft(pad + s) == s
  {
    if pad == "" {
      assert pad + s == s;
    } else {
      assert (pad + s)[1..] == pad[1..] + s;
      TrimLeftPad(pad[1..], s);
    }
  }

  lemma {:induction false} TrimRightPad(s: string, pad: string)
    requires AllSpace(pad) && s != "" && !IsSpace(s[|s| - 1])
    ensures TrimRight(s + pad) == s
  {
    if pad == "" {
      assert s + pad == s;
    } else {
      assert (s + pad)[..|s + pad| - 1] == s + pad[..|pad| - 1];
      TrimRightPad(s, pad[..|pad| - 1]);
    }
  }

  lemma {:induction false} TrimRightIsPrefix(s: string)
    ensures TrimRight(s) <= s
    ensures forall j :: 0 <= j < |s| && !IsSpace(s[j]) ==> j < |TrimRight(s)|
    ensures s != "" && IsSpace(s[|s| - 1]) ==> |TrimRight(s)| < |s|
  {
    if s != "" && IsSpace(s[|s| - 1]) {
      TrimRightIsPrefix(s[..|s| - 1]);
    }
  }

  /** Spaces around and a leading v do not show. */
  lemma DisplayOfDecorated(before: string, lead: string, s: string, after: string)
    requires AllSpace(before) && AllSpace(after) && lead in {"", "v", "V"}
    requires s != "" && IsDigit(s[0]) && !IsSpace(s[|s| - 1])
    ensures DisplayVersion(before + lead + s + after) == s
  {
    var t := lead + s;
    assert !IsSpace(t[0]) && t[|t| - 1] == s[|s| - 1];
    assert before + lead + s + after == before + (t + after);
    assert (t + after)[0] == t[0];
    TrimLeftPad(before, t + after);
    TrimRightPad(t, after);
    if lead == "" {
      assert t == s;
    } else {
      assert t[1..] == s;
    }
  }

  lemma TailMatches(tag: string, count: string, hash: string)
    requires IsHash(hash) && IsNumber(count)
    ensures var s, k := tag + TailText(count, hash), |tag| + 1 + |count|;
      && s[..|tag|] == tag && s[|tag| + 1..k] == count && IsHex(s[|s| - 1])
      && TailAt(s, |tag|, k)
  {
    var s, k := tag + TailText(count, hash), |tag| + 1 + |count|;
    assert s[|tag| + 1..k] == count;
    assert s[k + 2..] == hash;
    assert s[|s| - 1] == hash[|hash| - 1];
  }

  lemma CleanOfTail(s: string, i: nat, k: nat, tag: string, count: string)
    requires TailAt(s, i, k) && s[..i] == tag && s[i + 1..k] == count
    ensures ParsedClean(s) == ParsedTag(tag, NumberOf(count))
  {
    DescribeTailIsTheMatch(s, i, k);
  }

  /** A describe tail is recognised whatever the tag, and leaves the tag to parse. */
  lemma DescribedIsTag(tag: string, count: string, hash: string)
    requires IsHash(hash) && IsNumber(count)
    ensures ParsedClean(tag + TailText(count, hash)) == ParsedTag(tag, NumberOf(count))
  {
    var s := tag + TailText(count, hash);
    TailMatches(tag, count, hash);
    CleanOfTail(s, |tag|, |tag| + 1 + |count|, tag, count);
  }

  lemma DirtyEndsInY(s: string)
    requires HasSuffix(s, DIRTY)
    ensures s[|s| - 1] == 'y' && s[|s| - 6] == '-'
  {
    assert s[|s| - 6..][5] == DIRTY[5] && s[|s| - 6..][0] == DIRTY[0];
  }

  /** No dash, no tail and no -dirty; a core alone ends in a digit. */
  lemma CoreKeepsItsEnd(core: seq<nat>)
    requires core != []
    ensures KeepsItsEnd(CoreText(core))
  {
    var s := CoreText(core);
    CoreTextChars(core);
    if HasSuffix(s, DIRTY) {
      DirtyEndsInY(s);
    }
    assert forall i :: 0 <= i < |s| ==> s[i] != '-';
  }

  /** The text ends in something no later stage strips, and its stripped reading is `v`. */
  predicate Stable(s: string, v: Version) {
    s != "" && IsDigit(s[0]) && !IsSpace(s[|s| - 1]) && !HasSuffix(s, DIRTY) && ParsedClean(s) == v
  }

  /** A tag with a describe tail keeps its end, whatever the tag ends in. */
  lemma DescribedIsStable(v: Version, count: string, hash: string)
    requires WellFormed(v) && IsHash(hash) && IsNumber(count)
    ensures Stable(TagText(v) + TailText(count, hash), v.(ahead := NumberOf(count)))
  {
    var s := TagText(v) + TailText(count, hash);
    CoreTextChars(v.core);
    assert s[0] == CoreText(v.core)[0];
    ParsedTagText(v, NumberOf(count));
    TailMatches(TagText(v), count, hash);
    DescribedIsTag(TagText(v), count, hash);
    if HasSuffix(s, DIRTY) {
      DirtyEndsInY(s);
    }
  }

  lemma TagIsStable(v: Version)
    requires WellFormed(v) && v.ahead == 0 && Survives(v)
    ensures Stable(TagText(v), v)
  {
    var s := TagText(v);
    CoreTextChars(v.core);
    assert s[0] == CoreText(v.core)[0];
    ParsedTagText(v, 0);
    if v.pre.None? {
      assert s == CoreText(v.core);
      CoreKeepsItsEnd(v.core);
    }
  }

  lemma RenderIsStable(v: Version, hash: string)
    requires WellFormed(v) && IsHash(hash) && Survives(v)
    ensures Stable(Render(v, hash), v)
  {
    if v.ahead > 0 {
      ValueOfDecimal(v.ahead);
      DescribedIsStable(v, Decimal(v.ahead), hash);
    } else {
      assert Render(v, hash) == TagText(v);
      TagIsStable(v);
    }
  }

  // -------------------------------------------------------------- theorems

  /** Surrounding space, one leading v or V and one trailing -dirty change nothing. */
  lemma DecorationsChangeNothing(
    v: Version, hash: string, before: string, lead: string, dirty: string, after: string)
    requires WellFormed(v) && IsHash(hash) && Survives(v)
    requires AllSpace(before) && AllSpace(after) && lead in {"", "v", "V"} && dirty in {"", DIRTY}
    ensures Parsed(before + lead + Render(v, hash) + dirty + after) == v
  {
    RenderIsStable(v, hash);
    StableUnderDecoration(Render(v, hash), v, before, lead, dirty, after);
  }

  lemma StableUnderDecoration(
    s: string, v: Version, before: string, lead: string, dirty: string, after: string)
    requires Stable(s, v)
    requires AllSpace(before) && AllSpace(after) && lead in {"", "v", "V"} && dirty in {"", DIRTY}
    ensures Parsed(before + lead + s + dirty + after) == v
  {
    var t := s + dirty;
    assert t[0] == s[0];
    assert before + lead + s + dirty + after == before + lead + t + after;
    if dirty == "" {
      assert t == s;
    } else {
      assert t[|t| - 1] == 'y';
      assert t[..|s|] == s && t[|s|..] == DIRTY;
    }
    DisplayOfDecorated(before, lead, t, after);
  }

  lemma StableParses(s: string, v: Version)
    requires Stable(s, v)
    ensures Parsed(s) == v
  {
    StableUnderDecoration(s, v, "", "", "", "");
    assert "" + "" + s + "" + "" == s;
  }

  /** A well-formed version is read back from its printed form exactly when the parser strips nothing of it. */
  lemma RoundTrip(v: Version, hash: string)
    requires WellFormed(v) && IsHash(hash)
    ensures Parsed(Render(v, hash)) == v <==> Survives(v)
  {
    if Survives(v) {
      RenderIsStable(v, hash);
      StableParses(Render(v, hash), v);
    } else {
      StrippedDiffers(v, hash);
    }
  }

  lemma StrippedDiffers(v: Version, hash: string)
    requires WellFormed(v) && IsHash(hash) && !Survives(v)
    ensures Parsed(Render(v, hash)) != v
  {
    var s := TagText(v);
    assert Render(v, hash) == s;
    CoreTextChars(v.core);
    assert s[0] == CoreText(v.core)[0];
    var m, n := StrippedIsPrefix(s);
    StrictPrefixDiffers(v, m, n);
  }

  /** Text that does not keep its end is read as the tag of a strict prefix. */
  lemma StrippedIsPrefix(s: string) returns (m: nat, n: nat)
    requires s != "" && IsDigit(s[0]) && !KeepsItsEnd(s)
    ensures m < |s| && Parsed(s) == ParsedTag(s[..m], n)
  {
    var shown := DisplayIsPrefix(s);
    var clean := TrimSuffix(shown, DIRTY);
    m, n := CleanIsPrefix(clean);
    assert |clean| < |s| || clean == s;
    assert clean[..m] == s[..m];
  }

  /** Reading stripped text is reading a prefix of it, a strict one if it has a describe tail. */
  lemma CleanIsPrefix(clean: string) returns (m: nat, n: nat)
    ensures m <= |clean| && ParsedClean(clean) == ParsedTag(clean[..m], n)
    ensures DescribeTail(clean).Some? ==> m < |clean|
    ensures forall j :: m <= j < |clean| ==> IsTailChar(clean[j])
  {
    match DescribeTail(clean) {
      case None =>
        m, n := |clean|, 0;
        assert clean[..m] == clean;
      case Some((i, k)) =>
        m, n := i, NumberOf(clean[i + 1..k]);
        TailChars(clean, i, k);
    }
  }

  predicate IsTailChar(c: char) {
    c == '-' || c == 'g' || IsHex(c)
  }

  lemma TailChars(s: string, i: nat, k: nat)
    requires TailAt(s, i, k)
    ensures forall j :: i <= j < |s| ==> IsTailChar(s[j])
  {
    forall j | i <= j < |s| ensures IsTailChar(s[j]) {
      if i < j < k {
        assert s[i + 1..k][j - i - 1] == s[j];
      } else if j > k + 1 {
        assert s[k + 2..][j - k - 2] == s[j];
      }
    }
  }

  lemma DisplayIsPrefix(s: string) returns (shown: string)
    requires s != "" && IsDigit(s[0])
    ensures shown == DisplayVersion(s) && shown <= s
    ensures forall j :: 0 <= j < |s| && !IsSpace(s[j]) ==> j < |shown|
    ensures |shown| < |s| <==> IsSpace(s[|s| - 1])
  {
    shown := DisplayVersion(s);
    TrimRightIsPrefix(s);
    assert TrimLeft(s) == s;
    if TrimRight(s) != "" {
      assert TrimRight(s)[0] == s[0];
    }
  }
}
