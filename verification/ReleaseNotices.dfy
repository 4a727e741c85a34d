/**
 How often a release is announced: each notice is for a newer tag, and each tag is announced once exactly when
 the checks that found it are not interrupted by another newer one. A run that announces a tag twice.
 */
module ReleaseNotices {
  import opened Versions
  import opened VersionRoundTrip
  import opened SemVer
  import opened ReleaseChecker

  ghost predicate AllDistinct(tags: seq<string>) {
    forall i, j :: 0 <= i < j < |tags| ==> tags[i] != tags[j]
  }

  /** Between two occurrences of a tag there is nothing else. */
  ghost predicate Contiguous(tags: seq<string>) {
    forall i, j, k :: 0 <= i < j < k < |tags| && tags[i] == tags[k] ==> tags[j] == tags[i]
  }

  lemma {:induction false} SameTags(tags: seq<string>, tag: string)
    ensures tag in WithoutRepeats(tags) <==> tag in tags
  {
    if |tags| > 1 {
      var n := |tags| - 1;
      SameTags(tags[..n], tag);
      assert tags == tags[..n] + [tags[n]];
      assert tags[n - 1] in tags[..n];
    }
  }

  lemma ContiguousSnoc(tags: seq<string>, tag: string)
    requires tags != []
    ensures Contiguous(tags + [tag]) <==> Contiguous(tags) && (tag == tags[|tags| - 1] || tag !in tags)
  {
    var all, n := tags + [tag], |tags|;
    if Contiguous(all) {
      forall i, j, k | 0 <= i < j < k < n && tags[i] == tags[k] ensures tags[j] == tags[i] {
        assert all[i] == tags[i] && all[j] == tags[j] && all[k] == tags[k];
      }
      if tag in tags {
        var i :| 0 <= i < n && tags[i] == tag;
        assert all[i] == all[n] && all[n - 1] == tags[n - 1];
      }
    } else {
      var i, j, k :| 0 <= i < j < k < |all| && all[i] == all[k] && all[j] != all[i];
      if k == n {
        assert tags[i] == tag && tags[j] != tag;
        assert tag == tags[n - 1] ==> j < n - 1 && tags[i] == tags[n - 1];
      }
    }
  }

  /** Reduced tags are all distinct exactly when the occurrences of each are contiguous. */
  lemma {:induction false} DistinctIffContiguous(tags: seq<string>)
    ensures AllDistinct(WithoutRepeats(tags)) <==> Contiguous(tags)
  {
    if |tags| > 1 {
      var n := |tags| - 1;
      var init, reduced := tags[..n], WithoutRepeats(tags[..n]);
      DistinctIffContiguous(init);
      assert tags == init + [tags[n]];
      ContiguousSnoc(init, tags[n]);
      SameTags(init, tags[n]);
      DistinctSnoc(reduced, tags[n]);
    }
  }

  lemma DistinctSnoc(tags: seq<string>, tag: string)
    ensures AllDistinct(tags + [tag]) <==> AllDistinct(tags) && tag !in tags
  {
    var all := tags + [tag];
    if AllDistinct(all) {
      forall i, j | 0 <= i < j < |tags| ensures tags[i] != tags[j] {
        assert all[i] == tags[i] && all[j] == tags[j];
      }
      forall i | 0 <= i < |tags| ensures tags[i] != tag {
        assert all[i] == tags[i] && all[|tags|] == tag;
      }
    }
  }

  /**
   Exactly when a release is announced once per tag: in every run the notices are pairwise distinct if and
   only if, among the newer tags found, the occurrences of each are contiguous.
   */
  lemma OncePerTagIffContiguous(enabled: bool, version: string, testVersion: string, es: seq<Request>)
    ensures var c := RunChecks(NewChecks(enabled, version, testVersion), es);
      AllDistinct(c.notices) <==> Contiguous(NewerTags(c.requests, NewerThan(c.current)))
  {
    var c := RunChecks(NewChecks(enabled, version, testVersion), es);
    StatusTellsHistory(enabled, version, testVersion, es);
    DistinctIffContiguous(NewerTags(c.requests, NewerThan(c.current)));
  }

  /** Notices are for newer tags, and no two consecutive ones are for the same. */
  lemma {:induction false} AnnouncedTags(requests: seq<Request>, newer: string -> bool)
    ensures forall tag :: tag in NewerTags(requests, newer) ==> newer(tag)
  {
    if requests != [] {
      AnnouncedTags(requests[..|requests| - 1], newer);
    }
  }

  ghost predicate NoRepeat(tags: seq<string>) {
    forall i, j :: 0 <= i && j == i + 1 && j < |tags| ==> tags[i] != tags[j]
  }

  lemma {:induction false} NeverTwiceInARow(tags: seq<string>)
    ensures NoRepeat(WithoutRepeats(tags))
  {
    if |tags| > 1 {
      NeverTwiceInARow(tags[..|tags| - 1]);
      LastTagKept(tags[..|tags| - 1]);
    }
  }

  lemma NoticesAreNewsworthy(enabled: bool, version: string, testVersion: string, es: seq<Request>)
    ensures var c := RunChecks(NewChecks(enabled, version, testVersion), es);
      NoRepeat(c.notices) && forall tag :: tag in c.notices ==> Newer(tag, c.current)
  {
    var c := RunChecks(NewChecks(enabled, version, testVersion), es);
    var tags := NewerTags(c.requests, NewerThan(c.current));
    StatusTellsHistory(enabled, version, testVersion, es);
    NeverTwiceInARow(tags);
    AnnouncedTags(c.requests, NewerThan(c.current));
    forall tag | tag in c.notices ensures Newer(tag, c.current) {
      SameTags(tags, tag);
      assert NewerThan(c.current)(tag);
    }
  }

  // ------------------------------------------------------ a tag that returns

  /** Three successful checks, a day apart, that find `a`, `b` and `a` again. */
  function ThereAndBack(a: Release, b: Release): seq<Request> {
    [Request(0, Found(a), 0),
     Request(MINIMUM_INTERVAL, Found(b), MINIMUM_INTERVAL),
     Request(2 * MINIMUM_INTERVAL, Found(a), 2 * MINIMUM_INTERVAL)]
  }

  lemma RunOfThree(c: Checks, e0: Request, e1: Request, e2: Request)
    ensures RunChecks(c, [e0, e1, e2]) == Evaluate(Evaluate(Evaluate(c, e0), e1), e2)
  {
    RunChecksSnoc(c, [], e0);
    RunChecksSnoc(c, [e0], e1);
    RunChecksSnoc(c, [e0, e1], e2);
    assert [] + [e0] == [e0] && [e0] + [e1] == [e0, e1] && [e0, e1] + [e2] == [e0, e1, e2];
  }

  lemma RunChecksSnoc(c: Checks, es: seq<Request>, e: Request)
    ensures RunChecks(c, es + [e]) == Evaluate(RunChecks(c, es), e)
  {
    assert (es + [e])[..|es|] == es;
  }

  lemma DueFoundNewer(c: Checks, e: Request, p: Checks)
    requires c.enabled && c.automatic && ShouldCheck(c.lastSuccess, c.lastFailure, e.start)
    requires e.outcome.Found? && Newer(e.outcome.release.tagName, c.current)
    requires p == After(c, e.outcome.release, e)
    ensures Evaluate(c, e) == p
  {
  }

  /** Nothing was requested, found or announced yet. */
  predicate IsFresh(c: Checks) {
    c.lastSuccess.None? && c.lastFailure.None? && c.loggedTag == "" && c.requests == [] && c.notices == []
  }

  /** A request on `c` that found the newer `release`. */
  function After(c: Checks, release: Release, e: Request): Checks {
    RecordedRelease(c, release, true, e.finish).(requests := c.requests + [e])
  }

  lemma ThreeRecorded(c: Checks, a: Release, b: Release)
    requires IsFresh(c) && a.tagName != b.tagName && a.tagName != ""
    ensures var es := ThereAndBack(a, b);
      var (c1, c2) := (After(c, a, es[0]), After(After(c, a, es[0]), b, es[1]));
      && ShouldCheck(c.lastSuccess, c.lastFailure, es[0].start)
      && ShouldCheck(c1.lastSuccess, c1.lastFailure, es[1].start)
      && ShouldCheck(c2.lastSuccess, c2.lastFailure, es[2].start)
      && After(c2, a, es[2]).requests == es
      && After(c2, a, es[2]).notices == [a.tagName, b.tagName, a.tagName]
  {
  }

  lemma ThreeAnnouncements(c: Checks, a: Release, b: Release)
    requires c.enabled && c.automatic && IsFresh(c)
    requires Newer(a.tagName, c.current) && Newer(b.tagName, c.current)
    requires a.tagName != b.tagName && a.tagName != ""
    ensures var es := ThereAndBack(a, b);
      var p := Evaluate(Evaluate(Evaluate(c, es[0]), es[1]), es[2]);
      p.requests == es && p.notices == [a.tagName, b.tagName, a.tagName]
  {
    var es := ThereAndBack(a, b);
    ThreeRecorded(c, a, b);
    DueFoundNewer(c, es[0], After(c, a, es[0]));
    var c1 := After(c, a, es[0]);
    DueFoundNewer(c1, es[1], After(c1, b, es[1]));
    var c2 := After(c1, b, es[1]);
    DueFoundNewer(c2, es[2], After(c2, a, es[2]));
  }

  lemma ThreeInARun(c: Checks, a: Release, b: Release)
    requires c.enabled && c.automatic && IsFresh(c)
    requires Newer(a.tagName, c.current) && Newer(b.tagName, c.current) && a.tagName != b.tagName
    ensures var p := RunChecks(c, ThereAndBack(a, b));
      p.requests == ThereAndBack(a, b) && p.notices == [a.tagName, b.tagName, a.tagName]
  {
    var es := ThereAndBack(a, b);
    EmptyIsNeverNewer(c.current);
    ThreeAnnouncements(c, a, b);
    RunOfThree(c, es[0], es[1], es[2]);
  }

  /** Any two newer releases, found as a, b and a again by checks a day apart, are announced as a, b, a. */
  lemma ReturningTagIsAnnouncedAgain(version: string, c: Checks, a: Release, b: Release)
    requires c == NewChecks(true, version, "") && c.automatic
    requires Newer(a.tagName, c.current) && Newer(b.tagName, c.current) && a.tagName != b.tagName
    ensures Monotone(ThereAndBack(a, b))
    ensures RunChecks(c, ThereAndBack(a, b)).requests == ThereAndBack(a, b)
    ensures RunChecks(c, ThereAndBack(a, b)).notices == [a.tagName, b.tagName, a.tagName]
  {
    ThreeAreMonotone(a, b);
    ThreeInARun(c, a, b);
  }

  lemma ThreeAreMonotone(a: Release, b: Release)
    ensures Monotone(ThereAndBack(a, b))
  {
  }

  /** A release version is compared as it stands. */
  lemma ReleaseRuns(core: seq<nat>)
    requires WellFormed(ReleaseOf(core))
    ensures var c := NewChecks(true, CoreText(core), ""); c.automatic && c.current == CoreText(core)
  {
    var s := CoreText(core);
    CoreTextChars(core);
    assert TrimSpace("") == "";
    assert TrimSpace(s) == s;
    forall i | 0 <= i < |s| ensures Lower(s[i]) != 'd' {
      assert IsCoreChar(s[i]);
    }
    ReleaseParses(core);
  }

  lemma LaterReleaseIsNewer(major: nat, later: nat)
    requires major < later <= MAX_INT
    ensures Newer(CoreText([later, 0, 0]), CoreText([major, 0, 0]))
    ensures CoreText([later, 0, 0]) != CoreText([major, 0, 0]) && CoreText([later, 0, 0]) != ""
  {
    ReleaseParses([later, 0, 0]);
    ReleaseParses([major, 0, 0]);
    CoreTextChars([later, 0, 0]);
    ThreePartCore(ReleaseOf([later, 0, 0]), ReleaseOf([major, 0, 0]));
    NewerAsParsed(CoreText([later, 0, 0]), CoreText([major, 0, 0]),
                  ReleaseOf([later, 0, 0]), ReleaseOf([major, 0, 0]));
  }

  lemma NewerAsParsed(candidate: string, current: string, a: Version, b: Version)
    requires Parsed(candidate) == a && Parsed(current) == b && a.core != [] && b.core != []
    ensures Newer(candidate, current) <==> Order(a, b) > 0
  {
  }

  /** So it happens: a server at 1.0.0 that finds 2.0.0, 3.0.0 and 2.0.0 again announces 2.0.0 twice. */
  lemma TagIsAnnouncedTwice(page: string)
    ensures var (a, b) := (CoreText([2, 0, 0]), CoreText([3, 0, 0]));
      var es := ThereAndBack(Release(a, page), Release(b, page));
      Monotone(es) && RunChecks(NewChecks(true, CoreText([1, 0, 0]), ""), es).notices == [a, b, a]
  {
    ReleaseRuns([1, 0, 0]);
    LaterReleaseIsNewer(1, 2);
    LaterReleaseIsNewer(1, 3);
    LaterReleaseIsNewer(2, 3);
    ReturningTagIsAnnouncedAgain(
      CoreText([1, 0, 0]), NewChecks(true, CoreText([1, 0, 0]), ""), Release(CoreText([2, 0, 0]), page),
      Release(CoreText([3, 0, 0]), page));
  }
}
