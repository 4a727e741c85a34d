/**
 The release checker: when a request goes out, what its result changes, and what the operator is told.
 `Checks` is the checker as a value with its history; class `Checker` updates its fields in place.
 Times are nanoseconds on the caller's clock; the zero time of "never" is None.
 */
module ReleaseChecker {
  import opened Wrappers
  import opened Versions

  const HOUR: nat := 3_600_000_000_000
  const RECHECK_INTERVAL: nat := HOUR
  const MINIMUM_INTERVAL: nat := 24 * HOUR
  const FAILURE_BACKOFF: nat := HOUR

  /** A published release: its tag and the page the operator is sent to, after the link was vetted. */
  datatype Release = Release(tagName: string, page: string)

  /** How a request ends: with a release, with any error, or cut short by the shutdown. */
  datatype Outcome = Found(release: Release) | Failed | ShutDown

  datatype Request = Request(start: int, outcome: Outcome, finish: int)

  datatype Checks = Checks(
    enabled: bool, automatic: bool, current: string,
    lastSuccess: Option<int>, lastFailure: Option<int>, latest: Option<Release>, loggedTag: string,
    requests: seq<Request>, notices: seq<string>)

  /** Some time ago, but less than `wait`: a time in the future does not hold. */
  predicate Holds(since: Option<int>, now: int, wait: nat) {
    since.Some? && 0 <= now - since.value < wait
  }

  predicate ShouldCheck(lastSuccess: Option<int>, lastFailure: Option<int>, now: int) {
    !Holds(lastSuccess, now, MINIMUM_INTERVAL) && !Holds(lastFailure, now, FAILURE_BACKOFF)
  }

  /** A new checker for a version, or for the test hook's version when that is set. */
  function NewChecks(enabled: bool, version: string, testVersion: string): Checks {
    var hook := TrimSpace(testVersion);
    var current := if hook != "" then hook else TrimSpace(version);
    Checks(enabled, hook != "" || (!IsDevVersion(current) && Parsed(current).core != []), current,
           None, None, None, "", [], [])
  }

  /** What a successful request changes, given whether its tag is newer than the running version. */
  function RecordedRelease(c: Checks, release: Release, newer: bool, now: int): Checks {
    var tag := release.tagName;
    var logIt := newer && tag != c.loggedTag;
    c.(lastSuccess := Some(now), lastFailure := None,
       latest := if newer then Some(release) else None,
       loggedTag := if logIt then tag else c.loggedTag,
       notices := if logIt then c.notices + [tag] else c.notices)
  }

  /** What a finished request changes. */
  function Recorded(c: Checks, outcome: Outcome, now: int): Checks {
    match outcome
    case ShutDown => c
    case Failed => c.(lastFailure := Some(now))
    case Found(release) => RecordedRelease(c, release, Newer(release.tagName, c.current), now)
  }

  /** One re-evaluation: at `start`, with the outcome and finishing time of the request if one goes out. */
  function Evaluate(c: Checks, e: Request): Checks {
    if c.enabled && c.automatic && ShouldCheck(c.lastSuccess, c.lastFailure, e.start) then
      Recorded(c, e.outcome, e.finish).(requests := c.requests + [e])
    else c
  }

  function RunChecks(c: Checks, es: seq<Request>): Checks {
    if es == [] then c else Evaluate(RunChecks(c, es[..|es| - 1]), es[|es| - 1])
  }

  /** On a monotone clock each evaluation follows the one before it. */
  ghost predicate Monotone(es: seq<Request>) {
    && (forall i :: 0 <= i < |es| ==> es[i].start <= es[i].finish)
    && (forall i, j :: 0 <= i < j < |es| ==> es[i].finish <= es[j].start)
  }

  /** What the web page is shown; `latest` and `page` are empty unless an update is available. */
  datatype UpdateStatus = UpdateStatus(
    enabled: bool, automatic: bool, current: string,
    updateAvailable: bool, latest: string, page: string, checkedAt: Option<int>)

  function StatusOf(c: Checks): UpdateStatus {
    UpdateStatus(c.enabled, c.enabled && c.automatic, c.current,
                 c.latest.Some?,
                 if c.latest.Some? then c.latest.value.tagName else "",
                 if c.latest.Some? then c.latest.value.page else "",
                 c.lastSuccess)
  }

  // --------------------------------------------------------------- the class

  class Checker {
    const enabled: bool
    const automatic: bool
    const current: string
    var lastSuccess: Option<int>
    var lastFailure: Option<int>
    var latest: Option<Release>
    var loggedTag: string
    ghost var requests: seq<Request>
    ghost var notices: seq<string>

    ghost function View(): Checks
      reads this
    {
      Checks(enabled, automatic, current, lastSuccess, lastFailure, latest, loggedTag, requests, notices)
    }

    constructor (enabled: bool, version: string, testVersion: string)
      ensures View() == NewChecks(enabled, version, testVersion)
    {
      var cur := TrimSpace(version);
      var test := TrimSpace(testVersion);
      var testHook := false;
      if test != "" {
        cur, testHook := test, true;
      }
      var parsed := ParseVersion(cur);
      this.enabled := enabled;
      this.current := cur;
      this.automatic := testHook || (!IsDevVersion(cur) && parsed.core != []);
      lastSuccess, lastFailure, latest, loggedTag := None, None, None, "";
      requests, notices := [], [];
    }

    /** Stores what a finished check means; `notice` says whether the operator is told. */
    method Record(outcome: Outcome, now: int) returns (notice: bool)
      requires !outcome.ShutDown?
      modifies this
      ensures View() == Recorded(old(View()), outcome, now)
      ensures notice <==> |notices| > |old(notices)|
    {
      if outcome.Failed? {
        lastFailure := Some(now);
        return false;
      }
      var release := outcome.release;
      var newer := IsNewer(release.tagName, current);
      notice := false;
      lastSuccess := Some(now);
      lastFailure := None;
      if newer {
        latest := Some(release);
        if release.tagName != loggedTag {
          loggedTag, notice := release.tagName, true;
          notices := notices + [release.tagName];
        }
      } else {
        latest := None;
      }
    }

    /** One pass of the run loop: a request when the rule allows it. */
    method CheckIfDue(e: Request) returns (requested: bool)
      requires enabled && automatic
      modifies this
      ensures View() == Evaluate(old(View()), e)
      ensures requested <==> ShouldCheck(old(lastSuccess), old(lastFailure), e.start)
    {
      var due := ShouldCheck(lastSuccess, lastFailure, e.start);
      if !due {
        return false;
      }
      requests := requests + [e];
      if !e.outcome.ShutDown? {
        var notice := Record(e.outcome, e.finish);
      }
      return true;
    }

    /** The run loop over the evaluations the timer brings. */
    method RunLoop(es: seq<Request>)
      modifies this
      ensures View() == RunChecks(old(View()), es)
    {
      ghost var before := View();
      if !enabled || !automatic {
        OffMakesNoRequest(before, es);
        return;
      }
      for i := 0 to |es|
        invariant View() == RunChecks(before, es[..i])
      {
        var requested := CheckIfDue(es[i]);
        assert es[..i + 1][..i] == es[..i];
      }
      assert es[..|es|] == es;
    }

    method Status() returns (s: UpdateStatus)
      ensures s == StatusOf(View())
    {
      s := UpdateStatus(enabled, enabled && automatic, current, false, "", "", None);
      if latest.Some? {
        s := s.(updateAvailable := true, latest := latest.value.tagName, page := latest.value.page);
      }
      if lastSuccess.Some? {
        s := s.(checkedAt := lastSuccess);
      }
    }
  }

  /** With the setting off, or for a build that is not compared, nothing ever happens. */
  lemma {:induction false} OffMakesNoRequest(c: Checks, es: seq<Request>)
    requires !c.enabled || !c.automatic
    ensures RunChecks(c, es) == c
  {
    if es != [] {
      OffMakesNoRequest(c, es[..|es| - 1]);
    }
  }

  /** Unless the test hook is set, a development build and one without a numeric core never check. */
  lemma DevelopmentBuildsNeverCheck(enabled: bool, version: string, testVersion: string, es: seq<Request>)
    requires TrimSpace(testVersion) == ""
    requires IsDevVersion(TrimSpace(version)) || Parsed(TrimSpace(version)).core == []
    ensures RunChecks(NewChecks(enabled, version, testVersion), es).requests == []
  {
    OffMakesNoRequest(NewChecks(enabled, version, testVersion), es);
  }

  // ------------------------------------------------------------------ rate

  /** The stored times cover every recorded result, and none lies past `clock`. */
  ghost predicate Covers(c: Checks, clock: int) {
    && (c.lastSuccess.Some? ==> c.lastSuccess.value <= clock)
    && (c.lastFailure.Some? ==> c.lastFailure.value <= clock)
    && forall j :: 0 <= j < |c.requests| ==> Covered(c, c.requests[j])
  }

  predicate Covered(c: Checks, r: Request) {
    && (r.outcome.Found? ==> c.lastSuccess.Some? && r.finish <= c.lastSuccess.value)
    && (r.outcome.Failed? ==>
          || (c.lastFailure.Some? && r.finish <= c.lastFailure.value)
          || (c.lastSuccess.Some? && r.finish <= c.lastSuccess.value))
  }

  /** A request leaves this long after an earlier one's recorded result. */
  predicate Spaced(earlier: Request, later: Request) {
    && (earlier.outcome.Found? ==> later.start >= earlier.finish + MINIMUM_INTERVAL)
    && (earlier.outcome.Failed? ==> later.start >= earlier.finish + FAILURE_BACKOFF)
  }

  ghost predicate AllSpaced(requests: seq<Request>) {
    forall i, j :: 0 <= i < j < |requests| ==> Spaced(requests[i], requests[j])
  }

  lemma EvaluateKeepsRate(c: Checks, e: Request, clock: int)
    requires Covers(c, clock) && AllSpaced(c.requests) && clock <= e.start <= e.finish
    ensures Covers(Evaluate(c, e), e.finish) && AllSpaced(Evaluate(c, e).requests)
  {
    var p := Evaluate(c, e);
    forall j | 0 <= j < |p.requests| ensures Covered(p, p.requests[j]) {
      assert j < |c.requests| ==> Covered(c, c.requests[j]);
    }
    if p.requests != c.requests {
      forall i | 0 <= i < |c.requests| ensures Spaced(c.requests[i], e) {
        assert Covered(c, c.requests[i]);
      }
    }
  }

  lemma {:induction false} RateInvariant(c: Checks, es: seq<Request>, clock: int)
    requires c.requests == [] && Covers(c, clock) && Monotone(es)
    requires es != [] ==> clock <= es[0].start
    ensures AllSpaced(RunChecks(c, es).requests)
    ensures Covers(RunChecks(c, es), if es == [] then clock else es[|es| - 1].finish)
  {
    if es != [] {
      var init := es[..|es| - 1];
      RateInvariant(c, init, clock);
      EvaluateKeepsRate(RunChecks(c, init), es[|es| - 1], if init == [] then clock else init[|init| - 1].finish);
    }
  }

  /**
   On a monotone clock, in every run, each request starts at least 24 h after every earlier recorded
   success and at least 1 h after every earlier recorded failure.
   */
  lemma RequestsAreSpaced(enabled: bool, version: string, testVersion: string, es: seq<Request>)
    requires Monotone(es)
    ensures AllSpaced(RunChecks(NewChecks(enabled, version, testVersion), es).requests)
  {
    RateInvariant(NewChecks(enabled, version, testVersion), es, if es == [] then 0 else es[0].start);
  }

  // ------------------------------------------------------------ liveliness

  /** The evaluations are exactly one interval apart, the first one interval after `from`. */
  predicate Ideal(es: seq<Request>, from: int, interval: nat) {
    forall k :: 0 <= k < |es| ==> es[k].start == from + interval * (k + 1)
  }

  /** The evaluations before the first one that is at least `wait` after the start. */
  function Rounds(wait: nat, interval: nat): nat
    requires wait > 0 && interval > 0
  {
    (wait - 1) / interval
  }

  lemma RoundsFit(wait: nat, interval: nat)
    requires wait > 0 && interval > 0
    ensures interval * Rounds(wait, interval) < wait <= interval * (Rounds(wait, interval) + 1)
  {
    var n := Rounds(wait, interval);
    assert wait - 1 == interval * n + (wait - 1) % interval;
    ProductsGrow(interval, n);
  }

  lemma ProductsGrow(interval: nat, n: nat)
    ensures interval * (n + 1) == interval * n + interval
  {
  }

  /** The last recorded result, at `from`, holds requests back for exactly `wait`; nothing else does. */
  predicate HoldsFor(c: Checks, from: int, wait: nat) {
    || (c.lastSuccess == Some(from) && c.lastFailure.None? && wait == MINIMUM_INTERVAL)
    || (c.lastFailure == Some(from) && wait == FAILURE_BACKOFF
        && (c.lastSuccess.Some? ==> from >= c.lastSuccess.value + MINIMUM_INTERVAL))
  }

  lemma DueAfterWait(c: Checks, from: int, wait: nat, now: int)
    requires HoldsFor(c, from, wait) && now >= from
    ensures ShouldCheck(c.lastSuccess, c.lastFailure, now) <==> now >= from + wait
  {
  }

  lemma {:induction false} HeldBack(c: Checks, es: seq<Request>, from: int, wait: nat, interval: nat)
    requires HoldsFor(c, from, wait) && Ideal(es, from, interval) && interval * |es| < wait
    ensures RunChecks(c, es) == c
  {
    if es != [] {
      var n := |es| - 1;
      ProductsGrow(interval, n);
      HeldBack(c, es[..n], from, wait, interval);
      assert es[n].start == from + interval * (n + 1);
      DueAfterWait(c, from, wait, es[n].start);
    }
  }

  lemma NextRequestAfter(c: Checks, es: seq<Request>, from: int, wait: nat, interval: nat)
    requires c.enabled && c.automatic && HoldsFor(c, from, wait)
    requires wait > 0 && interval > 0 && Ideal(es, from, interval) && |es| == Rounds(wait, interval) + 1
    ensures RunChecks(c, es[..|es| - 1]) == c
    ensures var last := es[|es| - 1];
      RunChecks(c, es).requests == c.requests + [last] && from + wait <= last.start < from + wait + interval
  {
    var n := Rounds(wait, interval);
    RoundsFit(wait, interval);
    ProductsGrow(interval, n);
    HeldBack(c, es[..n], from, wait, interval);
    assert es[n].start == from + interval * (n + 1);
    DueAfterWait(c, from, wait, es[n].start);
  }

  /** A failure is recorded only a day after the success it left standing. */
  ghost predicate FailsLate(c: Checks) {
    c.lastFailure.Some? && c.lastSuccess.Some? ==> c.lastFailure.value >= c.lastSuccess.value + MINIMUM_INTERVAL
  }

  lemma FailsLateStep(c: Checks, e: Request, clock: int)
    requires FailsLate(c) && Covers(c, clock) && clock <= e.start <= e.finish
    ensures FailsLate(Evaluate(c, e))
  {
  }

  lemma {:induction false} FailsLateInRun(enabled: bool, version: string, testVersion: string, es: seq<Request>)
    requires Monotone(es)
    ensures FailsLate(RunChecks(NewChecks(enabled, version, testVersion), es))
  {
    if es != [] {
      var c, init, e := NewChecks(enabled, version, testVersion), es[..|es| - 1], es[|es| - 1];
      FailsLateInRun(enabled, version, testVersion, init);
      RateInvariant(c, init, if init == [] then e.start else init[0].start);
      FailsLateStep(RunChecks(c, init), e, if init == [] then e.start else init[|init| - 1].finish);
    }
  }

  /** The result of the latest request, when it was recorded, and how long it holds the next one back. */
  predicate EndsWith(c: Checks, last: Request, wait: nat) {
    && c.requests != [] && c.requests[|c.requests| - 1] == last && !last.outcome.ShutDown?
    && wait == (if last.outcome.Found? then MINIMUM_INTERVAL else FAILURE_BACKOFF)
  }

  /** What the latest request left in the two times. */
  ghost predicate KeepsTimes(c: Checks) {
    c.requests != [] ==>
      var last := c.requests[|c.requests| - 1];
      && (last.outcome.Found? ==> c.lastSuccess == Some(last.finish) && c.lastFailure.None?)
      && (last.outcome.Failed? ==> c.lastFailure == Some(last.finish))
  }

  lemma {:induction false} TimesInRun(c: Checks, es: seq<Request>)
    requires KeepsTimes(c)
    ensures KeepsTimes(RunChecks(c, es))
  {
    if es != [] {
      TimesInRun(c, es[..|es| - 1]);
    }
  }

  /**
   In every run on a monotone clock: after the latest recorded result, with re-evaluations exactly one
   interval apart, the next request leaves at least the wait and less than the wait plus one interval later,
   where the wait is 24 h after a success and 1 h after a failure.
   */
  lemma NextRequestIsSoon(
    enabled: bool, version: string, testVersion: string, es: seq<Request>, more: seq<Request>,
    last: Request, wait: nat, interval: nat)
    requires Monotone(es) && interval > 0
    requires var c := RunChecks(NewChecks(enabled, version, testVersion), es);
      c.enabled && c.automatic && EndsWith(c, last, wait)
    requires wait > 0 && Ideal(more, last.finish, interval) && |more| == Rounds(wait, interval) + 1
    ensures var c := RunChecks(NewChecks(enabled, version, testVersion), es);
      && RunChecks(c, more).requests == c.requests + [more[|more| - 1]]
      && last.finish + wait <= more[|more| - 1].start < last.finish + wait + interval
  {
    var c := RunChecks(NewChecks(enabled, version, testVersion), es);
    FailsLateInRun(enabled, version, testVersion, es);
    TimesInRun(NewChecks(enabled, version, testVersion), es);
    NextRequestAfter(c, more, last.finish, wait, interval);
  }

  /**
   With the program's own interval: the next request leaves less than 25 h after a success and less than 2 h
   after a failure, at the 24th or the first re-evaluation.
   */
  lemma NextRequestByDefault(
    enabled: bool, version: string, testVersion: string, es: seq<Request>, more: seq<Request>, last: Request)
    requires Monotone(es)
    requires var c := RunChecks(NewChecks(enabled, version, testVersion), es);
      c.enabled && c.automatic && c.requests != [] && c.requests[|c.requests| - 1] == last && !last.outcome.ShutDown?
    requires Ideal(more, last.finish, RECHECK_INTERVAL) && |more| == if last.outcome.Found? then 24 else 1
    ensures var c := RunChecks(NewChecks(enabled, version, testVersion), es);
      && RunChecks(c, more).requests == c.requests + [more[|more| - 1]]
      && more[|more| - 1].start < last.finish + if last.outcome.Found? then 25 * HOUR else 2 * HOUR
  {
    var wait := if last.outcome.Found? then MINIMUM_INTERVAL else FAILURE_BACKOFF;
    NextRequestIsSoon(enabled, version, testVersion, es, more, last, wait, RECHECK_INTERVAL);
  }

  // --------------------------------------------------------------- history

  /** The latest successful request. */
  function LastFound(requests: seq<Request>): (r: Option<Request>)
    ensures r.Some? ==> r.value.outcome.Found?
  {
    if requests == [] then None
    else
      var r := requests[|requests| - 1];
      if r.outcome.Found? then Some(r) else LastFound(requests[..|requests| - 1])
  }

  /** The newer tags that the successful requests found, in order. */
  function NewerTags(requests: seq<Request>, newer: string -> bool): seq<string> {
    if requests == [] then []
    else
      var before, r := NewerTags(requests[..|requests| - 1], newer), requests[|requests| - 1];
      if r.outcome.Found? && newer(r.outcome.release.tagName) then before + [r.outcome.release.tagName] else before
  }

  /** Each run of equal neighbours reduced to one. */
  function WithoutRepeats(tags: seq<string>): seq<string> {
    if |tags| <= 1 then tags
    else
      var n := |tags| - 1;
      if tags[n] == tags[n - 1] then WithoutRepeats(tags[..n]) else WithoutRepeats(tags[..n]) + [tags[n]]
  }

  /** What the operator is told of a history: the newer tags found, without consecutive repeats. */
  function Announced(requests: seq<Request>, newer: string -> bool): seq<string> {
    WithoutRepeats(NewerTags(requests, newer))
  }

  /** What the checker shows and announces, told from its requests; `newer` judges the tags. */
  ghost predicate TellsHistory(c: Checks, newer: string -> bool) {
    && (match LastFound(c.requests)
        case None => c.latest.None? && c.lastSuccess.None?
        case Some(r) =>
          && c.latest == (if newer(r.outcome.release.tagName) then Some(r.outcome.release) else None)
          && c.lastSuccess == Some(r.finish))
    && c.notices == Announced(c.requests, newer)
    && c.loggedTag == (if c.notices == [] then "" else c.notices[|c.notices| - 1])
  }

  /** The last tag announced is the last one found. */
  lemma {:induction false} LastTagKept(tags: seq<string>)
    ensures tags == [] <==> WithoutRepeats(tags) == []
    ensures tags != [] ==> WithoutRepeats(tags)[|WithoutRepeats(tags)| - 1] == tags[|tags| - 1]
  {
    if |tags| > 1 {
      LastTagKept(tags[..|tags| - 1]);
    }
  }

  lemma TagSnoc(tags: seq<string>, tag: string)
    ensures WithoutRepeats(tags + [tag]) ==
            if tags != [] && tags[|tags| - 1] == tag then WithoutRepeats(tags) else WithoutRepeats(tags) + [tag]
  {
    var all, n := tags + [tag], |tags|;
    assert all[..n] == tags && all[n] == tag;
    if tags == [] {
      assert all == [tag];
    } else {
      assert all[n - 1] == tags[n - 1];
    }
  }

  lemma RequestSnoc(requests: seq<Request>, e: Request, newer: string -> bool)
    ensures LastFound(requests + [e]) == if e.outcome.Found? then Some(e) else LastFound(requests)
    ensures NewerTags(requests + [e], newer) ==
            if e.outcome.Found? && newer(e.outcome.release.tagName)
            then NewerTags(requests, newer) + [e.outcome.release.tagName]
            else NewerTags(requests, newer)
  {
    assert (requests + [e])[..|requests|] == requests;
  }

  /** A newer tag is announced unless it was the last one announced. */
  lemma AnnouncedSnoc(requests: seq<Request>, e: Request, newer: string -> bool)
    ensures var told := Announced(requests, newer);
      Announced(requests + [e], newer) ==
        if e.outcome.Found? && newer(e.outcome.release.tagName)
           && (told == [] || told[|told| - 1] != e.outcome.release.tagName)
        then told + [e.outcome.release.tagName] else told
  {
    RequestSnoc(requests, e, newer);
    LastTagKept(NewerTags(requests, newer));
    if e.outcome.Found? {
      TagSnoc(NewerTags(requests, newer), e.outcome.release.tagName);
    }
  }

  lemma FoundTellsHistory(c: Checks, e: Request, newer: string -> bool)
    requires TellsHistory(c, newer) && e.outcome.Found? && !newer("")
    ensures var release := e.outcome.release;
      TellsHistory(
        RecordedRelease(c, release, newer(release.tagName), e.finish).(requests := c.requests + [e]), newer)
  {
    RequestSnoc(c.requests, e, newer);
    AnnouncedSnoc(c.requests, e, newer);
  }

  /** The same for any outcome of a request that went out. */
  lemma RequestTellsHistory(c: Checks, e: Request, newer: string -> bool)
    requires TellsHistory(c, newer) && !newer("")
    requires e.outcome.Found? ==> newer(e.outcome.release.tagName) == Newer(e.outcome.release.tagName, c.current)
    ensures TellsHistory(Recorded(c, e.outcome, e.finish).(requests := c.requests + [e]), newer)
  {
    if e.outcome.Found? {
      FoundTellsHistory(c, e, newer);
    } else {
      RequestSnoc(c.requests, e, newer);
      AnnouncedSnoc(c.requests, e, newer);
    }
  }

  lemma {:induction false} RunTellsHistory(c: Checks, es: seq<Request>, newer: string -> bool)
    requires TellsHistory(c, newer) && !newer("") && forall tag :: newer(tag) == Newer(tag, c.current)
    ensures TellsHistory(RunChecks(c, es), newer) && RunChecks(c, es).current == c.current
  {
    if es != [] {
      RunTellsHistory(c, es[..|es| - 1], newer);
      RequestTellsHistory(RunChecks(c, es[..|es| - 1]), es[|es| - 1], newer);
    }
  }

  /** An empty tag has no numeric core. */
  lemma EmptyIsNeverNewer(current: string)
    ensures !Newer("", current)
  {
    assert Parsed("") == NO_VERSION by {
      assert TrimSpace("") == "";
      assert !IsNumber([""][0]);
    }
  }

  function NewerThan(current: string): string -> bool {
    tag => Newer(tag, current)
  }

  /**
   In every run: the page shows the time of the most recent successful check, and its release exactly when
   that is newer; the notices are exactly the newer tags found, without consecutive repeats.
   */
  lemma StatusTellsHistory(enabled: bool, version: string, testVersion: string, es: seq<Request>)
    ensures var c := RunChecks(NewChecks(enabled, version, testVersion), es);
      && c.notices == Announced(c.requests, NewerThan(c.current))
      && match LastFound(c.requests)
         case None => !StatusOf(c).updateAvailable && StatusOf(c).checkedAt.None?
         case Some(r) =>
           && StatusOf(c).checkedAt == Some(r.finish)
           && (StatusOf(c).updateAvailable <==> Newer(r.outcome.release.tagName, c.current))
           && (StatusOf(c).updateAvailable ==>
                 Release(StatusOf(c).latest, StatusOf(c).page) == r.outcome.release)
  {
    var start := NewChecks(enabled, version, testVersion);
    EmptyIsNeverNewer(start.current);
    RunTellsHistory(start, es, NewerThan(start.current));
  }
}
