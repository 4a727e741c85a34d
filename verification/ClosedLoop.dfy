/**
 The owner in a closed loop with the meter. The meter answers every OUT report with one IN report, in
 order and with any delay; frames left over from before the device was opened may come first. Nothing is
 assumed of what it answers. An answer is plausible when it is sample-shaped only if a sample segment was
 asked for: polls yield telemetry, refused requests and control verbs yield echoes.
 */
module ClosedLoop {
  import opened Wire
  import opened Router
  import opened RouterHistory
  import opened OwnerLoop

  /** The owner, the stale frames of this run, the answers so far and those not yet delivered. */
  datatype Link = Link(owner: Owner, stale: seq<Shape>, answers: seq<Shape>, pending: seq<Shape>)

  /** An owner event, with the meter's answer if it writes and the leftover frames if it opens. */
  datatype LinkEvent = LinkEvent(event: Event, answer: Shape, leftover: seq<Shape>)

  predicate Plausible(report: Frame, answer: Shape) {
    answer.SampleShape? ==> IsSampleRequest(report)
  }

  function LinkStep(c: Config, l: Link, e: LinkEvent): (next: Link)
    requires ValidRouter(l.owner.router)
    ensures ValidRouter(next.owner.router)
  {
    var owner := Step(c, l.owner, e.event);
    if e.event.Open? then
      if l.owner.phase.Down? then Link(owner, e.leftover, [], e.leftover) else l
    else if e.event.Receive? then
      if l.owner.phase.Idle? && l.pending != [] && l.pending[0] == e.event.shape then
        l.(owner := owner, pending := l.pending[1..])
      else l
    else if |owner.outs| <= |l.owner.outs| then l.(owner := owner)
    else l.(owner := owner, answers := l.answers + [e.answer], pending := l.pending + [e.answer])
  }

  function RunLink(c: Config, es: seq<LinkEvent>): (l: Link)
    ensures ValidRouter(l.owner.router)
  {
    if es == [] then Link(Init(), [], [], [])
    else LinkStep(c, RunLink(c, es[..|es| - 1]), es[|es| - 1])
  }

  /** IN frames are the leftovers and then the answers to the OUT reports, in order and without gaps. */
  ghost predicate InOrder(l: Link) {
    l.owner.ins + l.pending == l.stale + l.answers && |l.answers| == |l.owner.outs|
  }

  lemma StepKeepsOrExtendsOuts(c: Config, o: Owner, e: Event)
    requires ValidRouter(o.router) && !e.Open?
    ensures var p := Step(c, o, e);
      && (!e.Receive? ==> p.ins == o.ins)
      && (e.Receive? ==> p.outs == o.outs)
      && (p.outs == o.outs || (|p.outs| == |o.outs| + 1 && p.outs[..|o.outs|] == o.outs))
  {
  }

  lemma InOrderStep(c: Config, l: Link, e: LinkEvent)
    requires InOrder(l) && ValidRouter(l.owner.router)
    ensures InOrder(LinkStep(c, l, e))
  {
    if !e.event.Open? {
      StepKeepsOrExtendsOuts(c, l.owner, e.event);
      var next := LinkStep(c, l, e);
      if e.event.Receive? {
        if next != l {
          assert l.pending == [l.pending[0]] + l.pending[1..];
        }
      } else if next.owner.outs != l.owner.outs {
        assert next.owner.ins + next.pending == (l.owner.ins + l.pending) + [e.answer];
      }
    }
  }

  ghost predicate LinkInv(c: Config, l: Link) {
    ValidRouter(l.owner.router) && InOrder(l) && SamplesAreSuccessive(l.owner) && RoutesHistory(c, l.owner)
  }

  lemma LinkInvStep(c: Config, l: Link, e: LinkEvent)
    requires LinkInv(c, l)
    ensures LinkInv(c, LinkStep(c, l, e))
  {
    InOrderStep(c, l, e);
    SamplesStep(c, l.owner, e.event);
    RoutesStep(c, l.owner, e.event);
  }

  /** Every state of every closed-loop run is in order, and keeps what the owner alone keeps. */
  lemma {:induction false} LinkInvariant(c: Config, es: seq<LinkEvent>)
    ensures LinkInv(c, RunLink(c, es))
  {
    if es != [] {
      LinkInvariant(c, es[..|es| - 1]);
      LinkInvStep(c, RunLink(c, es[..|es| - 1]), es[|es| - 1]);
    }
  }

  /** After the leftovers, the IN frame with index i answers the OUT report with index i - |stale|. */
  lemma AnswerAt(l: Link, i: nat)
    requires InOrder(l) && |l.stale| <= i < |l.owner.ins|
    ensures i - |l.stale| < |l.answers| && l.owner.ins[i] == l.answers[i - |l.stale|]
  {
    assert (l.owner.ins + l.pending)[i] == l.owner.ins[i];
    assert (l.stale + l.answers)[i] == l.answers[i - |l.stale|];
  }

  /** The requests answered by the five answers from `j` on all ask for samples: none is a poll or a verb. */
  predicate AllAsked(l: Link, j: nat)
    requires j + 5 <= |l.owner.outs|
  {
    forall k :: j <= k < j + 5 ==> IsSampleRequest(l.owner.outs[k])
  }

  /** The answers from `lo` to `hi` - 1 are plausible. */
  ghost predicate PlausibleFrom(l: Link, lo: int, hi: nat)
    requires hi <= |l.answers| && hi <= |l.owner.outs|
  {
    forall k :: 0 <= k && lo <= k < hi ==> Plausible(l.owner.outs[k], l.answers[k])
  }

  /** Five requests that all ask for samples are the five requests of one cycle, and conversely. */
  lemma AskedIffOneCycle(l: Link, j: nat)
    requires Successive(l.owner.outs) && j + 5 <= |l.owner.outs|
    ensures l.owner.outs[j..j + 5] == OneCycle() <==> AllAsked(l, j)
  {
    var outs := l.owner.outs;
    if AllAsked(l, j) {
      FiveSamplesAreOneCycle(outs, j);
    } else if outs[j..j + 5] == OneCycle() {
      forall k | j <= k < j + 5 ensures IsSampleRequest(outs[k]) {
        assert outs[k] == OneCycle()[k - j];
      }
    }
  }

  /**
   Closed-loop assembly, whatever the meter answers. In every run, a buffer none of whose frames is a leftover
   is five consecutive answers, in order. They answer the requests '1', '2', '3', '4', '5' of one cycle if and
   only if none of them answers a poll or a verb, which plausible answers never do.
   */
  lemma ClosedLoopAssembly(c: Config, es: seq<LinkEvent>, i: nat)
    requires var l := RunLink(c, es);
      i < |l.owner.offers| && IsBuffer(l.owner.offers[i]) && i >= |l.stale| + 4
    ensures var l, j := RunLink(c, es), i - 4 - |RunLink(c, es).stale|;
      && j + 5 <= |l.answers| == |l.owner.outs|
      && IsConcatOf(BufferOf(l.owner.offers[i]), l.answers[j..j + 5])
      && (l.owner.outs[j..j + 5] == OneCycle() <==> AllAsked(l, j))
      && (PlausibleFrom(l, j, j + 5) ==> l.owner.outs[j..j + 5] == OneCycle())
  {
    LinkInvariant(c, es);
    BufferIsFiveAnswers(c, RunLink(c, es), i);
  }

  lemma BufferIsFiveAnswers(c: Config, l: Link, i: nat)
    requires LinkInv(c, l)
    requires i < |l.owner.offers| && IsBuffer(l.owner.offers[i]) && i >= |l.stale| + 4
    ensures var j := i - 4 - |l.stale|;
      && j + 5 <= |l.answers| == |l.owner.outs|
      && IsConcatOf(BufferOf(l.owner.offers[i]), l.answers[j..j + 5])
      && (l.owner.outs[j..j + 5] == OneCycle() <==> AllAsked(l, j))
      && (PlausibleFrom(l, j, j + 5) ==> AllAsked(l, j))
  {
    BufferIsWindow(c, l, i);
    WindowIsAnswers(l, i);
    SamplesInWindow(l, i);
    AskedOrNot(l, i - 4 - |l.stale|);
  }

  lemma BufferIsWindow(c: Config, l: Link, i: nat)
    requires RoutesHistory(c, l.owner) && i < |l.owner.offers| && IsBuffer(l.owner.offers[i])
    ensures 5 <= i < |l.owner.ins| && Completes(l.owner.ins, i)
    ensures IsConcatOf(BufferOf(l.owner.offers[i]), l.owner.ins[i - 4..i + 1])
  {
    BuffersAreFiveFreshFrames(c, l.owner.ins, i);
  }

  lemma AskedOrNot(l: Link, j: nat)
    requires Successive(l.owner.outs) && j + 5 <= |l.answers| == |l.owner.outs| && FiveSamples(l, j)
    ensures l.owner.outs[j..j + 5] == OneCycle() <==> AllAsked(l, j)
    ensures PlausibleFrom(l, j, j + 5) ==> AllAsked(l, j)
  {
    AskedIffOneCycle(l, j);
    PlausibleAreAsked(l, j);
  }

  /** Plausible samples were asked for. */
  lemma PlausibleAreAsked(l: Link, j: nat)
    requires j + 5 <= |l.answers| == |l.owner.outs| && FiveSamples(l, j)
    ensures PlausibleFrom(l, j, j + 5) ==> AllAsked(l, j)
  {
    if PlausibleFrom(l, j, j + 5) {
      forall k | j <= k < j + 5 ensures IsSampleRequest(l.owner.outs[k]) {
        assert Plausible(l.owner.outs[k], l.answers[k]);
      }
    }
  }

  lemma SamplesInWindow(l: Link, i: nat)
    requires InOrder(l) && |l.stale| + 4 <= i < |l.owner.ins| && Completes(l.owner.ins, i)
    ensures var j := i - 4 - |l.stale|;
      j + 5 <= |l.answers| && FiveSamples(l, j)
  {
    var j := i - 4 - |l.stale|;
    AnswerAt(l, i);
    forall k | j <= k < j + 5 ensures l.answers[k].SampleShape? {
      AnswerAt(l, k + |l.stale|);
    }
  }

  /** The five frames ending at `i` are the five answers they carry. */
  lemma WindowIsAnswers(l: Link, i: nat)
    requires InOrder(l) && |l.stale| + 4 <= i < |l.owner.ins|
    ensures var j := i - 4 - |l.stale|;
      j + 5 <= |l.answers| && l.owner.ins[i - 4..i + 1] == l.answers[j..j + 5]
  {
    var ins, j := l.owner.ins, i - 4 - |l.stale|;
    AnswerAt(l, i);
    assert ins[i - 4..i + 1] == (ins + l.pending)[i - 4..i + 1];
    assert l.answers[j..j + 5] == (l.stale + l.answers)[i - 4..i + 1];
  }

  /** The frame just before answer `j` is an echo or telemetry: the previous answer, or the last leftover. */
  predicate ResetBefore(l: Link, j: nat)
    requires j <= |l.answers|
  {
    if j > 0 then !l.answers[j - 1].SampleShape?
    else l.stale != [] && !l.stale[|l.stale| - 1].SampleShape?
  }

  predicate FiveSamples(l: Link, j: nat)
    requires j + 5 <= |l.answers|
  {
    forall k :: j <= k < j + 5 ==> l.answers[k].SampleShape?
  }

  /** The window of answers from `j` on completes exactly if it is samples after a reset. */
  lemma WindowCompletes(l: Link, i: nat)
    requires InOrder(l) && |l.stale| + 4 <= i < |l.owner.ins|
    ensures var j := i - 4 - |l.stale|;
      j + 5 <= |l.answers| && (Completes(l.owner.ins, i) <==> FiveSamples(l, j) && ResetBefore(l, j))
  {
    var ins, j := l.owner.ins, i - 4 - |l.stale|;
    AnswerAt(l, i);
    AnswerAt(l, i - 1);
    AnswerAt(l, i - 2);
    AnswerAt(l, i - 3);
    AnswerAt(l, i - 4);
    if j > 0 {
      AnswerAt(l, i - 5);
    } else if l.stale != [] {
      assert (ins + l.pending)[i - 5] == ins[i - 5] && (l.stale + l.answers)[i - 5] == l.stale[i - 5];
    }
  }

  /**
   Exactly when answers yield a buffer: five samples in a row after an echo or telemetry frame, while the latest
   telemetry shows a wired sample page on a manual channel. With plausible answers that is exactly when the five
   requests of one cycle went out back to back and each was answered with a sample; only the very first answers
   also need a last leftover that is no sample.
   */
  lemma CycleYieldsBuffer(c: Config, l: Link, i: nat)
    requires LinkInv(c, l) && |l.stale| + 4 <= i < |l.owner.offers|
    ensures i < |l.owner.ins|
    ensures var j, page := i - 4 - |l.stale|, LastReading(l.owner.ins[..i + 1]);
      && j + 5 <= |l.answers| == |l.owner.outs|
      && (IsBuffer(l.owner.offers[i]) <==> FiveSamples(l, j) && ResetBefore(l, j) && Emits(c, page))
      && (PlausibleFrom(l, j - 1, j + 5) ==>
            (IsBuffer(l.owner.offers[i]) <==>
              && l.owner.outs[j..j + 5] == OneCycle() && FiveSamples(l, j) && Emits(c, page)
              && (j == 0 ==> ResetBefore(l, 0))))
  {
    BuffersAreFiveFreshFrames(c, l.owner.ins, i);
    WindowCompletes(l, i);
    PlausibleWindow(l, i - 4 - |l.stale|);
  }

  /** Plausible samples answer one cycle, and the answer before a cycle is no sample. */
  lemma PlausibleWindow(l: Link, j: nat)
    requires Successive(l.owner.outs) && j + 5 <= |l.answers| == |l.owner.outs|
    ensures PlausibleFrom(l, j - 1, j + 5) && FiveSamples(l, j) ==>
      (l.owner.outs[j..j + 5] == OneCycle() && (j > 0 ==> ResetBefore(l, j)))
  {
    if PlausibleFrom(l, j - 1, j + 5) && FiveSamples(l, j) {
      forall k | j <= k < j + 5 ensures IsSampleRequest(l.owner.outs[k]) {
        assert Plausible(l.owner.outs[k], l.answers[k]);
      }
      AskedIffOneCycle(l, j);
      assert l.owner.outs[j] == l.owner.outs[j..j + 5][0] == OneCycle()[0];
      if j > 0 {
        assert Follows(l.owner.outs[j - 1], l.owner.outs[j]);
        assert Plausible(l.owner.outs[j - 1], l.answers[j - 1]);
      }
    }
  }

  /** The loop corrects itself: at most one buffer of a run mixes leftovers with answers. */
  lemma AtMostOneMixedBuffer(c: Config, l: Link, i: nat, m: nat)
    requires LinkInv(c, l) && i < m < |l.owner.offers|
    requires IsBuffer(l.owner.offers[i]) && IsBuffer(l.owner.offers[m])
    requires i - 4 < |l.stale| <= i
    ensures m - 4 > |l.stale|
  {
    OneBufferPerReset(c, l.owner.ins, i, m);
  }

  // -------------------------------------------------------------- leftovers

  function Min(a: int, b: int): int {
    if a < b then a else b
  }

  function Max(a: int, b: int): int {
    if a > b then a else b
  }

  /** The leftovers among the five frames ending at `i`. */
  function LeftoversIn(l: Link, i: nat): seq<Shape>
    requires i >= 4
  {
    l.stale[Min(i - 4, |l.stale|)..Min(i + 1, |l.stale|)]
  }

  /** The answers among them. */
  function AnswersIn(l: Link, i: nat): seq<Shape>
    requires i >= 4 && i + 1 <= |l.stale| + |l.answers|
  {
    l.answers[Max(i - 4 - |l.stale|, 0)..Max(i + 1 - |l.stale|, 0)]
  }

  lemma SliceOfConcat<T>(a: seq<T>, b: seq<T>, lo: nat, hi: nat)
    requires lo <= hi <= |a| + |b|
    ensures (a + b)[lo..hi] == a[Min(lo, |a|)..Min(hi, |a|)] + b[Max(lo - |a|, 0)..Max(hi - |a|, 0)]
  {
  }

  /**
   What any sent buffer is made of: leftovers and then answers, five frames in all, and no leftover exactly
   from frame |stale| + 4 on.
   */
  lemma BufferSplits(c: Config, l: Link, i: nat)
    requires LinkInv(c, l) && i < |l.owner.offers| && IsBuffer(l.owner.offers[i])
    ensures 4 <= i < |l.stale| + |l.answers|
    ensures |LeftoversIn(l, i)| + |AnswersIn(l, i)| == 5
    ensures IsConcatOf(BufferOf(l.owner.offers[i]), LeftoversIn(l, i) + AnswersIn(l, i))
    ensures LeftoversIn(l, i) == [] <==> |l.stale| + 4 <= i
  {
    BuffersAreFiveFreshFrames(c, l.owner.ins, i);
    WindowSplits(l, i);
  }

  lemma WindowSplits(l: Link, i: nat)
    requires InOrder(l) && 4 <= i < |l.owner.ins|
    ensures i < |l.stale| + |l.answers|
    ensures l.owner.ins[i - 4..i + 1] == LeftoversIn(l, i) + AnswersIn(l, i)
  {
    var ins := l.owner.ins;
    assert |ins| + |l.pending| == |l.stale| + |l.answers|;
    assert ins[i - 4..i + 1] == (ins + l.pending)[i - 4..i + 1];
    SliceOfConcat(l.stale, l.answers, i - 4, i + 1);
  }
}
