/**
 Two runs of the closed loop that send something other than one cycle's answers: a leftover sample completes
 the first buffer, and a poll answered with a sample-shaped frame starts one.
 */
module ClosedLoopRuns {
  import opened Wire
  import opened Wrappers
  import opened Snapshots
  import opened Decoding
  import opened Router
  import opened RouterHistory
  import opened OwnerLoop
  import opened ClosedLoop

  /** `run` gives the state after each sequence of events. */
  ghost predicate IsRun(c: Config, run: seq<LinkEvent> -> Link) {
    && run([]) == Link(Init(), [], [], [])
    && (forall es :: ValidRouter(run(es).owner.router))
    && forall es, e {:trigger run(es + [e])} :: run(es + [e]) == LinkStep(c, run(es), e)
  }

  function TheRun(c: Config): seq<LinkEvent> -> Link {
    es => RunLink(c, es)
  }

  lemma TheRunIsARun(c: Config)
    ensures IsRun(c, TheRun(c))
  {
    var run := TheRun(c);
    forall es, e ensures run(es + [e]) == LinkStep(c, run(es), e) {
      assert (es + [e])[..|es|] == es;
    }
  }

  /**
   Between ticks on the waveform page: nothing queued or under way. Since the opening `ins` were received and
   `outs` written; `rest` is still to be delivered.
   */
  ghost predicate Waiting(l: Link, stale: seq<Shape>, ins: seq<Shape>, rest: seq<Shape>, outs: seq<Frame>, n: nat) {
    && ValidRouter(l.owner.router) && l.owner.router.lastTopMode == "waveform"
    && l.owner.phase.Idle? && l.owner.queue == [] && l.owner.tickN == n
    && l.stale == stale && l.owner.ins == ins && l.pending == rest && l.owner.outs == outs
  }

  function Plain(e: Event): LinkEvent {
    LinkEvent(e, EchoShape, [])
  }

  /** The next frame arrives; it does not change the page. */
  lemma Delivered(
    c: Config, l: Link, stale: seq<Shape>, ins: seq<Shape>, rest: seq<Shape>, outs: seq<Frame>, n: nat)
    requires Waiting(l, stale, ins, rest, outs, n) && rest != [] && !rest[0].TelemetryShape?
    ensures Waiting(LinkStep(c, l, Plain(Receive(rest[0]))), stale, ins + [rest[0]], rest[1..], outs, n)
  {
  }

  // ---------------------------------------------------------------- opening

  /** The device is opened with these frames in its buffer, and `m` of them have arrived. */
  function Opening(stale: seq<Shape>, m: nat): seq<LinkEvent>
    requires m <= |stale|
  {
    [LinkEvent(Open, EchoShape, stale)] + seq(m, k requires 0 <= k < m => Plain(Receive(stale[k])))
  }

  /** A telemetry frame of the waveform page, then samples. */
  predicate OpensOnPage(stale: seq<Shape>) {
    && stale != [] && stale[0].TelemetryShape? && stale[0].decoded.topMode == "waveform"
    && forall k :: 1 <= k < |stale| ==> stale[k].SampleShape?
  }

  lemma FirstArrives(c: Config, run: seq<LinkEvent> -> Link, stale: seq<Shape>)
    requires IsRun(c, run)
    requires OpensOnPage(stale)
    ensures Waiting(run(Opening(stale, 1)), stale, stale[..1], stale[1..], [], 0)
  {
    var open, first := LinkEvent(Open, EchoShape, stale), Plain(Receive(stale[0]));
    assert [] + [open] == [open] && [open] + [first] == Opening(stale, 1);
    assert [] + [stale[0]] == stale[..1];
  }

  lemma NextLeftover(stale: seq<Shape>, m: nat)
    requires m < |stale|
    ensures stale[..m + 1] == stale[..m] + [stale[m]]
    ensures stale[m..] != [] && stale[m..][0] == stale[m] && stale[m..][1..] == stale[m + 1..]
  {
  }

  /** After the first `m` leftovers have arrived. */
  ghost predicate OpenedTo(run: seq<LinkEvent> -> Link, stale: seq<Shape>, m: nat)
    requires m <= |stale|
  {
    Waiting(run(Opening(stale, m)), stale, stale[..m], stale[m..], [], 0)
  }

  lemma OneMoreArrives(c: Config, run: seq<LinkEvent> -> Link, stale: seq<Shape>, m: nat)
    requires IsRun(c, run) && OpensOnPage(stale) && 1 <= m < |stale| && OpenedTo(run, stale, m)
    ensures OpenedTo(run, stale, m + 1)
  {
    NextLeftover(stale, m);
    assert Opening(stale, m + 1) == Opening(stale, m) + [Plain(Receive(stale[m]))];
    Delivered(c, run(Opening(stale, m)), stale, stale[..m], stale[m..], [], 0);
  }

  lemma {:induction false} Opened(c: Config, run: seq<LinkEvent> -> Link, stale: seq<Shape>, m: nat)
    requires IsRun(c, run)
    requires OpensOnPage(stale) && 1 <= m <= |stale|
    ensures OpenedTo(run, stale, m)
  {
    if m == 1 {
      FirstArrives(c, run, stale);
    } else {
      Opened(c, run, stale, m - 1);
      OneMoreArrives(c, run, stale, m - 1);
    }
  }

  lemma OpenedFully(c: Config, run: seq<LinkEvent> -> Link, stale: seq<Shape>)
    requires IsRun(c, run)
    requires OpensOnPage(stale)
    ensures Waiting(run(Opening(stale, |stale|)), stale, stale, [], [], 0)
  {
    Opened(c, run, stale, |stale|);
    assert stale[..|stale|] == stale && stale[|stale|..] == [];
  }

  // ------------------------------------------------------------------ ticks

  function Ticked(answer: Shape): seq<LinkEvent> {
    [Plain(TickFires), LinkEvent(Event.Write(true), answer, []), Plain(Receive(answer))]
  }

  /** A tick that asks for a segment and is answered with a sample. */
  lemma TickAnswered(
    c: Config, l: Link, stale: seq<Shape>, ins: seq<Shape>, outs: seq<Frame>, n: nat, frame: Frame)
    requires Waiting(l, stale, ins, [], outs, n)
    ensures var es := Ticked(SampleShape(frame));
      Waiting(LinkStep(c, LinkStep(c, LinkStep(c, l, es[0]), es[1]), es[2]),
              stale, ins + [SampleShape(frame)], [], outs + [TickReport("waveform", n + 1)], n + 1)
  {
    var es := Ticked(SampleShape(frame));
    var asked := LinkStep(c, LinkStep(c, l, es[0]), es[1]);
    assert asked.owner.outs == outs + [TickReport("waveform", n + 1)];
    assert [] + [SampleShape(frame)] == [SampleShape(frame)];
    Delivered(c, asked, stale, ins, [SampleShape(frame)], asked.owner.outs, n + 1);
  }

  lemma RunTicked(
    c: Config, run: seq<LinkEvent> -> Link, es: seq<LinkEvent>, stale: seq<Shape>, ins: seq<Shape>, outs: seq<Frame>, n: nat, frame: Frame)
    requires IsRun(c, run)
    requires Waiting(run(es), stale, ins, [], outs, n)
    ensures Waiting(run(es + Ticked(SampleShape(frame))),
                    stale, ins + [SampleShape(frame)], [], outs + [TickReport("waveform", n + 1)], n + 1)
  {
    var t := Ticked(SampleShape(frame));
    assert es + t == es + [t[0]] + [t[1]] + [t[2]];
    TickAnswered(c, run(es), stale, ins, outs, n, frame);
  }

  function AllTicked(a: seq<Frame>): seq<LinkEvent> {
    if a == [] then [] else AllTicked(a[..|a| - 1]) + Ticked(SampleShape(a[|a| - 1]))
  }

  function Samples(a: seq<Frame>): (shapes: seq<Shape>)
    ensures |shapes| == |a| && forall i :: 0 <= i < |a| ==> shapes[i] == SampleShape(a[i])
  {
    seq(|a|, i requires 0 <= i < |a| => SampleShape(a[i]))
  }

  /** The reports of the ticks n + 1 to n + m. */
  function Asked(n: nat, m: nat): (outs: seq<Frame>)
    ensures |outs| == m
  {
    seq<Frame>(m, k requires 0 <= k < m => TickReport("waveform", n + k + 1))
  }

  lemma SamplesSnoc(a: seq<Frame>)
    requires a != []
    ensures Samples(a) == Samples(a[..|a| - 1]) + [SampleShape(a[|a| - 1])]
  {
  }

  lemma Regrouped3<T>(x: seq<T>, y: seq<T>, z: seq<T>)
    ensures x + (y + z) == x + y + z
  {
  }

  lemma MoreEvents(es: seq<LinkEvent>, a: seq<Frame>, m: nat)
    requires |a| == m + 1
    ensures es + AllTicked(a) == es + AllTicked(a[..m]) + Ticked(SampleShape(a[m]))
  {
    Regrouped3(es, AllTicked(a[..m]), Ticked(SampleShape(a[m])));
  }

  lemma MoreSamples(ins: seq<Shape>, a: seq<Frame>, m: nat)
    requires |a| == m + 1
    ensures ins + Samples(a) == ins + Samples(a[..m]) + [SampleShape(a[m])]
  {
    SamplesSnoc(a);
    Regrouped3(ins, Samples(a[..m]), [SampleShape(a[m])]);
  }

  lemma MoreReports(outs: seq<Frame>, n: nat, m: nat, total: nat, last: nat)
    requires total == m + 1 && last == n + m
    ensures outs + Asked(n, total) == outs + Asked(n, m) + [TickReport("waveform", last + 1)]
  {
    assert Asked(n, total) == Asked(n, m) + [TickReport("waveform", last + 1)];
    Regrouped3(outs, Asked(n, m), [TickReport("waveform", last + 1)]);
  }

  lemma NothingMore<T>(s: seq<T>)
    ensures s + [] == s
  {
  }

  /** After the ticks answered with the samples `a`. */
  ghost predicate TickedAll(
    run: seq<LinkEvent> -> Link, es: seq<LinkEvent>, stale: seq<Shape>, ins: seq<Shape>, outs: seq<Frame>,
    n: nat, a: seq<Frame>)
  {
    Waiting(run(es + AllTicked(a)), stale, ins + Samples(a), [], outs + Asked(n, |a|), n + |a|)
  }

  lemma NoneTicked(
    run: seq<LinkEvent> -> Link, es: seq<LinkEvent>, stale: seq<Shape>, ins: seq<Shape>, outs: seq<Frame>, n: nat)
    requires Waiting(run(es), stale, ins, [], outs, n)
    ensures TickedAll(run, es, stale, ins, outs, n, [])
  {
    NothingMore(es);
    NothingMore(ins);
    NothingMore(outs);
    assert Samples([]) == [];
  }

  lemma OneMoreTicked(
    c: Config, run: seq<LinkEvent> -> Link, es: seq<LinkEvent>, stale: seq<Shape>, ins: seq<Shape>,
    outs: seq<Frame>, n: nat, a: seq<Frame>, m: nat)
    requires IsRun(c, run) && |a| == m + 1 && TickedAll(run, es, stale, ins, outs, n, a[..m])
    ensures TickedAll(run, es, stale, ins, outs, n, a)
  {
    MoreEvents(es, a, m);
    MoreSamples(ins, a, m);
    MoreReports(outs, n, m, |a|, n + m);
    RunTicked(c, run, es + AllTicked(a[..m]), stale, ins + Samples(a[..m]), outs + Asked(n, m), n + m, a[m]);
  }

  /** Ticks that are all answered with samples. */
  lemma {:induction false} RunAllTicked(
    c: Config, run: seq<LinkEvent> -> Link, es: seq<LinkEvent>, stale: seq<Shape>, ins: seq<Shape>,
    outs: seq<Frame>, n: nat, a: seq<Frame>)
    requires IsRun(c, run) && Waiting(run(es), stale, ins, [], outs, n)
    ensures TickedAll(run, es, stale, ins, outs, n, a)
  {
    if a == [] {
      NoneTicked(run, es, stale, ins, outs, n);
    } else {
      RunAllTicked(c, run, es, stale, ins, outs, n, a[..|a| - 1]);
      OneMoreTicked(c, run, es, stale, ins, outs, n, a, |a| - 1);
    }
  }

  // ------------------------------------------------------------- the buffer

  /** Frames that are no telemetry do not change the page. */
  lemma {:induction false} SamePage(page: Snapshot, more: seq<Shape>)
    requires forall i :: 0 <= i < |more| ==> !more[i].TelemetryShape?
    ensures LastReading([TelemetryShape(page)] + more) == Some(page)
  {
    if more == [] {
      assert [TelemetryShape(page)] + more == [TelemetryShape(page)];
    } else {
      var n := |more| - 1;
      SamePage(page, more[..n]);
      assert ([TelemetryShape(page)] + more)[..n + 1] == [TelemetryShape(page)] + more[..n];
    }
  }

  /** Five samples after a reset on an emitting page end in a buffer. */
  lemma FiveMakeABuffer(c: Config, page: Snapshot, more: seq<Shape>, five: seq<Shape>)
    requires Emits(c, Some(page)) && forall i :: 0 <= i < |more| ==> !more[i].TelemetryShape?
    requires more == [] || !more[|more| - 1].SampleShape?
    requires |five| == 5 && forall i :: 0 <= i < 5 ==> five[i].SampleShape?
    ensures var offers := RouteAll(c, [TelemetryShape(page)] + more + five).offers;
      IsBuffer(offers[|more| + 5]) && IsConcatOf(BufferOf(offers[|more| + 5]), five)
  {
    var head := [TelemetryShape(page)] + more;
    LastOfHead(TelemetryShape(page), more);
    EndsInFive(head, five);
    PageOfRun(page, more, five);
    CompletedIsBuffer(c, head + five, |more| + 5, page, five);
  }

  lemma LastOfHead(first: Shape, more: seq<Shape>)
    ensures var head := [first] + more;
      head != [] && head[|head| - 1] == if more == [] then first else more[|more| - 1]
  {
  }

  lemma PageOfRun(page: Snapshot, more: seq<Shape>, five: seq<Shape>)
    requires forall i :: 0 <= i < |more| ==> !more[i].TelemetryShape?
    requires forall i :: 0 <= i < |five| ==> five[i].SampleShape?
    ensures LastReading([TelemetryShape(page)] + more + five) == Some(page)
  {
    Regrouped3([TelemetryShape(page)], more, five);
    SamePage(page, more + five);
  }

  lemma CompletedIsBuffer(c: Config, ins: seq<Shape>, i: nat, page: Snapshot, five: seq<Shape>)
    requires 4 <= i < |ins| && Completes(ins, i) && ins[i - 4..i + 1] == five
    requires LastReading(ins[..i + 1]) == Some(page) && Emits(c, Some(page))
    ensures IsBuffer(RouteAll(c, ins).offers[i]) && IsConcatOf(BufferOf(RouteAll(c, ins).offers[i]), five)
  {
    BuffersAreFiveFreshFrames(c, ins, i);
  }

  lemma EndsInFive(head: seq<Shape>, five: seq<Shape>)
    requires head != [] && !head[|head| - 1].SampleShape?
    requires |five| == 5 && forall i :: 0 <= i < 5 ==> five[i].SampleShape?
    ensures var ins, i := head + five, |head| + 4;
      Completes(ins, i) && ins[..i + 1] == ins && ins[i - 4..i + 1] == five
  {
    var ins, i := head + five, |head| + 4;
    assert ins[i - 5] == head[|head| - 1];
    assert ins[i - 4] == five[0] && ins[i - 3] == five[1] && ins[i - 2] == five[2];
    assert ins[i - 1] == five[3] && ins[i] == five[4];
  }

  // ------------------------------------------------------ a leftover sample

  /** The run: one leftover sample, and four ticks answered with the samples `a`. */
  function MixedRun(page: Snapshot, frame: Frame, a: seq<Frame>): seq<LinkEvent> {
    Opening([TelemetryShape(page), SampleShape(frame)], 2) + AllTicked(a)
  }

  /**
   A mixed buffer does occur: whatever the frames, one leftover sample and the answers to the requests '1' to
   '4' go out as one buffer.
   */
  lemma MixedBufferOccurs(c: Config, page: Snapshot, frame: Frame, a: seq<Frame>)
    requires Emits(c, Some(page)) && page.topMode == "waveform" && |a| == 4
    ensures var l := RunLink(c, MixedRun(page, frame, a));
      && |l.stale| == 2 && 5 < |l.owner.offers| && IsBuffer(l.owner.offers[5])
      && IsConcatOf(BufferOf(l.owner.offers[5]), [SampleShape(frame)] + Samples(a))
  {
    TheRunIsARun(c);
    var l, five := RunLink(c, MixedRun(page, frame, a)), [SampleShape(frame)] + Samples(a);
    MixedRunEnds(c, TheRun(c), page, frame, a);
    LinkInvariant(c, MixedRun(page, frame, a));
    assert l.owner.ins == [TelemetryShape(page)] + [] + five;
    FiveMakeABuffer(c, page, [], five);
  }

  lemma MixedRunEnds(c: Config, run: seq<LinkEvent> -> Link, page: Snapshot, frame: Frame, a: seq<Frame>)
    requires IsRun(c, run)
    requires page.topMode == "waveform"
    ensures var l := run(MixedRun(page, frame, a));
      l.stale == [TelemetryShape(page), SampleShape(frame)] && l.owner.ins == l.stale + Samples(a)
  {
    var stale := [TelemetryShape(page), SampleShape(frame)];
    OpenedFully(c, run, stale);
    RunAllTicked(c, run, Opening(stale, 2), stale, stale, [], 0, a);
  }

  // -------------------------------------------------- a poll answered by a sample

  /** Telemetry of the waveform page with an SWR of 10.24. */
  function HighSwrByte(i: nat): Byte {
    if i == 2 then 4 else if i == 3 || i == 4 then 1 else 0
  }

  function HighSwrFrame(): Frame {
    seq(REPORT_SIZE, i requires 0 <= i => HighSwrByte(i))
  }

  /** It decodes, yet the shape test takes it for a sample. */
  lemma HighSwrIsASample()
    ensures DecodeOf(HighSwrFrame()).Decoded? && DecodeOf(HighSwrFrame()).snap.swr == 10.24
    ensures ShapeOf(HighSwrFrame()) == SampleShape(HighSwrFrame())
  {
    var f := HighSwrFrame();
    assert f[2] == 4 && f[3] == 1 && f[4] == 1 && f[6] == 0 && f[37] == 0;
    assert !IsEcho(f) && !IsLikelyTelemetry(f);
  }

  /** A verb is written in the drain before a tick, and the tick's report. */
  function VerbThenTick(command: Command, frame: Frame): seq<LinkEvent> {
    [Plain(Event.Submit(command)), Plain(TickFires), Plain(Take(true)),
     LinkEvent(Event.Write(true), SampleShape(frame), [])]
  }

  /** Their answers: an echo to the verb, and a sample-shaped frame. */
  function Answers(frame: Frame): seq<LinkEvent> {
    [Plain(Receive(EchoShape)), Plain(Receive(SampleShape(frame)))]
  }

  function ReportOf(command: Command): Frame {
    var report := EncodeCommand(command.verb, command.value);
    if report.Some? then report.value else PollReport()
  }

  lemma VerbTaken(
    c: Config, l: Link, stale: seq<Shape>, ins: seq<Shape>, outs: seq<Frame>, n: nat, command: Command)
    requires Waiting(l, stale, ins, [], outs, n) && command.verb in KNOWN_VERBS
    ensures var t := LinkStep(c, LinkStep(c, LinkStep(c, l, Plain(Event.Submit(command))), Plain(TickFires)),
                              Plain(Take(true)));
      && ValidRouter(t.owner.router) && t.owner.router.lastTopMode == "waveform"
      && t.owner.phase.Draining? && t.owner.queue == [] && t.owner.tickN == n
      && t.stale == stale && t.owner.ins == ins && t.pending == [EchoShape]
      && t.owner.outs == outs + [ReportOf(command)]
  {
    KnownVerbsEncode(command.verb, command.value);
    var fired := LinkStep(c, LinkStep(c, l, Plain(Event.Submit(command))), Plain(TickFires));
    assert fired.owner.queue == [command] && fired.owner.phase.Draining?;
    TakeRecords(fired.owner, true);
    assert [command][1..] == [] && [] + [EchoShape] == [EchoShape];
  }

  lemma TickWritten(c: Config, t: Link, stale: seq<Shape>, ins: seq<Shape>, outs: seq<Frame>, n: nat, frame: Frame)
    requires ValidRouter(t.owner.router) && t.owner.router.lastTopMode == "waveform"
    requires t.owner.phase.Draining? && t.owner.queue == [] && t.owner.tickN == n
    requires t.stale == stale && t.owner.ins == ins && t.pending == [EchoShape] && t.owner.outs == outs
    ensures Waiting(LinkStep(c, t, LinkEvent(Event.Write(true), SampleShape(frame), [])), stale, ins,
                    [EchoShape, SampleShape(frame)], outs + [TickReport("waveform", n + 1)], n + 1)
  {
    WriteRecords(t.owner, true);
  }

  /** Up to the tick's report, nothing answered has arrived yet. */
  lemma RunVerbThenTick(
    c: Config, run: seq<LinkEvent> -> Link, es: seq<LinkEvent>, stale: seq<Shape>, ins: seq<Shape>,
    outs: seq<Frame>, n: nat, command: Command, frame: Frame)
    requires IsRun(c, run)
    requires Waiting(run(es), stale, ins, [], outs, n) && command.verb in KNOWN_VERBS
    ensures Waiting(run(es + VerbThenTick(command, frame)), stale, ins, [EchoShape, SampleShape(frame)],
                    outs + [ReportOf(command)] + [TickReport("waveform", n + 1)], n + 1)
  {
    var t := VerbThenTick(command, frame);
    assert es + t == es + [t[0]] + [t[1]] + [t[2]] + [t[3]];
    VerbTaken(c, run(es), stale, ins, outs, n, command);
    TickWritten(c, run(es + [t[0]] + [t[1]] + [t[2]]), stale, ins, outs + [ReportOf(command)], n, frame);
  }

  /** The answers arrive. */
  lemma RunAnswers(
    c: Config, run: seq<LinkEvent> -> Link, es: seq<LinkEvent>, stale: seq<Shape>, ins: seq<Shape>,
    outs: seq<Frame>, n: nat, frame: Frame)
    requires IsRun(c, run)
    requires Waiting(run(es), stale, ins, [EchoShape, SampleShape(frame)], outs, n)
    ensures Waiting(run(es + Answers(frame)), stale, ins + [EchoShape, SampleShape(frame)], [], outs, n)
  {
    var rest, t := [EchoShape, SampleShape(frame)], Answers(frame);
    assert es + t == es + [t[0]] + [t[1]];
    Delivered(c, run(es), stale, ins, rest, outs, n);
    assert rest[1..] == [SampleShape(frame)];
    Delivered(c, run(es + [t[0]]), stale, ins + [EchoShape], rest[1..], outs, n);
    assert ins + [EchoShape] + [SampleShape(frame)] == ins + [EchoShape, SampleShape(frame)];
  }

  /** The run: a good cycle, a verb and a poll answered with a sample, and four requests of the next cycle. */
  function PollRun(page: Snapshot, a: seq<Frame>, command: Command, frame: Frame, b: seq<Frame>): seq<LinkEvent> {
    Opening([TelemetryShape(page)], 1) + AllTicked(a) + VerbThenTick(command, frame) + Answers(frame) + AllTicked(b)
  }

  lemma PollRunEnds(c: Config, run: seq<LinkEvent> -> Link, page: Snapshot, a: seq<Frame>, command: Command, frame: Frame, b: seq<Frame>)
    requires IsRun(c, run)
    requires page.topMode == "waveform" && |a| == 5 && |b| == 4 && command.verb in KNOWN_VERBS
    ensures var stale := [TelemetryShape(page)];
      Waiting(run(PollRun(page, a, command, frame, b)),
              stale, stale + Samples(a) + [EchoShape, SampleShape(frame)] + Samples(b), [],
              Asked(0, 5) + [ReportOf(command)] + [TickReport("waveform", 6)]
              + Asked(6, 4), 10)
  {
    var stale := [TelemetryShape(page)];
    OpenedFully(c, run, stale);
    var es := Opening(stale, 1);
    RunAllTicked(c, run, es, stale, stale, [], 0, a);
    assert [] + Asked(0, 5) == Asked(0, 5);
    var es1 := es + AllTicked(a);
    RunVerbThenTick(c, run, es1, stale, stale + Samples(a), Asked(0, 5), 5, command, frame);
    RunAnswers(c, run, es1 + VerbThenTick(command, frame), stale, stale + Samples(a),
               Asked(0, 5) + [ReportOf(command)] + [TickReport("waveform", 6)], 6, frame);
    RunAllTicked(c, run, es + AllTicked(a) + VerbThenTick(command, frame) + Answers(frame), stale,
                 stale + Samples(a) + [EchoShape, SampleShape(frame)],
                 Asked(0, 5) + [ReportOf(command)] + [TickReport("waveform", 6)], 6, b);
  }

  /**
   Without plausible answers a buffer need not be one cycle: after an echo, a poll answered with a sample-shaped
   frame, as telemetry with a high SWR is, goes out as the first segment, and the answers to '1' to '4' after it.
   */
  lemma PollAnswerEntersABuffer(
    c: Config, page: Snapshot, a: seq<Frame>, command: Command, frame: Frame, b: seq<Frame>)
    requires Emits(c, Some(page)) && page.topMode == "waveform"
    requires |a| == 5 && |b| == 4 && command.verb in KNOWN_VERBS
    ensures var l := RunLink(c, PollRun(page, a, command, frame, b));
      && |l.stale| == 1 && 11 < |l.owner.offers| && IsBuffer(l.owner.offers[11])
      && IsConcatOf(BufferOf(l.owner.offers[11]), [SampleShape(frame)] + Samples(b))
      && |l.owner.outs| == 11 && l.owner.outs[6] == PollReport()
  {
    TheRunIsARun(c);
    PollRunEnds(c, TheRun(c), page, a, command, frame, b);
    LinkInvariant(c, PollRun(page, a, command, frame, b));
    PollRunBuffer(c, page, a, frame, b);
    SeventhIsThePoll(ReportOf(command));
  }

  lemma PollRunBuffer(c: Config, page: Snapshot, a: seq<Frame>, frame: Frame, b: seq<Frame>)
    requires Emits(c, Some(page)) && |a| == 5 && |b| == 4
    ensures var offers :=
        RouteAll(c, [TelemetryShape(page)] + Samples(a) + [EchoShape, SampleShape(frame)] + Samples(b)).offers;
      IsBuffer(offers[11]) && IsConcatOf(BufferOf(offers[11]), [SampleShape(frame)] + Samples(b))
  {
    Regrouped(TelemetryShape(page), Samples(a), EchoShape, SampleShape(frame), Samples(b));
    FiveMakeABuffer(c, page, Samples(a) + [EchoShape], [SampleShape(frame)] + Samples(b));
  }

  lemma SeventhIsThePoll(verb: Frame)
    ensures var outs := Asked(0, 5) + [verb] + [TickReport("waveform", 6)] + Asked(6, 4);
      |outs| == 11 && outs[6] == PollReport()
  {
  }

  lemma Regrouped<T>(t: T, a: seq<T>, e: T, x: T, b: seq<T>)
    ensures [t] + a + [e, x] + b == [t] + (a + [e]) + ([x] + b)
  {
  }
}
