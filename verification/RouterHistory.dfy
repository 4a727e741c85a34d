/**
 What the frame router sends, told from the history of IN frames alone: no counter, no buffer, no
 sticky variable. The main theorem says the router agrees with this reading on every frame of every trace.
 */
module RouterHistory {
  import opened Wire
  import opened Wrappers
  import opened Snapshots
  import opened Decoding
  import opened Router

  function Shapes(frames: seq<Frame>): (shapes: seq<Shape>)
    ensures |shapes| == |frames|
  {
    seq(|frames|, i requires 0 <= i < |frames| => ShapeOf(frames[i]))
  }

  /** How many frames arrived since the last echo or telemetry frame. */
  function Tail(ins: seq<Shape>): (n: nat)
    ensures n <= |ins|
  {
    if ins == [] || !ins[|ins| - 1].SampleShape? then 0 else 1 + Tail(ins[..|ins| - 1])
  }

  /** The reading of the latest telemetry frame. */
  function LastReading(ins: seq<Shape>): Option<Snapshot> {
    if ins == [] then None
    else if ins[|ins| - 1].TelemetryShape? then Some(ins[|ins| - 1].decoded)
    else LastReading(ins[..|ins| - 1])
  }

  /** The status text a frame carries: none unless it is telemetry. */
  function StatusOf(shape: Shape): seq<Byte> {
    if shape.TelemetryShape? then shape.decoded.statusMessage else []
  }

  /** The latest nonempty status text. */
  function LastStatus(ins: seq<Shape>): seq<Byte> {
    if ins == [] then []
    else if StatusOf(ins[|ins| - 1]) != [] then StatusOf(ins[|ins| - 1])
    else LastStatus(ins[..|ins| - 1])
  }

  /** The bytes a sample frame contributes to a buffer: all of them. */
  function Payload(shape: Shape): Frame {
    if shape.SampleShape? then shape.bytes else Report(0)
  }

  function Concat(ins: seq<Shape>): (bytes: seq<Byte>)
    ensures |bytes| == |ins| * REPORT_SIZE
  {
    if ins == [] then [] else Concat(ins[..|ins| - 1]) + Payload(ins[|ins| - 1])
  }

  /** The page of the latest telemetry frame is a wired sample page on a manual channel. */
  predicate Emits(c: Config, page: Option<Snapshot>) {
    && page.Some?
    && !page.value.autoChannel && 1 <= page.value.channel <= 4
    && ((page.value.topMode == "waveform" && c.scopeOn) || (page.value.topMode == "spectrum" && c.spectrumOn))
  }

  /** A complete buffer with the label of its page, or nothing. */
  function Labelled(c: Config, page: Option<Snapshot>, bytes: seq<Byte>): Offer {
    if !Emits(c, page) then NoOffer
    else if page.value.topMode == "waveform" then ScopeFrame(page.value.channel, false, bytes)
    else SpectrumFrame(page.value.channel, false, bytes)
  }

  /** What the last frame of a history makes the router send. */
  function Expected(c: Config, ins: seq<Shape>): Offer
    requires ins != []
  {
    match ins[|ins| - 1]
    case EchoShape => NoOffer
    case TelemetryShape(decoded) => Telemetry(decoded.(statusMessage := LastStatus(ins)))
    case SampleShape(_) =>
      if Tail(ins) != 5 then NoOffer else Labelled(c, LastReading(ins), Concat(ins[|ins| - 5..]))
  }

  // --------------------------------------------------------------- running

  datatype Routed = Routed(router: Router, offers: seq<Offer>)

  /** The router after a whole trace, and its offers frame by frame. */
  function RouteAll(c: Config, ins: seq<Shape>): (r: Routed)
    ensures ValidRouter(r.router) && |r.offers| == |ins|
  {
    if ins == [] then Routed(Start(), [])
    else
      var before := RouteAll(c, ins[..|ins| - 1]);
      var step := Route(c, before.router, ins[|ins| - 1]);
      Routed(step.0, before.offers + [step.1])
  }

  function ActiveBuf(r: Router): seq<Byte> {
    if r.lastTopMode == "waveform" then r.scopeBuf else r.spectrumBuf
  }

  // ------------------------------------------------------ what a history says

  /** The end of a history: its trailing samples and their bytes, the page and the status. */
  datatype Past = Past(tail: nat, page: Option<Snapshot>, status: seq<Byte>, bytes: seq<Byte>)

  function PastOf(ins: seq<Shape>): Past {
    Past(Tail(ins), LastReading(ins), LastStatus(ins), Concat(ins[|ins| - Tail(ins)..]))
  }

  function After(p: Past, shape: Shape): Past {
    match shape
    case EchoShape => p.(tail := 0, bytes := [])
    case TelemetryShape(decoded) =>
      Past(0, Some(decoded), if decoded.statusMessage != [] then decoded.statusMessage else p.status, [])
    case SampleShape(frame) => p.(tail := p.tail + 1, bytes := p.bytes + frame)
  }

  /** What a last frame makes the router send, given the history it ends. */
  function Called(c: Config, p: Past, shape: Shape): Offer {
    match shape
    case EchoShape => NoOffer
    case TelemetryShape(decoded) => Telemetry(decoded.(statusMessage := p.status))
    case SampleShape(_) => if p.tail != 5 then NoOffer else Labelled(c, p.page, p.bytes)
  }

  lemma ConcatSnoc(ins: seq<Shape>, shape: Shape)
    ensures Concat(ins + [shape]) == Concat(ins) + Payload(shape)
  {
    assert (ins + [shape])[..|ins|] == ins;
  }

  lemma WindowGrows<T>(s: seq<T>, x: T, n: nat)
    requires n <= |s|
    ensures (s + [x])[|s| - n..] == s[|s| - n..] + [x]
  {
  }

  lemma ScalarsSnoc(ins: seq<Shape>, shape: Shape)
    ensures var all := ins + [shape];
      && Tail(all) == (if shape.SampleShape? then Tail(ins) + 1 else 0)
      && LastReading(all) == (if shape.TelemetryShape? then Some(shape.decoded) else LastReading(ins))
      && LastStatus(all) == (if StatusOf(shape) != [] then StatusOf(shape) else LastStatus(ins))
  {
    assert (ins + [shape])[..|ins|] == ins;
  }

  lemma PastSnoc(ins: seq<Shape>, shape: Shape)
    ensures PastOf(ins + [shape]) == After(PastOf(ins), shape)
  {
    ScalarsSnoc(ins, shape);
    if shape.SampleShape? {
      WindowGrows(ins, shape, Tail(ins));
      ConcatSnoc(ins[|ins| - Tail(ins)..], shape);
    } else {
      assert (ins + [shape])[|ins| + 1..] == [];
    }
  }

  lemma ExpectedIsCalled(c: Config, ins: seq<Shape>, shape: Shape)
    ensures Expected(c, ins + [shape]) == Called(c, PastOf(ins + [shape]), shape)
  {
  }

  // ---------------------------------------------------------------- tracking

  /** Page, label and counter, from the latest reading and the length of the tail. */
  predicate TracksPage(r: Router, page: Option<Snapshot>, tail: nat) {
    match page
    case None => r.lastTopMode == "" && r.sampleSegIdx == 0
    case Some(snap) =>
      && r.lastTopMode == snap.topMode && r.lastChannel == snap.channel && r.lastAutoCh == snap.autoChannel
      && r.sampleSegIdx == (if !SamplePage(snap.topMode) then 0 else if tail < 5 then tail else 5)
  }

  /** The router's variables are functions of the history. */
  ghost predicate Tracks(r: Router, p: Past) {
    && ValidRouter(r)
    && r.lastStatus == p.status
    && TracksPage(r, p.page, p.tail)
    && (SamplePage(r.lastTopMode) && p.tail <= 5 ==>
          |p.bytes| == p.tail * 64 && ActiveBuf(r)[..p.tail * 64] == p.bytes)
  }

  lemma TrackReset(c: Config, r: Router, p: Past, shape: Shape)
    requires Tracks(r, p) && !shape.SampleShape?
    ensures var routed := Route(c, r, shape);
      Tracks(routed.0, After(p, shape)) && routed.1 == Called(c, After(p, shape), shape)
  {
  }

  /** A spliced buffer holds one more segment after the ones it held. */
  lemma SpliceExtends(buf: seq<Byte>, seg: nat, frame: Frame)
    requires |buf| == SAMPLE_BUFFER_SIZE && seg < 5
    ensures Splice(buf, seg, frame)[..(seg + 1) * 64] == buf[..seg * 64] + frame
  {
  }

  lemma EmitIsLabelled(c: Config, snap: Snapshot, buf: seq<Byte>)
    requires SamplePage(snap.topMode)
    ensures Labelled(c, Some(snap), buf) ==
            if snap.topMode == "waveform" then EmitScope(c, buf, snap.channel, snap.autoChannel)
            else EmitSpectrum(c, buf, snap.channel, snap.autoChannel)
  {
  }

  /** A sample that finds room is the next segment, and the fifth completes the buffer called for. */
  lemma TrackSegment(c: Config, r: Router, p: Past, frame: Frame)
    requires Tracks(r, p) && SamplePage(r.lastTopMode) && r.sampleSegIdx < 5
    ensures var (routed, after) := (RouteSample(c, r, frame), After(p, SampleShape(frame)));
      Tracks(routed.0, after) && routed.1 == Called(c, after, SampleShape(frame))
  {
    SpliceExtends(ActiveBuf(r), r.sampleSegIdx, frame);
    var buf := Splice(ActiveBuf(r), r.sampleSegIdx, frame);
    assert buf[..320] == buf;
    EmitIsLabelled(c, p.page.value, buf);
  }

  /** Other samples are dropped, and the history calls for nothing. */
  lemma TrackDropped(c: Config, r: Router, p: Past, frame: Frame)
    requires Tracks(r, p) && (!SamplePage(r.lastTopMode) || r.sampleSegIdx >= 5)
    ensures var (routed, after) := (RouteSample(c, r, frame), After(p, SampleShape(frame)));
      Tracks(routed.0, after) && routed.1 == Called(c, after, SampleShape(frame))
  {
  }

  lemma TrackFrame(c: Config, r: Router, p: Past, shape: Shape)
    requires Tracks(r, p)
    ensures Tracks(Route(c, r, shape).0, After(p, shape))
    ensures Route(c, r, shape).1 == Called(c, After(p, shape), shape)
  {
    if !shape.SampleShape? {
      TrackReset(c, r, p, shape);
    } else if SamplePage(r.lastTopMode) && r.sampleSegIdx < 5 {
      TrackSegment(c, r, p, shape.bytes);
    } else {
      TrackDropped(c, r, p, shape.bytes);
    }
  }

  /** One more frame of a history, on the router that tracks it. */
  lemma FollowFrame(c: Config, r: Router, ins: seq<Shape>, shape: Shape)
    requires Tracks(r, PastOf(ins))
    ensures Tracks(Route(c, r, shape).0, PastOf(ins + [shape]))
    ensures Route(c, r, shape).1 == Expected(c, ins + [shape])
  {
    PastSnoc(ins, shape);
    ExpectedIsCalled(c, ins, shape);
    TrackFrame(c, r, PastOf(ins), shape);
  }

  lemma {:induction false} RouterTracks(c: Config, ins: seq<Shape>)
    ensures Tracks(RouteAll(c, ins).router, PastOf(ins))
  {
    if ins != [] {
      var init, shape := ins[..|ins| - 1], ins[|ins| - 1];
      RouterTracks(c, init);
      FollowFrame(c, RouteAll(c, init).router, init, shape);
      assert init + [shape] == ins;
    }
  }

  lemma RouteAllSnoc(c: Config, ins: seq<Shape>, shape: Shape)
    ensures var (before, all) := (RouteAll(c, ins), RouteAll(c, ins + [shape]));
      all.offers == before.offers + [Route(c, before.router, shape).1]
  {
    assert (ins + [shape])[..|ins|] == ins;
  }

  lemma LastOffer(c: Config, ins: seq<Shape>, shape: Shape)
    ensures RouteAll(c, ins + [shape]).offers[|ins|] == Expected(c, ins + [shape])
  {
    RouterTracks(c, ins);
    RouteAllSnoc(c, ins, shape);
    FollowFrame(c, RouteAll(c, ins).router, ins, shape);
  }

  /** Open-loop assembly: on every trace the router sends exactly what the history calls for. */
  lemma RouterFollowsHistory(c: Config, ins: seq<Shape>)
    ensures Tracks(RouteAll(c, ins).router, PastOf(ins))
    ensures forall i :: 0 <= i < |ins| ==> RouteAll(c, ins).offers[i] == Expected(c, ins[..i + 1])
  {
    RouterTracks(c, ins);
    forall i | 0 <= i < |ins| ensures RouteAll(c, ins).offers[i] == Expected(c, ins[..i + 1]) {
      OfferAt(c, ins, i);
    }
  }

  lemma {:induction false} OfferAt(c: Config, ins: seq<Shape>, i: nat)
    requires i < |ins|
    ensures RouteAll(c, ins).offers[i] == Expected(c, ins[..i + 1])
  {
    if i < |ins| - 1 {
      OfferAt(c, ins[..|ins| - 1], i);
      assert RouteAll(c, ins).offers[i] == RouteAll(c, ins[..|ins| - 1]).offers[i];
      assert ins[..|ins| - 1][..i + 1] == ins[..i + 1];
    } else {
      assert ins == ins[..i] + [ins[i]] && ins[..i + 1] == ins;
      LastOffer(c, ins[..i], ins[i]);
    }
  }

  // ----------------------------------------------------------- consequences

  function Segment(buf: seq<Byte>, k: nat): seq<Byte>
    requires (k + 1) * REPORT_SIZE <= |buf|
  {
    buf[k * REPORT_SIZE..(k + 1) * REPORT_SIZE]
  }

  /** `buf` is these frames, end to end. */
  predicate IsConcatOf(buf: seq<Byte>, ins: seq<Shape>) {
    |buf| == |ins| * REPORT_SIZE && forall k :: 0 <= k < |ins| ==> Segment(buf, k) == Payload(ins[k])
  }

  predicate IsBuffer(offer: Offer) {
    offer.ScopeFrame? || offer.SpectrumFrame?
  }

  function BufferOf(offer: Offer): seq<Byte>
    requires IsBuffer(offer)
  {
    if offer.ScopeFrame? then offer.samples else offer.bins
  }

  /** The five frames ending at `i` are samples, directly after an echo or telemetry frame. */
  predicate Completes(ins: seq<Shape>, i: nat)
    requires i < |ins|
  {
    && i >= 5 && !ins[i - 5].SampleShape?
    && ins[i - 4].SampleShape? && ins[i - 3].SampleShape? && ins[i - 2].SampleShape?
    && ins[i - 1].SampleShape? && ins[i].SampleShape?
  }

  /** The buffer is these frames, labelled with the page and channel of the reading. */
  predicate Carries(offer: Offer, snap: Snapshot, ins: seq<Shape>)
    requires IsBuffer(offer)
  {
    && IsConcatOf(BufferOf(offer), ins)
    && offer.channel == snap.channel && offer.autoChannel == snap.autoChannel
    && (offer.ScopeFrame? <==> snap.topMode == "waveform")
  }

  /**
   A buffer goes out at frame `i` if and only if `i` completes five samples after a reset on an emitting
   page. It is those five frames and nothing else, with the labels of the latest telemetry frame.
   */
  lemma BuffersAreFiveFreshFrames(c: Config, ins: seq<Shape>, i: nat)
    requires i < |ins|
    ensures var offer, page := RouteAll(c, ins).offers[i], LastReading(ins[..i + 1]);
      && (IsBuffer(offer) <==> Completes(ins, i) && Emits(c, page))
      && (IsBuffer(offer) ==> Carries(offer, page.value, ins[i - 4..i + 1]))
  {
    BuffersOnShapes(c, ins, i);
    if Completes(ins, i) {
      ConcatSegments(ins[i - 4..i + 1]);
    }
  }

  lemma BuffersOnShapes(c: Config, ins: seq<Shape>, i: nat)
    requires i < |ins|
    ensures Completes(ins, i) ==>
      RouteAll(c, ins).offers[i] == Labelled(c, LastReading(ins[..i + 1]), Concat(ins[i - 4..i + 1]))
    ensures !Completes(ins, i) ==> !IsBuffer(RouteAll(c, ins).offers[i])
  {
    var h := ins[..i + 1];
    RouterFollowsHistory(c, ins);
    ExpectedBuffers(c, h);
    assert Completes(h, i) <==> Completes(ins, i);
    if i >= 4 {
      assert h[|h| - 5..] == ins[i - 4..i + 1];
    }
  }

  lemma ExpectedBuffers(c: Config, h: seq<Shape>)
    requires h != []
    ensures Completes(h, |h| - 1) ==> Expected(c, h) == Labelled(c, LastReading(h), Concat(h[|h| - 5..]))
    ensures !Completes(h, |h| - 1) ==> !IsBuffer(Expected(c, h))
  {
    TailIsFive(h);
    ReadingNeedsReset(h);
  }

  lemma TailIsFive(h: seq<Shape>)
    requires h != []
    ensures Tail(h) == 5 && 5 < |h| <==> Completes(h, |h| - 1)
  {
    var n := |h|;
    if n >= 6 {
      assert h[..n - 1][..n - 2] == h[..n - 2];
      assert h[..n - 2][..n - 3] == h[..n - 3];
      assert h[..n - 3][..n - 4] == h[..n - 4];
      assert h[..n - 4][..n - 5] == h[..n - 5];
      assert h[..n - 5][n - 6].SampleShape? || Tail(h[..n - 5]) == 0;
    }
  }

  /** A history with a telemetry frame has a reset before its trailing samples. */
  lemma {:induction false} ReadingNeedsReset(h: seq<Shape>)
    ensures LastReading(h).Some? ==> Tail(h) < |h|
  {
    if h != [] && !h[|h| - 1].TelemetryShape? {
      ReadingNeedsReset(h[..|h| - 1]);
    }
  }

  lemma SegmentOfAppend(buf: seq<Byte>, frame: Frame, n: nat, k: nat)
    requires |buf| == n * REPORT_SIZE && k <= n
    ensures Segment(buf + frame, k) == if k == n then frame else Segment(buf, k)
  {
    if k == n {
      assert (buf + frame)[|buf|..|buf| + REPORT_SIZE] == frame;
    } else {
      assert (k + 1) * REPORT_SIZE <= |buf|;
      assert (buf + frame)[k * REPORT_SIZE..(k + 1) * REPORT_SIZE] == buf[k * REPORT_SIZE..(k + 1) * REPORT_SIZE];
    }
  }

  lemma {:induction false} ConcatSegments(ins: seq<Shape>)
    ensures IsConcatOf(Concat(ins), ins)
  {
    if ins != [] {
      var n := |ins| - 1;
      var buf := Concat(ins[..n]);
      ConcatSegments(ins[..n]);
      forall k | 0 <= k < |ins| ensures Segment(Concat(ins), k) == Payload(ins[k]) {
        SegmentOfAppend(buf, Payload(ins[n]), n, k);
        if k < n {
          assert Segment(buf, k) == Payload(ins[..n][k]);
        }
      }
    }
  }

  /** Between two buffers there is always a reset, so no two share a frame or a cycle. */
  lemma OneBufferPerReset(c: Config, ins: seq<Shape>, i: nat, j: nat)
    requires i < j < |ins|
    requires IsBuffer(RouteAll(c, ins).offers[i]) && IsBuffer(RouteAll(c, ins).offers[j])
    ensures i < j - 5 && !ins[j - 5].SampleShape?
  {
    BuffersAreFiveFreshFrames(c, ins, i);
    BuffersAreFiveFreshFrames(c, ins, j);
    CompletionsAreApart(ins, i, j);
  }

  lemma CompletionsAreApart(ins: seq<Shape>, i: nat, j: nat)
    requires i < j < |ins| && Completes(ins, i) && Completes(ins, j)
    ensures i < j - 5
  {
  }

  /**
   A snapshot goes out exactly on telemetry frames; it is sound, and carries the frame's own status text or
   else the latest earlier one.
   */
  lemma TelemetryIsSoundAndSticky(c: Config, frames: seq<Frame>, i: nat)
    requires i < |frames|
    ensures var ins := Shapes(frames);
      var offer := RouteAll(c, ins).offers[i];
      && (offer.Telemetry? <==> !IsEcho(frames[i]) && IsLikelyTelemetry(frames[i]))
      && (offer.Telemetry? ==>
            && Sound(offer.snap)
            && DecodeOf(frames[i]) == Decoded(offer.snap.(statusMessage := StatusText(frames[i][40..])))
            && offer.snap.statusMessage == LastStatus(ins[..i + 1]))
  {
    var ins := Shapes(frames);
    RouterFollowsHistory(c, ins);
    assert ins[..i + 1][i] == ShapeOf(frames[i]);
    if ShapeOf(frames[i]).TelemetryShape? {
      LikelyTelemetryDecodes(frames[i]);
    }
  }

  predicate IsLatestText(ins: seq<Shape>, k: nat)
    requires k < |ins|
  {
    StatusOf(ins[k]) != [] && forall m :: k < m < |ins| ==> StatusOf(ins[m]) == []
  }

  /** The sticky status is the text of the last frame carrying any. */
  lemma {:induction false} LastStatusIsLatest(ins: seq<Shape>)
    ensures LastStatus(ins) == [] <==> forall m :: 0 <= m < |ins| ==> StatusOf(ins[m]) == []
    ensures LastStatus(ins) != [] ==>
      exists k :: 0 <= k < |ins| && IsLatestText(ins, k) && LastStatus(ins) == StatusOf(ins[k])
  {
    if ins == [] {
    } else if StatusOf(ins[|ins| - 1]) != [] {
      assert IsLatestText(ins, |ins| - 1);
    } else {
      var init := ins[..|ins| - 1];
      LastStatusIsLatest(init);
      if LastStatus(init) != [] {
        var k :| 0 <= k < |init| && IsLatestText(init, k) && LastStatus(init) == StatusOf(init[k]);
        assert IsLatestText(ins, k);
      }
    }
  }
}
