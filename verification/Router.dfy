/**
 One run of the HID owner's loop: the frame router, the scope/spectrum assembler and the poll schedule.

 `Router` is the loop's local state as a value, `Route` and `TickReport` say what one IN frame and
 one tick do to it, and class `RunLoop` is the loop itself, updating its variables and buffers in place.
 */
module Router {
  import opened Wire
  import opened Snapshots
  import opened Decoding

  /** What the frame router tries to send downstream. */
  datatype Offer =
    | NoOffer
    | Telemetry(snap: Snapshot)
    | ScopeFrame(channel: int, autoChannel: bool, samples: seq<Byte>)
    | SpectrumFrame(channel: int, autoChannel: bool, bins: seq<Byte>)

  /** Which sample channels are wired up; a nil channel disables its assembly's output. */
  datatype Config = Config(scopeOn: bool, spectrumOn: bool)

  datatype Router = Router(
    sampleSegIdx: nat,
    lastTopMode: string, lastChannel: int, lastAutoCh: bool,
    lastStatus: seq<Byte>,
    scopeBuf: seq<Byte>, spectrumBuf: seq<Byte>)

  predicate SamplePage(topMode: string) {
    topMode == "waveform" || topMode == "spectrum"
  }

  ghost predicate ValidRouter(r: Router) {
    r.sampleSegIdx <= 5 && |r.scopeBuf| == |r.spectrumBuf| == SAMPLE_BUFFER_SIZE
  }

  function Zeros(n: nat): (z: seq<Byte>)
    ensures |z| == n && forall i :: 0 <= i < n ==> z[i] == 0
  {
    if n == 0 then [] else Zeros(n - 1) + [0]
  }

  /** The loop's variables when the device has just been opened. */
  function Start(): Router {
    Router(0, "", 0, false, [], Zeros(SAMPLE_BUFFER_SIZE), Zeros(SAMPLE_BUFFER_SIZE))
  }

  /** `buf` with segment `seg` overwritten. */
  function Splice(buf: seq<Byte>, seg: nat, frame: Frame): (out: seq<Byte>)
    requires |buf| == SAMPLE_BUFFER_SIZE && seg < 5
    ensures |out| == SAMPLE_BUFFER_SIZE
  {
    buf[..seg * 64] + frame + buf[(seg + 1) * 64..]
  }

  predicate Suppressed(channel: int, autoCh: bool) {
    autoCh || channel < 1 || channel > 4
  }

  function EmitScope(c: Config, buf: seq<Byte>, channel: int, autoCh: bool): Offer {
    if !c.scopeOn || Suppressed(channel, autoCh) then NoOffer else ScopeFrame(channel, autoCh, buf)
  }

  function EmitSpectrum(c: Config, buf: seq<Byte>, channel: int, autoCh: bool): Offer {
    if !c.spectrumOn || Suppressed(channel, autoCh) then NoOffer else SpectrumFrame(channel, autoCh, buf)
  }

  function WithStatus(snap: Snapshot, lastStatus: seq<Byte>): Snapshot {
    if snap.statusMessage == [] then snap.(statusMessage := lastStatus) else snap
  }

  /** A telemetry frame restarts the cycle and relabels the page. */
  function RouteTelemetry(r: Router, decoded: Snapshot): (Router, Offer) {
    var snap := WithStatus(decoded, r.lastStatus);
    (r.(sampleSegIdx := 0, lastTopMode := snap.topMode, lastChannel := snap.channel,
        lastAutoCh := snap.autoChannel, lastStatus := snap.statusMessage),
     Telemetry(snap))
  }

  /** A sample frame is the next segment, on a sample page with room left. */
  function RouteSample(c: Config, r: Router, frame: Frame): (Router, Offer)
    requires ValidRouter(r)
  {
    if !SamplePage(r.lastTopMode) || r.sampleSegIdx >= 5 then (r, NoOffer)
    else
      var n := r.sampleSegIdx + 1;
      if r.lastTopMode == "waveform" then
        var buf := Splice(r.scopeBuf, r.sampleSegIdx, frame);
        (r.(sampleSegIdx := n, scopeBuf := buf),
         if n == 5 then EmitScope(c, buf, r.lastChannel, r.lastAutoCh) else NoOffer)
      else
        var buf := Splice(r.spectrumBuf, r.sampleSegIdx, frame);
        (r.(sampleSegIdx := n, spectrumBuf := buf),
         if n == 5 then EmitSpectrum(c, buf, r.lastChannel, r.lastAutoCh) else NoOffer)
  }

  /** A frame as the router sees it, with the reading of a telemetry frame. */
  datatype Shape =
    | EchoShape
    | TelemetryShape(decoded: Snapshot)
    | SampleShape(bytes: Frame)

  /** A telemetry-shaped frame always decodes, so there is no fourth, undecodable shape. */
  function ShapeOf(frame: Frame): Shape {
    if IsEcho(frame) then EchoShape
    else if IsLikelyTelemetry(frame) then
      LikelyTelemetryDecodes(frame);
      TelemetryShape(DecodeOf(frame).snap)
    else SampleShape(frame)
  }

  /** Routing by shape: echo, telemetry or sample. */
  function Route(c: Config, r: Router, shape: Shape): (result: (Router, Offer))
    requires ValidRouter(r)
    ensures ValidRouter(result.0)
  {
    match shape
    case EchoShape => (r.(sampleSegIdx := 0), NoOffer)
    case TelemetryShape(decoded) => RouteTelemetry(r, decoded)
    case SampleShape(frame) => RouteSample(c, r, frame)
  }

  // ------------------------------------------------------------- schedule

  const STATUS_EVERY: nat := 10
  const SAMPLE_CYCLE: nat := 6

  /** The OUT report of tick number `n` while the last telemetry showed `topMode`. */
  function TickReport(topMode: string, n: nat): Frame {
    if SamplePage(topMode) then
      if n % SAMPLE_CYCLE == 0 then PollReport() else SampleReport(n % SAMPLE_CYCLE)
    else if n % STATUS_EVERY == 0 then StatusReport()
    else PollReport()
  }

  predicate IsPoll(report: Frame) {
    report[0] == POLL || report[0] == STATUS
  }

  /** Requests for a sample segment, '1'..'5'. */
  predicate IsSampleRequest(report: Frame) {
    0x31 <= report[0] <= 0x35
  }

  /** Every sixth tick asks for telemetry, whatever page the meter is on. */
  lemma PhaseZeroPolls(topMode: string, n: nat)
    requires n % SAMPLE_CYCLE == 0
    ensures IsPoll(TickReport(topMode, n))
  {
  }

  /** On a sample page a tick sends the command of its phase, '0' to '5'. */
  lemma SampleTickByte(topMode: string, n: nat)
    requires SamplePage(topMode)
    ensures TickReport(topMode, n)[0] == POLL + n % SAMPLE_CYCLE
  {
  }

  lemma PhasesDiffer(n: nat, i: nat, j: nat)
    requires i < j < i + SAMPLE_CYCLE
    ensures (n + i) % SAMPLE_CYCLE != (n + j) % SAMPLE_CYCLE
  {
  }

  /** While the page stays a sample page, six consecutive ticks send each of '0'..'5' ... */
  lemma SampleCycleIsComplete(topModes: seq<string>, n: nat, cmd: int)
    requires |topModes| == 6 && forall i :: 0 <= i < 6 ==> SamplePage(topModes[i])
    requires POLL <= cmd < POLL + SAMPLE_CYCLE
    ensures exists i :: 0 <= i < 6 && TickReport(topModes[i], n + i)[0] == cmd
  {
    var i := (cmd - POLL + 6 - n % 6) % 6;
    assert (n + i) % 6 == cmd - POLL;
    SampleTickByte(topModes[i], n + i);
    assert TickReport(topModes[i], n + i)[0] == cmd;
  }

  /** ... and no command twice. */
  lemma SampleCycleHasNoRepeat(topModes: seq<string>, n: nat, i: nat, j: nat)
    requires i < j < |topModes| && j < i + SAMPLE_CYCLE
    requires SamplePage(topModes[i]) && SamplePage(topModes[j])
    ensures TickReport(topModes[i], n + i)[0] != TickReport(topModes[j], n + j)[0]
  {
    SampleTickByte(topModes[i], n + i);
    SampleTickByte(topModes[j], n + j);
    PhasesDiffer(n, i, j);
  }

  /** Off the sample pages, any ten consecutive ticks refresh the status text exactly once and poll otherwise. */
  lemma StatusOnceInTen(topModes: seq<string>, n: nat, i: nat)
    requires |topModes| == STATUS_EVERY && forall k :: 0 <= k < |topModes| ==> !SamplePage(topModes[k])
    requires i < STATUS_EVERY
    ensures IsPoll(TickReport(topModes[i], n + i))
    ensures TickReport(topModes[i], n + i)[0] == STATUS <==> i == (STATUS_EVERY - n % STATUS_EVERY) % STATUS_EVERY
  {
  }

  // ----------------------------------------------------- the loop, in place

  class RunLoop {
    const scopeOn: bool
    const spectrumOn: bool
    const scopeBuf: array<Byte>
    const spectrumBuf: array<Byte>
    var sampleSegIdx: nat
    var lastTopMode: string
    var lastChannel: int
    var lastAutoCh: bool
    var lastStatus: seq<Byte>
    var tickN: nat

    ghost predicate Valid()
      reads this
    {
      && scopeBuf != spectrumBuf
      && scopeBuf.Length == SAMPLE_BUFFER_SIZE && spectrumBuf.Length == SAMPLE_BUFFER_SIZE
      && sampleSegIdx <= 5
    }

    ghost function View(): (r: Router)
      reads this, scopeBuf, spectrumBuf
      requires Valid()
      ensures ValidRouter(r)
    {
      Router(sampleSegIdx, lastTopMode, lastChannel, lastAutoCh, lastStatus, scopeBuf[..], spectrumBuf[..])
    }

    ghost function Cfg(): Config {
      Config(scopeOn, spectrumOn)
    }

    constructor (scopeOn: bool, spectrumOn: bool)
      ensures Valid() && fresh(scopeBuf) && fresh(spectrumBuf)
      ensures View() == Start() && tickN == 0 && Cfg() == Config(scopeOn, spectrumOn)
    {
      this.scopeOn, this.spectrumOn := scopeOn, spectrumOn;
      scopeBuf := new Byte[SAMPLE_BUFFER_SIZE](i => 0);
      spectrumBuf := new Byte[SAMPLE_BUFFER_SIZE](i => 0);
      sampleSegIdx, lastTopMode, lastChannel, lastAutoCh, lastStatus, tickN := 0, "", 0, false, [], 0;
      new;
      assert scopeBuf[..] == Zeros(SAMPLE_BUFFER_SIZE);
      assert spectrumBuf[..] == Zeros(SAMPLE_BUFFER_SIZE);
    }

    /** The reader's size filter in front of the router. */
    method OnReport(report: seq<Byte>) returns (offer: Offer)
      requires Valid()
      modifies this, scopeBuf, spectrumBuf
      ensures Valid() && tickN == old(tickN)
      ensures |report| != REPORT_SIZE ==> View() == old(View()) && offer == NoOffer
      ensures |report| == REPORT_SIZE ==> (View(), offer) == Route(Cfg(), old(View()), ShapeOf(report))
    {
      if |report| != REPORT_SIZE {
        return NoOffer;
      }
      offer := OnFrame(report);
    }

    method OnFrame(frame: Frame) returns (offer: Offer)
      requires Valid()
      modifies this, scopeBuf, spectrumBuf
      ensures Valid() && tickN == old(tickN)
      ensures (View(), offer) == Route(Cfg(), old(View()), ShapeOf(frame))
    {
      var echo := IsCommandEcho(frame);
      if echo {
        sampleSegIdx := 0;
        return NoOffer;
      }
      if IsLikelyTelemetry(frame) {
        var decoded := Decode(frame);
        if !decoded.Decoded? {
          return NoOffer;
        }
        offer := OnTelemetry(decoded.snap);
        return;
      }
      offer := OnSample(frame);
    }

    /** The telemetry branch of the router. */
    method OnTelemetry(decoded: Snapshot) returns (offer: Offer)
      requires Valid()
      modifies this
      ensures Valid() && tickN == old(tickN)
      ensures (View(), offer) == RouteTelemetry(old(View()), decoded)
    {
      var snap := decoded;
      if snap.statusMessage == [] {
        snap := snap.(statusMessage := lastStatus);
      } else {
        lastStatus := snap.statusMessage;
      }
      sampleSegIdx := 0;
      if snap.topMode != lastTopMode {
        sampleSegIdx := 0;
      }
      lastTopMode := snap.topMode;
      lastChannel := snap.channel;
      lastAutoCh := snap.autoChannel;
      return Telemetry(snap);
    }

    /** The sample branch of the router. */
    method OnSample(frame: Frame) returns (offer: Offer)
      requires Valid()
      modifies this, scopeBuf, spectrumBuf
      ensures Valid() && tickN == old(tickN)
      ensures (View(), offer) == RouteSample(Cfg(), old(View()), frame)
    {
      if lastTopMode != "waveform" && lastTopMode != "spectrum" {
        return NoOffer;
      }
      if sampleSegIdx >= 5 {
        return NoOffer;
      }
      var segIdx := sampleSegIdx;
      sampleSegIdx := sampleSegIdx + 1;
      offer := NoOffer;
      if lastTopMode == "waveform" {
        CopySegment(scopeBuf, segIdx, frame);
        if sampleSegIdx == 5 {
          offer := EmitScope(Config(scopeOn, spectrumOn), scopeBuf[..], lastChannel, lastAutoCh);
        }
      } else {
        CopySegment(spectrumBuf, segIdx, frame);
        if sampleSegIdx == 5 {
          offer := EmitSpectrum(Config(scopeOn, spectrumOn), spectrumBuf[..], lastChannel, lastAutoCh);
        }
      }
    }

    static method CopySegment(buf: array<Byte>, seg: nat, frame: Frame)
      requires buf.Length == SAMPLE_BUFFER_SIZE && seg < 5
      modifies buf
      ensures buf[..] == Splice(old(buf[..]), seg, frame)
    {
      for i := 0 to REPORT_SIZE
        invariant forall k :: 0 <= k < i ==> buf[seg * 64 + k] == frame[k]
        invariant forall k :: 0 <= k < seg * 64 || seg * 64 + i <= k < SAMPLE_BUFFER_SIZE ==> buf[k] == old(buf[k])
      {
        buf[seg * 64 + i] := frame[i];
      }
      assert buf[seg * 64..(seg + 1) * 64] == frame;
      assert buf[..] == buf[..seg * 64] + buf[seg * 64..(seg + 1) * 64] + buf[(seg + 1) * 64..];
      assert buf[..seg * 64] == old(buf[..])[..seg * 64];
      assert buf[(seg + 1) * 64..] == old(buf[..])[(seg + 1) * 64..];
    }

    /** The report part of a tick, after the queued commands went out. */
    method OnTick() returns (payload: Frame)
      requires Valid()
      modifies `tickN
      ensures Valid() && View() == old(View())
      ensures tickN == old(tickN) + 1 && payload == TickReport(lastTopMode, tickN)
    {
      tickN := tickN + 1;
      if lastTopMode == "waveform" || lastTopMode == "spectrum" {
        var phase := tickN % SAMPLE_CYCLE;
        if phase == 0 {
          payload := PollReport();
        } else {
          payload := SampleReport(phase);
        }
      } else if tickN % STATUS_EVERY == 0 {
        payload := StatusReport();
      } else {
        payload := PollReport();
      }
    }
  }
}
