/**
 The wire codec of the meter link: IN-report decoding, the shape tests the frame router relies on,
 the status text extractor, and the OUT reports.
 */
module Decoding {
  import opened Wire
  import opened Wrappers
  import opened Snapshots

  // ---------------------------------------------------------------- shapes

  /** A command byte followed by zeros: the firmware's answer to a command it did not act on. */
  predicate IsEcho(frame: seq<Byte>) {
    |frame| > 0 && 0x30 <= frame[0] <= 0x3F && forall i :: 1 <= i < |frame| ==> frame[i] == 0
  }

  method IsCommandEcho(frame: seq<Byte>) returns (echo: bool)
    ensures echo == IsEcho(frame)
  {
    if |frame| == 0 || frame[0] < 0x30 || frame[0] > 0x3F {
      return false;
    }
    for i := 1 to |frame|
      invariant forall k :: 1 <= k < i ==> frame[k] == 0
    {
      if frame[i] != 0 {
        return false;
      }
    }
    return true;
  }

  /** The header ranges, power coherence and SWR cap of a genuine telemetry report. */
  predicate IsLikelyTelemetry(frame: seq<Byte>) {
    && |frame| == REPORT_SIZE
    && frame[3] <= 3
    && frame[4] <= 4
    && frame[5] <= 4
    && frame[6] < |RANGE_NAMES|
    && frame[7] <= 1
    && frame[8] < |PEAK_MODE_NAMES|
    && U16(frame[23], frame[24]) >= U16(frame[25], frame[26])
    && U16(frame[2], frame[37]) <= 1000
  }

  // ----------------------------------------------------------- status text

  const SPACE: Byte := 0x20

  predicate IsPrintable(b: Byte) {
    0x20 <= b < 0x7F
  }

  predicate IsLetter(b: Byte) {
    0x61 <= b <= 0x7A || 0x41 <= b <= 0x5A
  }

  /** The printable bytes before the first NUL. */
  function Visible(slot: seq<Byte>): seq<Byte> {
    if slot == [] || slot[0] == 0 then []
    else (if IsPrintable(slot[0]) then [slot[0]] else []) + Visible(slot[1..])
  }

  function TrimRight(s: seq<Byte>): seq<Byte> {
    if s != [] && s[|s| - 1] == SPACE then TrimRight(s[..|s| - 1]) else s
  }

  /** Three letters in a row, starting at `i`. */
  predicate LettersAt(s: seq<Byte>, i: nat) {
    i + 3 <= |s| && IsLetter(s[i]) && IsLetter(s[i + 1]) && IsLetter(s[i + 2])
  }

  predicate HasLetterRun(s: seq<Byte>) {
    exists i: nat | i < |s| :: LettersAt(s, i)
  }

  predicate IsPhrase(s: seq<Byte>) {
    |s| >= 4 && SPACE in s && HasLetterRun(s)
  }

  function StatusText(slot: seq<Byte>): seq<Byte> {
    var text := TrimRight(Visible(slot));
    if IsPhrase(text) then text else []
  }

  method ExtractStatusMessage(slot: seq<Byte>) returns (text: seq<Byte>)
    ensures text == StatusText(slot)
  {
    var out: seq<Byte> := [];
    var i := 0;
    while i < |slot| && slot[i] != 0
      invariant 0 <= i <= |slot|
      invariant out + Visible(slot[i..]) == Visible(slot)
    {
      var b := slot[i];
      assert slot[i..][1..] == slot[i + 1..];
      if 0x20 <= b && b < 0x7F {
        out := out + [b];
      }
      i := i + 1;
    }
    assert out == Visible(slot);
    while |out| > 0 && out[|out| - 1] == SPACE
      invariant TrimRight(out) == TrimRight(Visible(slot))
      decreases |out|
    {
      out := out[..|out| - 1];
    }
    if |out| < 4 || SPACE !in out {
      return [];
    }
    var hasRun := FindLetterRun(out);
    return if hasRun then out else [];
  }

  /** The letter-run scan of the extractor. */
  method FindLetterRun(out: seq<Byte>) returns (hasRun: bool)
    ensures hasRun == HasLetterRun(out)
  {
    var run := 0;
    for j := 0 to |out|
      invariant 0 <= run <= j && run < 3
      invariant forall k :: j - run <= k < j ==> IsLetter(out[k])
      invariant run < j ==> !IsLetter(out[j - run - 1])
      invariant forall k: nat :: k + 3 <= j ==> !LettersAt(out, k)
    {
      if IsLetter(out[j]) {
        run := run + 1;
        if run >= 3 {
          assert LettersAt(out, j - 2);
          return true;
        }
      } else {
        run := 0;
      }
    }
    return false;
  }

  lemma {:induction false} VisibleIsPrintable(slot: seq<Byte>)
    ensures forall i :: 0 <= i < |Visible(slot)| ==> IsPrintable(Visible(slot)[i])
  {
    if slot != [] && slot[0] != 0 {
      VisibleIsPrintable(slot[1..]);
    }
  }

  lemma {:induction false} TrimRightIsPrefix(s: seq<Byte>)
    ensures TrimRight(s) <= s
    ensures TrimRight(s) != [] ==> TrimRight(s)[|TrimRight(s)| - 1] != SPACE
  {
    if s != [] && s[|s| - 1] == SPACE {
      TrimRightIsPrefix(s[..|s| - 1]);
    }
  }

  lemma {:induction false} VisibleKeepsPrintable(s: seq<Byte>)
    requires forall i :: 0 <= i < |s| ==> IsPrintable(s[i])
    ensures Visible(s) == s
  {
    if s != [] {
      VisibleKeepsPrintable(s[1..]);
      assert s == [s[0]] + s[1..];
    }
  }

  /** An extraction is empty or a printable, trimmed, multi-word phrase. */
  lemma StatusTextShape(slot: seq<Byte>)
    ensures var text := StatusText(slot);
      text != [] ==> |text| >= 4 && SPACE in text && HasLetterRun(text) && text[|text| - 1] != SPACE
                     && forall i :: 0 <= i < |text| ==> IsPrintable(text[i])
  {
    StatusTextIsTrimmed(slot);
    VisibleIsPrintable(slot);
    TrimRightIsPrefix(Visible(slot));
    PrefixIsPrintable(TrimRight(Visible(slot)), Visible(slot));
  }

  lemma StatusTextIsTrimmed(slot: seq<Byte>)
    ensures var text := StatusText(slot); text == [] || (text == TrimRight(Visible(slot)) && IsPhrase(text))
  {
  }

  lemma PrefixIsPrintable(s: seq<Byte>, t: seq<Byte>)
    requires s <= t && forall i :: 0 <= i < |t| ==> IsPrintable(t[i])
    ensures forall i :: 0 <= i < |s| ==> IsPrintable(s[i])
  {
  }

  /** The fixed points of the extractor are exactly the texts it can return. */
  lemma StatusTextFixedPoints(text: seq<Byte>)
    ensures StatusText(text) == text <==>
            text == [] || (IsPhrase(text) && text[|text| - 1] != SPACE
                           && forall i :: 0 <= i < |text| ==> IsPrintable(text[i]))
  {
    if StatusText(text) == text {
      StatusTextShape(text);
    } else if IsPhrase(text) && text[|text| - 1] != SPACE && forall i :: 0 <= i < |text| ==> IsPrintable(text[i]) {
      VisibleKeepsPrintable(text);
      assert false;
    }
  }

  /** Extracting twice is extracting once. */
  lemma StatusTextIdempotent(slot: seq<Byte>)
    ensures StatusText(StatusText(slot)) == StatusText(slot)
  {
    StatusTextShape(slot);
    StatusTextFixedPoints(StatusText(slot));
  }

  // ---------------------------------------------------------------- decode

  datatype DecodeResult = Decoded(snap: Snapshot) | Skip | WrongSize | BadChannel | BadRange

  function Watts(raw: nat): real {
    raw as real * 0.2
  }

  function Floored(rawSwr: nat): nat {
    if rawSwr < 100 then 100 else rawSwr
  }

  /** Meaning of one IN report. */
  function DecodeOf(report: seq<Byte>): DecodeResult {
    if |report| != REPORT_SIZE then WrongSize
    else if IsEcho(report) then Skip
    else if report[4] > 4 then BadChannel
    else if report[6] >= |RANGE_NAMES| then BadRange
    else Decoded(BLANK.(
      channel := if report[4] != 0 then report[4] else if 1 <= report[5] <= 4 then report[5] else 1,
      autoChannel := report[4] == 0,
      powerAvgW := Watts(U16(report[25], report[26])),
      powerPeakW := Watts(U16(report[23], report[24])),
      peakHoldW := Watts(U16(report[0], report[1])),
      swr := Floored(U16(report[2], report[37])) as real / 100.0,
      range := RANGE_NAMES[report[6]],
      peakMode := if report[8] < |PEAK_MODE_NAMES| then PEAK_MODE_NAMES[report[8]] else "",
      alarmEnabled := report[7] == 0,
      topMode := if report[3] < |TOP_MODE_NAMES| then TOP_MODE_NAMES[report[3]] else "power_swr",
      statusMessage := StatusText(report[40..]),
      valid := true))
  }

  method Decode(report: seq<Byte>) returns (r: DecodeResult)
    ensures r == DecodeOf(report)
  {
    if |report| != REPORT_SIZE {
      return WrongSize;
    }
    if report[0] >= 0x30 && report[0] <= 0x3F {
      var i := 1;
      while i < REPORT_SIZE && report[i] == 0
        invariant 1 <= i <= REPORT_SIZE
        invariant forall k :: 1 <= k < i ==> report[k] == 0
      {
        i := i + 1;
      }
      if i == REPORT_SIZE {
        return Skip;
      }
    }
    r := DecodeFields(report);
  }

  /** The part of the decoder that fills in the snapshot, field by field. */
  method DecodeFields(report: Frame) returns (r: DecodeResult)
    requires !IsEcho(report)
    ensures r == DecodeOf(report)
  {
    var s := BLANK;
    s := s.(peakHoldW := Watts(U16(report[0], report[1])));
    s := s.(powerPeakW := Watts(U16(report[23], report[24])));
    s := s.(powerAvgW := Watts(U16(report[25], report[26])));
    var swr := U16(report[2], report[37]) as real / 100.0;
    if swr < 1.0 {
      swr := 1.0;
    }
    assert swr == Floored(U16(report[2], report[37])) as real / 100.0;
    s := s.(swr := swr);
    var chByte, chAutoByte := report[4], report[5];
    if chByte == 0 {
      s := s.(autoChannel := true, channel := if 1 <= chAutoByte <= 4 then chAutoByte else 1);
    } else if chByte <= 4 {
      s := s.(autoChannel := false, channel := chByte);
    } else {
      return BadChannel;
    }
    if report[6] >= |RANGE_NAMES| {
      return BadRange;
    }
    s := s.(range := RANGE_NAMES[report[6]]);
    s := s.(topMode := if report[3] < |TOP_MODE_NAMES| then TOP_MODE_NAMES[report[3]] else "power_swr");
    s := s.(alarmEnabled := report[7] == 0);
    if report[8] < |PEAK_MODE_NAMES| {
      s := s.(peakMode := PEAK_MODE_NAMES[report[8]]);
    }
    var text := ExtractStatusMessage(report[40..]);
    s := s.(statusMessage := text);
    s := s.(valid := true);
    return Decoded(s);
  }

  /** A full-size report is skipped exactly when it has the echo shape the router tests for. */
  lemma SkippedIffEcho(frame: Frame)
    ensures DecodeOf(frame).Skip? <==> IsEcho(frame)
  {
  }

  /** What every snapshot the router publishes satisfies. */
  predicate Sound(s: Snapshot) {
    && s.valid
    && 1 <= s.channel <= 4
    && 0.0 <= s.powerAvgW <= s.powerPeakW
    && 1.0 <= s.swr <= 10.0
    && s.range in RANGE_NAMES
    && s.peakMode in PEAK_MODE_NAMES
    && s.topMode in TOP_MODE_NAMES
  }

  /** The shape test admits only frames that decode, and to a sound snapshot. */
  lemma LikelyTelemetryDecodes(frame: seq<Byte>)
    requires IsLikelyTelemetry(frame) && !IsEcho(frame)
    ensures DecodeOf(frame).Decoded? && Sound(DecodeOf(frame).snap)
  {
    var s := DecodeOf(frame).snap;
    assert s.peakMode == PEAK_MODE_NAMES[frame[8]];
    assert s.topMode == TOP_MODE_NAMES[frame[3]];
  }

  predicate Within2(x: nat, y: nat) {
    x <= y + 2 && y <= x + 2
  }

  /**
   In raw units: the deadband is two counts of power, and none of floored SWR. The status texts are those the
   router put in.
   */
  lemma CloseEnoughInCounts(f: Frame, g: Frame, a: seq<Byte>, b: seq<Byte>)
    requires DecodeOf(f).Decoded? && DecodeOf(g).Decoded?
    ensures var s, t := DecodeOf(f).snap.(statusMessage := a), DecodeOf(g).snap.(statusMessage := b);
      CloseEnough(s, t) <==>
      && Within2(U16(f[25], f[26]), U16(g[25], g[26]))
      && Within2(U16(f[23], f[24]), U16(g[23], g[24]))
      && Within2(U16(f[0], f[1]), U16(g[0], g[1]))
      && Floored(U16(f[2], f[37])) == Floored(U16(g[2], g[37]))
      && s.channel == t.channel && s.autoChannel == t.autoChannel
      && s.range == t.range && s.peakMode == t.peakMode && s.topMode == t.topMode
      && s.alarmEnabled == t.alarmEnabled && s.statusMessage == t.statusMessage
  {
    WattsNear(U16(f[25], f[26]), U16(g[25], g[26]));
    WattsNear(U16(f[23], f[24]), U16(g[23], g[24]));
    WattsNear(U16(f[0], f[1]), U16(g[0], g[1]));
    HundredthsNear(Floored(U16(f[2], f[37])), Floored(U16(g[2], g[37])));
  }

  lemma WattsNear(x: nat, y: nat)
    ensures FloatNear(Watts(x), Watts(y), 0.5) <==> Within2(x, y)
  {
    assert Watts(x) - Watts(y) == (x - y) as real * 0.2;
  }

  lemma HundredthsNear(x: nat, y: nat)
    ensures FloatNear(x as real / 100.0, y as real / 100.0, 0.005) <==> x == y
  {
    assert x as real / 100.0 - y as real / 100.0 == (x - y) as real / 100.0;
  }

  // --------------------------------------------------------- frame builder

  function CountOf(watts: real): int {
    (watts / 0.2).Floor
  }

  function HundredthsOf(swr: real): int {
    (swr * 100.0).Floor
  }

  predicate IsPowerCount(watts: real) {
    0 <= CountOf(watts) < 0x1_0000 && watts == CountOf(watts) as real * 0.2
  }

  /** The snapshots the wire can carry, without the status slot. */
  predicate Canonical(s: Snapshot) {
    && IsPowerCount(s.powerAvgW) && IsPowerCount(s.powerPeakW) && IsPowerCount(s.peakHoldW)
    && 100 <= HundredthsOf(s.swr) < 0x1_0000 && s.swr == HundredthsOf(s.swr) as real / 100.0
    && 1 <= s.channel <= 4
    && s.range in RANGE_NAMES && s.peakMode in PEAK_MODE_NAMES && s.topMode in TOP_MODE_NAMES
    && s == BLANK.(channel := s.channel, autoChannel := s.autoChannel, powerAvgW := s.powerAvgW,
                   powerPeakW := s.powerPeakW, peakHoldW := s.peakHoldW, swr := s.swr, range := s.range,
                   peakMode := s.peakMode, alarmEnabled := s.alarmEnabled, topMode := s.topMode, valid := true)
  }

  /** Byte `i` of the synthetic report for a canonical snapshot. */
  function BuildByte(s: Snapshot, i: nat): Byte
    requires Canonical(s)
  {
    if i == 0 then CountOf(s.peakHoldW) / 256
    else if i == 1 then CountOf(s.peakHoldW) % 256
    else if i == 2 then HundredthsOf(s.swr) / 256
    else if i == 3 then IndexOf(TOP_MODE_NAMES, s.topMode)
    else if i == 4 then (if s.autoChannel then 0 else s.channel)
    else if i == 5 then (if s.autoChannel then s.channel else 0)
    else if i == 6 then IndexOf(RANGE_NAMES, s.range)
    else if i == 7 then (if s.alarmEnabled then 0 else 1)
    else if i == 8 then IndexOf(PEAK_MODE_NAMES, s.peakMode)
    else if i == 23 then CountOf(s.powerPeakW) / 256
    else if i == 24 then CountOf(s.powerPeakW) % 256
    else if i == 25 then CountOf(s.powerAvgW) / 256
    else if i == 26 then CountOf(s.powerAvgW) % 256
    else if i == 37 then HundredthsOf(s.swr) % 256
    else 0
  }

  function BuildFrame(s: Snapshot): Frame
    requires Canonical(s)
  {
    seq(REPORT_SIZE, i requires 0 <= i => BuildByte(s, i))
  }

  lemma BuiltNumbers(s: Snapshot)
    requires Canonical(s)
    ensures var f := BuildFrame(s);
      && U16(f[0], f[1]) == CountOf(s.peakHoldW)
      && U16(f[23], f[24]) == CountOf(s.powerPeakW)
      && U16(f[25], f[26]) == CountOf(s.powerAvgW)
      && U16(f[2], f[37]) == HundredthsOf(s.swr)
  {
  }

  lemma BuiltHeader(s: Snapshot)
    requires Canonical(s)
    ensures var f := BuildFrame(s);
      && f[3] < |TOP_MODE_NAMES| && TOP_MODE_NAMES[f[3]] == s.topMode
      && f[4] == (if s.autoChannel then 0 else s.channel)
      && f[5] == (if s.autoChannel then s.channel else 0)
      && f[6] < |RANGE_NAMES| && RANGE_NAMES[f[6]] == s.range
      && f[7] == (if s.alarmEnabled then 0 else 1)
      && f[8] < |PEAK_MODE_NAMES| && PEAK_MODE_NAMES[f[8]] == s.peakMode
      && StatusText(f[40..]) == []
  {
    assert Visible(BuildFrame(s)[40..]) == [];
  }

  /** Building then decoding gives the snapshot back, and what is built never looks like an echo. */
  lemma DecodeInvertsBuild(s: Snapshot)
    requires Canonical(s)
    ensures !IsEcho(BuildFrame(s))
    ensures DecodeOf(BuildFrame(s)) == Decoded(s)
  {
    var f := BuildFrame(s);
    BuiltNumbers(s);
    BuiltHeader(s);
    assert !IsEcho(f) by {
      assert f[4] != 0 || f[5] != 0;
    }
    AssembleDecode(f, s);
  }

  /** A report whose fields spell a canonical snapshot decodes to it. */
  lemma AssembleDecode(f: Frame, s: Snapshot)
    requires Canonical(s) && !IsEcho(f)
    requires U16(f[0], f[1]) == CountOf(s.peakHoldW)
    requires U16(f[23], f[24]) == CountOf(s.powerPeakW)
    requires U16(f[25], f[26]) == CountOf(s.powerAvgW)
    requires U16(f[2], f[37]) == HundredthsOf(s.swr)
    requires f[3] < |TOP_MODE_NAMES| && TOP_MODE_NAMES[f[3]] == s.topMode
    requires f[4] == (if s.autoChannel then 0 else s.channel)
    requires f[5] == (if s.autoChannel then s.channel else 0)
    requires f[6] < |RANGE_NAMES| && RANGE_NAMES[f[6]] == s.range
    requires f[7] == (if s.alarmEnabled then 0 else 1)
    requires f[8] < |PEAK_MODE_NAMES| && PEAK_MODE_NAMES[f[8]] == s.peakMode
    requires StatusText(f[40..]) == []
    ensures DecodeOf(f) == Decoded(s)
  {
    AssembleNumbers(f, s);
  }

  lemma AssembleNumbers(f: Frame, s: Snapshot)
    requires Canonical(s)
    requires U16(f[0], f[1]) == CountOf(s.peakHoldW)
    requires U16(f[23], f[24]) == CountOf(s.powerPeakW)
    requires U16(f[25], f[26]) == CountOf(s.powerAvgW)
    requires U16(f[2], f[37]) == HundredthsOf(s.swr)
    ensures Watts(U16(f[0], f[1])) == s.peakHoldW && Watts(U16(f[23], f[24])) == s.powerPeakW
    ensures Watts(U16(f[25], f[26])) == s.powerAvgW && Floored(U16(f[2], f[37])) as real / 100.0 == s.swr
  {
  }

  /** Conversely every telemetry-shaped frame decodes to a canonical snapshot plus a status text. */
  lemma DecodedIsCanonical(frame: Frame)
    requires IsLikelyTelemetry(frame) && !IsEcho(frame)
    ensures DecodeOf(frame).Decoded?
    ensures var s := DecodeOf(frame).snap.(statusMessage := []);
      Canonical(s) && DecodeOf(BuildFrame(s)) == Decoded(s)
  {
    LikelyTelemetryDecodes(frame);
    CountOfWatts(U16(frame[25], frame[26]));
    CountOfWatts(U16(frame[23], frame[24]));
    CountOfWatts(U16(frame[0], frame[1]));
    var h := Floored(U16(frame[2], frame[37]));
    assert (h as real / 100.0) * 100.0 == h as real;
    var s := DecodeOf(frame).snap.(statusMessage := []);
    DecodeInvertsBuild(s);
  }

  /** The byte for the locked channel is read only on auto, and then only in range; the rest of byte 5 is lost. */
  predicate LockIsRead(frame: Frame) {
    if frame[4] == 0 then 1 <= frame[5] <= 4 else frame[5] == 0
  }

  /**
   Exactly what the decoder forgets of a telemetry-shaped frame: rebuilding the frame from the decoded
   snapshot gives back every header and power byte, the SWR bytes unless the floor changed them, and byte 5
   unless it says nothing.
   */
  lemma RebuiltBytes(frame: Frame)
    requires IsLikelyTelemetry(frame) && !IsEcho(frame)
    ensures DecodeOf(frame).Decoded? && Canonical(DecodeOf(frame).snap.(statusMessage := []))
    ensures var g := BuildFrame(DecodeOf(frame).snap.(statusMessage := []));
      && g[0] == frame[0] && g[1] == frame[1] && g[3] == frame[3] && g[4] == frame[4]
      && g[6] == frame[6] && g[7] == frame[7] && g[8] == frame[8]
      && g[23] == frame[23] && g[24] == frame[24] && g[25] == frame[25] && g[26] == frame[26]
      && (g[5] == frame[5] <==> LockIsRead(frame))
      && (g[2] == frame[2] && g[37] == frame[37] <==> U16(frame[2], frame[37]) >= 100)
  {
    DecodedIsCanonical(frame);
    var s := DecodeOf(frame).snap.(statusMessage := []);
    RebuiltHeader(frame, s);
    DecodedNumbers(frame);
    RebuiltNumbers(frame, s);
  }

  lemma RebuiltHeader(frame: Frame, s: Snapshot)
    requires IsLikelyTelemetry(frame) && !IsEcho(frame) && Canonical(s)
    requires DecodeOf(frame).Decoded? && s == DecodeOf(frame).snap.(statusMessage := [])
    ensures var g := BuildFrame(s);
      && g[3] == frame[3] && g[4] == frame[4] && g[6] == frame[6] && g[7] == frame[7] && g[8] == frame[8]
      && (g[5] == frame[5] <==> LockIsRead(frame))
  {
    RebuiltNames(frame);
    RebuiltChannel(frame, s);
  }

  lemma RebuiltChannel(frame: Frame, s: Snapshot)
    requires IsLikelyTelemetry(frame) && !IsEcho(frame) && Canonical(s)
    requires DecodeOf(frame).Decoded? && s == DecodeOf(frame).snap.(statusMessage := [])
    ensures var g := BuildFrame(s);
      g[4] == frame[4] && g[7] == frame[7] && (g[5] == frame[5] <==> LockIsRead(frame))
  {
  }

  lemma DecodedNumbers(frame: Frame)
    requires DecodeOf(frame).Decoded?
    ensures var s := DecodeOf(frame).snap;
      && CountOf(s.peakHoldW) == U16(frame[0], frame[1])
      && CountOf(s.powerPeakW) == U16(frame[23], frame[24])
      && CountOf(s.powerAvgW) == U16(frame[25], frame[26])
      && HundredthsOf(s.swr) == Floored(U16(frame[2], frame[37]))
  {
    CountOfWatts(U16(frame[25], frame[26]));
    CountOfWatts(U16(frame[23], frame[24]));
    CountOfWatts(U16(frame[0], frame[1]));
    HundredthsOfFloored(U16(frame[2], frame[37]));
  }

  lemma RebuiltNumbers(frame: Frame, s: Snapshot)
    requires Canonical(s)
    requires CountOf(s.peakHoldW) == U16(frame[0], frame[1]) && CountOf(s.powerPeakW) == U16(frame[23], frame[24])
    requires CountOf(s.powerAvgW) == U16(frame[25], frame[26])
    requires HundredthsOf(s.swr) == Floored(U16(frame[2], frame[37]))
    ensures var g := BuildFrame(s);
      && g[0] == frame[0] && g[1] == frame[1] && g[23] == frame[23] && g[24] == frame[24]
      && g[25] == frame[25] && g[26] == frame[26]
      && (g[2] == frame[2] && g[37] == frame[37] <==> U16(frame[2], frame[37]) >= 100)
  {
    BuiltNumbers(s);
    U16Injective(BuildFrame(s), frame, 0, 1);
    U16Injective(BuildFrame(s), frame, 23, 24);
    U16Injective(BuildFrame(s), frame, 25, 26);
    U16Injective(BuildFrame(s), frame, 2, 37);
  }

  lemma U16Injective(f: Frame, g: Frame, hi: nat, lo: nat)
    requires hi < REPORT_SIZE && lo < REPORT_SIZE
    ensures U16(f[hi], f[lo]) == U16(g[hi], g[lo]) <==> f[hi] == g[hi] && f[lo] == g[lo]
  {
  }

  lemma HundredthsOfFloored(raw: nat)
    ensures HundredthsOf(Floored(raw) as real / 100.0) == Floored(raw)
  {
    assert (Floored(raw) as real / 100.0) * 100.0 == Floored(raw) as real;
  }

  /** The name tables have no repeats, so the index of a decoded name is the byte it came from. */
  lemma RebuiltNames(frame: Frame)
    requires IsLikelyTelemetry(frame) && !IsEcho(frame)
    ensures DecodeOf(frame).Decoded?
    ensures var s := DecodeOf(frame).snap;
      && IndexOf(TOP_MODE_NAMES, s.topMode) == frame[3]
      && IndexOf(RANGE_NAMES, s.range) == frame[6]
      && IndexOf(PEAK_MODE_NAMES, s.peakMode) == frame[8]
  {
    NamesAreDistinct();
    IndexOfEntry(TOP_MODE_NAMES, frame[3]);
    IndexOfEntry(RANGE_NAMES, frame[6]);
    IndexOfEntry(PEAK_MODE_NAMES, frame[8]);
  }

  lemma CountOfWatts(raw: nat)
    ensures CountOf(Watts(raw)) == raw
  {
    assert Watts(raw) / 0.2 == raw as real;
  }

  // ----------------------------------------------------------- OUT reports

  /** A command byte followed by zeros. */
  function Report(command: Byte): Frame {
    [command] + seq(REPORT_SIZE - 1, i => 0)
  }

  const POLL: Byte := 0x30
  const STATUS: Byte := 0x36

  function PollReport(): Frame {
    Report(POLL)
  }

  function StatusReport(): Frame {
    Report(STATUS)
  }

  /** The source panics outside 1..5, so the range is a precondition every caller has to meet. */
  function SampleReport(seg: int): Frame
    requires 1 <= seg <= 5
  {
    Report(POLL + seg)
  }

  const KNOWN_VERBS: set<string> :=
    {"mode_step", "channel_step", "range_step", "alarm_toggle", "peak_toggle", "setup", "freeze"}

  /** None for a verb the server does not know. */
  function EncodeCommand(verb: string, value: int): Option<Frame> {
    if verb == "mode_step" then Some(Report(0x37))
    else if verb == "channel_step" then Some(Report(0x38))
    else if verb == "range_step" then Some(Report(0x39))
    else if verb == "alarm_toggle" then Some(Report(0x3A))
    else if verb == "peak_toggle" then Some(Report(0x3B))
    else if verb == "setup" then Some(Report(0x3C))
    else if verb == "freeze" then Some(Report(0x3F))
    else None
  }

  /** The encoder knows exactly the known verbs, and never as a poll, status or sample request. */
  lemma KnownVerbsEncode(verb: string, value: int)
    ensures verb in KNOWN_VERBS <==> EncodeCommand(verb, value).Some?
    ensures verb in KNOWN_VERBS ==>
      var report := EncodeCommand(verb, value).value; 0x37 <= report[0] <= 0x3F && IsEcho(report)
  {
  }

  /** The front-panel action the firmware performs on a command byte. */
  function ActionOf(command: Byte): Option<string> {
    match command
    case 0x37 => Some("mode_step")
    case 0x38 => Some("channel_step")
    case 0x39 => Some("range_step")
    case 0x3A => Some("alarm_toggle")
    case 0x3B => Some("peak_toggle")
    case 0x3C => Some("setup")
    case 0x3F => Some("freeze")
    case _ => None
  }

  /** The meter does what was asked: encoding and the firmware's command table are inverse. */
  lemma EncodedActionIsTheVerb(verb: string, value: int, command: Byte)
    ensures EncodeCommand(verb, value) == Some(Report(command)) <==> ActionOf(command) == Some(verb)
  {
    assert Report(command)[0] == command;
  }

  /** Two verbs never share a command byte. */
  lemma CommandsAreDistinct(verb: string, v: int, other: string, w: int)
    requires verb in KNOWN_VERBS && other in KNOWN_VERBS
    ensures EncodeCommand(verb, v).value[0] == EncodeCommand(other, w).value[0] <==> verb == other
  {
  }

  const RANGE_REASON := "Range can't be changed in CH Auto; select CH 1-4"
  const ALARM_REASON := "Alarm can't be changed in CH Auto; select CH 1-4"

  /** "" when the firmware will act on the verb, else why it would ignore it. */
  function VerbAvailableInState(verb: string, snap: Option<Snapshot>): string {
    if snap.None? || !snap.value.autoChannel then ""
    else if verb == "range_step" then RANGE_REASON
    else if verb == "alarm_toggle" then ALARM_REASON
    else ""
  }
}
