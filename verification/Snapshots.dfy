/**
 The parsed meter state and the deadband that decides whether a change is worth a broadcast.
 Watts and SWR are exact rationals; timestamps are not part of this model.
 */
module Snapshots {
  import opened Wire

  datatype Snapshot = Snapshot(
    channel: int, autoChannel: bool,
    powerAvgW: real, powerPeakW: real, peakHoldW: real, swr: real,
    range: string, peakMode: string, powerMode: string,
    alarmEnabled: bool, alarmPowerW: real, alarmSWR: real, alarmTripped: bool,
    callsign: string, coupler: string, topMode: string, firmwareRev: string,
    statusMessage: seq<Byte>, valid: bool)

  const RANGE_NAMES: seq<string> :=
    ["5W", "10W", "25W", "50W", "100W", "250W", "500W", "1K", "2.5K", "5K", "10K", "auto"]
  const PEAK_MODE_NAMES: seq<string> := ["peak_hold", "average", "tune"]
  const TOP_MODE_NAMES: seq<string> := ["power_swr", "waveform", "spectrum", "setup"]

  /** The zero value a decode starts from. */
  const BLANK := Snapshot(
    0, false, 0.0, 0.0, 0.0, 0.0, "", "", "", false, 0.0, 0.0, false, "", "", "", "", [], false)

  function FloatNear(a: real, b: real, eps: real): bool {
    var d := a - b;
    (if d < 0.0 then -d else d) < eps
  }

  predicate CloseEnough(s: Snapshot, o: Snapshot) {
    && s.channel == o.channel
    && s.autoChannel == o.autoChannel
    && FloatNear(s.powerAvgW, o.powerAvgW, 0.5)
    && FloatNear(s.powerPeakW, o.powerPeakW, 0.5)
    && FloatNear(s.peakHoldW, o.peakHoldW, 0.5)
    && FloatNear(s.swr, o.swr, 0.005)
    && s.range == o.range
    && s.peakMode == o.peakMode
    && s.powerMode == o.powerMode
    && s.alarmEnabled == o.alarmEnabled
    && FloatNear(s.alarmPowerW, o.alarmPowerW, 0.5)
    && FloatNear(s.alarmSWR, o.alarmSWR, 0.005)
    && s.alarmTripped == o.alarmTripped
    && s.callsign == o.callsign
    && s.coupler == o.coupler
    && s.topMode == o.topMode
    && s.firmwareRev == o.firmwareRev
    && s.statusMessage == o.statusMessage
  }

  lemma CloseEnoughReflexive(s: Snapshot)
    ensures CloseEnough(s, s)
  {
  }

  /**
   Closeness is symmetric but not transitive: a power that creeps up by 0.4 W a step is close at every step
   and far after two. Comparing with the previous reading instead of the last broadcast one would drift.
   */
  lemma ClosenessDoesNotChain(s: Snapshot, o: Snapshot)
    ensures CloseEnough(s, o) == CloseEnough(o, s)
    ensures var (one, two) := (s.(powerAvgW := s.powerAvgW + 0.4), s.(powerAvgW := s.powerAvgW + 0.8));
      CloseEnough(s, one) && CloseEnough(one, two) && !CloseEnough(s, two)
  {
  }

  /** The three name tables have no repeated entry, so a name stands for one wire value. */
  lemma NamesAreDistinct()
    ensures forall i, j :: 0 <= i < j < |RANGE_NAMES| ==> RANGE_NAMES[i] != RANGE_NAMES[j]
    ensures forall i, j :: 0 <= i < j < |PEAK_MODE_NAMES| ==> PEAK_MODE_NAMES[i] != PEAK_MODE_NAMES[j]
    ensures forall i, j :: 0 <= i < j < |TOP_MODE_NAMES| ==> TOP_MODE_NAMES[i] != TOP_MODE_NAMES[j]
  {
    forall i, j | 0 <= i < j < |RANGE_NAMES| ensures RANGE_NAMES[i] != RANGE_NAMES[j] {
      if |RANGE_NAMES[i]| == |RANGE_NAMES[j]| {
        assert RANGE_NAMES[i][0] != RANGE_NAMES[j][0] || RANGE_NAMES[i][1] != RANGE_NAMES[j][1]
            || (|RANGE_NAMES[i]| == 3 && RANGE_NAMES[i][2] != RANGE_NAMES[j][2]);
      }
    }
    forall i, j | 0 <= i < j < |PEAK_MODE_NAMES| ensures PEAK_MODE_NAMES[i] != PEAK_MODE_NAMES[j] {
      assert PEAK_MODE_NAMES[i][0] != PEAK_MODE_NAMES[j][0];
    }
    forall i, j | 0 <= i < j < |TOP_MODE_NAMES| ensures TOP_MODE_NAMES[i] != TOP_MODE_NAMES[j] {
      assert TOP_MODE_NAMES[i][0] != TOP_MODE_NAMES[j][0] || TOP_MODE_NAMES[i][1] != TOP_MODE_NAMES[j][1];
    }
  }

  /** The index of a name in a table, or the table's length. */
  function IndexOf(table: seq<string>, name: string): (i: nat)
    ensures i <= |table|
    ensures i < |table| ==> table[i] == name
    ensures i == |table| ==> name !in table
  {
    if |table| == 0 then 0
    else if table[0] == name then 0
    else 1 + IndexOf(table[1..], name)
  }

  lemma IndexOfEntry(table: seq<string>, i: nat)
    requires i < |table|
    requires forall a, b :: 0 <= a < b < |table| ==> table[a] != table[b]
    ensures IndexOf(table, table[i]) == i
  {
    assert IndexOf(table, table[i]) < |table|;
  }
}
