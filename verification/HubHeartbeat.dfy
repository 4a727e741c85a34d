/**
 Heartbeats: they go out only into silence, and with ticks on time the air is never silent for two periods.
 */
module HubHeartbeat {
  import opened Wrappers
  import opened Hub
  import opened HubLifecycle
  import opened HubDelivery

  /** The time an arm reads the clock at. */
  function ClockOf(e: Event): Option<int> {
    match e
    case SnapArm(_, now) => Some(now)
    case HeartbeatArm(now) => Some(now)
    case _ => None
  }

  ghost predicate MonotoneClock(start: int, es: seq<Event>) {
    && (forall k :: 0 <= k < |es| && ClockOf(es[k]).Some? ==> start <= ClockOf(es[k]).value)
    && (forall j, k :: 0 <= j < k < |es| && ClockOf(es[j]).Some? && ClockOf(es[k]).Some? ==>
          ClockOf(es[j]).value <= ClockOf(es[k]).value)
  }

  /** Event `k` of the run put a telemetry or heartbeat frame on the air. */
  predicate Airs(cfg: HubConfig, start: int, es: seq<Event>, k: nat)
    requires k < |es|
  {
    ClockOf(es[k]).Some? && Run(cfg, start, es[..k + 1]).seqNo > Run(cfg, start, es[..k]).seqNo
  }

  /** `lastSent` moves only to the clock of an airing event, and always does. */
  lemma LastSentStep(cfg: HubConfig, h: Hub, e: Event)
    ensures var p := Step(cfg, h, e);
      && (ClockOf(e).Some? && p.seqNo > h.seqNo ==> p.lastSent == ClockOf(e).value)
      && (ClockOf(e).None? || p.seqNo == h.seqNo ==> p.lastSent == h.lastSent)
      && p.seqNo >= h.seqNo
  {
    if h.panicked {
    } else if IsNumbering(e) {
      NumberingArmStep(cfg, h, e);
    } else {
      OnlyNumberingArmsAir(cfg, h, e);
    }
  }

  lemma OnlyNumberingArmsAir(cfg: HubConfig, h: Hub, e: Event)
    requires !IsNumbering(e)
    ensures Step(cfg, h, e).seqNo == h.seqNo && Step(cfg, h, e).lastSent == h.lastSent
  {
  }

  lemma LastSentNext(cfg: HubConfig, start: int, es: seq<Event>, k: nat)
    requires k < |es|
    ensures Airs(cfg, start, es, k) ==> Run(cfg, start, es[..k + 1]).lastSent == ClockOf(es[k]).value
    ensures !Airs(cfg, start, es, k) ==>
      Run(cfg, start, es[..k + 1]).lastSent == Run(cfg, start, es[..k]).lastSent
  {
    RunNext(cfg, start, es, k);
    LastSentStep(cfg, Run(cfg, start, es[..k]), es[k]);
  }

  /** The clock of the last airing event before event `n`, or the start. */
  function LastAir(cfg: HubConfig, start: int, es: seq<Event>, n: nat): int
    requires n <= |es|
  {
    if n == 0 then start
    else if Airs(cfg, start, es, n - 1) then ClockOf(es[n - 1]).value
    else LastAir(cfg, start, es, n - 1)
  }

  /** What the hub remembers is when it last aired anything but scope and spectrum frames. */
  lemma {:induction false} LastSentIsLastAir(cfg: HubConfig, start: int, es: seq<Event>, n: nat)
    requires n <= |es|
    ensures Run(cfg, start, es[..n]).lastSent == LastAir(cfg, start, es, n)
  {
    if n > 0 {
      LastSentIsLastAir(cfg, start, es, n - 1);
      LastSentNext(cfg, start, es, n - 1);
    }
  }

  lemma {:induction false} LastAirIsPast(cfg: HubConfig, start: int, es: seq<Event>, n: nat, k: nat)
    requires n <= k < |es| && MonotoneClock(start, es) && ClockOf(es[k]).Some?
    ensures start <= LastAir(cfg, start, es, n) <= ClockOf(es[k]).value
  {
    if n > 0 {
      LastAirIsPast(cfg, start, es, n - 1, k);
    }
  }

  lemma {:induction false} StepsUp(f: nat -> int, m: nat, n: nat)
    requires m <= n && forall k: nat :: m <= k < n ==> f(k) <= f(k + 1)
    ensures f(m) <= f(n)
  {
    if m < n {
      StepsUp(f, m, n - 1);
      assert f(n - 1) <= f(n - 1 + 1);
    }
  }

  /** The last airing never moves back. */
  lemma LastAirGrows(cfg: HubConfig, start: int, es: seq<Event>, m: nat, n: nat)
    requires m <= n <= |es| && MonotoneClock(start, es)
    ensures LastAir(cfg, start, es, m) <= LastAir(cfg, start, es, n)
  {
    var f := (k: nat) => if k <= |es| then LastAir(cfg, start, es, k) else 0;
    forall k: nat | m <= k < n ensures f(k) <= f(k + 1) {
      LastAirStep(cfg, start, es, k);
    }
    StepsUp(f, m, n);
  }

  lemma LastAirStep(cfg: HubConfig, start: int, es: seq<Event>, n: nat)
    requires n < |es| && MonotoneClock(start, es)
    ensures LastAir(cfg, start, es, n) <= LastAir(cfg, start, es, n + 1)
  {
    if Airs(cfg, start, es, n) {
      LastAirIsPast(cfg, start, es, n, n);
    }
  }

  lemma HeartbeatNeedsSilence(cfg: HubConfig, h: Hub, now: int)
    requires Step(cfg, h, HeartbeatArm(now)).seqNo > h.seqNo
    ensures now - h.lastSent >= cfg.heartbeat
  {
  }

  /** On a monotone clock, a heartbeat goes out only a full period after every earlier telemetry or heartbeat. */
  lemma HeartbeatsFillSilence(cfg: HubConfig, start: int, es: seq<Event>, j: nat, k: nat)
    requires j < k < |es| && MonotoneClock(start, es)
    requires Airs(cfg, start, es, j) && es[k].HeartbeatArm? && Airs(cfg, start, es, k)
    ensures es[k].now >= ClockOf(es[j]).value + cfg.heartbeat
  {
    LastAirGrows(cfg, start, es, j + 1, k);
    LastSentIsLastAir(cfg, start, es, k);
    RunNext(cfg, start, es, k);
    HeartbeatNeedsSilence(cfg, Run(cfg, start, es[..k]), es[k].now);
  }

  /** Event `j` is a heartbeat tick of the live hub. */
  predicate TicksAt(cfg: HubConfig, start: int, es: seq<Event>, j: nat)
    requires j < |es|
  {
    es[j].HeartbeatArm? && Run(cfg, start, es[..j]).running && !Run(cfg, start, es[..j]).panicked
  }

  lemma TickEndsSilence(cfg: HubConfig, h: Hub, now: int)
    requires h.running && !h.panicked && cfg.heartbeat > 0
    ensures now - Step(cfg, h, HeartbeatArm(now)).lastSent < cfg.heartbeat
  {
    HeartbeatStep(cfg, h, now);
  }

  lemma SilentAfterTick(cfg: HubConfig, start: int, es: seq<Event>, j: nat)
    requires j < |es| && TicksAt(cfg, start, es, j) && cfg.heartbeat > 0
    ensures es[j].now - LastAir(cfg, start, es, j + 1) < cfg.heartbeat
  {
    TickEndsSilence(cfg, Run(cfg, start, es[..j]), es[j].now);
    RunNext(cfg, start, es, j);
    LastSentIsLastAir(cfg, start, es, j + 1);
  }

  /** Some tick, or the start, is at most one period before event `k`. */
  predicate TickedInTime(cfg: HubConfig, start: int, es: seq<Event>, k: nat)
    requires k < |es| && ClockOf(es[k]).Some?
  {
    || ClockOf(es[k]).value <= start + cfg.heartbeat
    || exists j :: 0 <= j < k && TicksAt(cfg, start, es, j) && ClockOf(es[k]).value <= es[j].now + cfg.heartbeat
  }

  /** On a monotone clock with ticks at most a period apart, the air is silent for less than two periods. */
  lemma SilenceIsBounded(cfg: HubConfig, start: int, es: seq<Event>, k: nat)
    requires k < |es| && ClockOf(es[k]).Some? && MonotoneClock(start, es) && cfg.heartbeat > 0
    requires TickedInTime(cfg, start, es, k)
    ensures ClockOf(es[k]).value - LastAir(cfg, start, es, k) < 2 * cfg.heartbeat
  {
    if ClockOf(es[k]).value <= start + cfg.heartbeat {
      LastAirIsPast(cfg, start, es, k, k);
    } else {
      var j :| 0 <= j < k && TicksAt(cfg, start, es, j) && ClockOf(es[k]).value <= es[j].now + cfg.heartbeat;
      SilentAfterTick(cfg, start, es, j);
      LastAirGrows(cfg, start, es, j + 1, k);
    }
  }
}
