/**
 What reaches the clients in every run of the hub: sequence numbers are conserved, queues are FIFO, the
 broadcast state never drifts from the meter, and every client was offered the current snapshot.
 */
module HubDelivery {
  import opened Wire
  import opened Wrappers
  import opened Snapshots
  import opened Decoding
  import opened Hub
  import opened HubLifecycle

  function Number(frame: WsFrame): nat {
    if frame.AckMsg? then 0 else frame.n
  }

  /** The sequence numbers of the broadcasts attempted on a channel, queued or dropped. */
  function Numbers(log: seq<Delivery>): seq<nat> {
    if log == [] then []
    else
      var d := log[|log| - 1];
      Numbers(log[..|log| - 1]) + if d.kind.Broadcast? then [Number(d.frame)] else []
  }

  /** The frames that got into the channel. */
  function QueuedFrames(log: seq<Delivery>): seq<WsFrame> {
    if log == [] then []
    else
      var d := log[|log| - 1];
      QueuedFrames(log[..|log| - 1]) + if d.queued then [d.frame] else []
  }

  /** The latest telemetry frame offered on a channel. */
  function LastOffered(log: seq<Delivery>): Option<WsFrame> {
    if log == [] then None
    else if log[|log| - 1].frame.TelemetryMsg? then Some(log[|log| - 1].frame)
    else LastOffered(log[..|log| - 1])
  }

  /** `a + 1, a + 2, ..., a + n` */
  function Interval(a: nat, n: nat): seq<nat> {
    if n == 0 then [] else Interval(a, n - 1) + [a + n]
  }

  /** FIFO and conservation for one channel. */
  predicate Conserves(ch: Chan, seqNo: nat) {
    && |ch.queue| <= SEND_BUFFER
    && QueuedFrames(ch.log) == ch.received + ch.queue
    && Numbers(ch.log) == Interval(ch.joinedAt, |Numbers(ch.log)|)
    && ch.joinedAt + |Numbers(ch.log)| <= seqNo
    && (!ch.joined ==> Numbers(ch.log) == [])
  }

  /** A registered client has been offered every number issued since it joined, and the current snapshot. */
  predicate UpToDate(h: Hub, c: nat)
    requires c < |h.chans|
  {
    var ch := h.chans[c];
    && (h.running && c in h.clients ==>
          ch.joinedAt + |Numbers(ch.log)| == h.seqNo && LastOffered(ch.log) == h.lastJSON)
    && (h.lastJSON.None? ==> LastOffered(ch.log) == None)
  }

  /** The broadcast snapshot is encoded in lastJSON and close to the latest valid one. */
  predicate Coherent(h: Hub) {
    && (h.latestSnap.Some? <==> h.lastSnap.Some?) && (h.lastJSON.Some? <==> h.lastSnap.Some?)
    && (h.lastSnap.Some? ==>
          && h.lastSnap.value.valid && h.latestSnap.value.valid
          && CloseEnough(h.lastSnap.value, h.latestSnap.value)
          && h.lastJSON.value.TelemetryMsg? && h.lastJSON.value.snap == h.lastSnap.value
          && 1 <= h.lastJSON.value.n <= h.seqNo)
  }

  ghost predicate Delivers(h: Hub) {
    && Coherent(h)
    && (forall c :: 0 <= c < |h.chans| ==> Conserves(h.chans[c], h.seqNo))
    && (forall c :: 0 <= c < |h.chans| ==> UpToDate(h, c))
  }

  // ------------------------------------------------------------ one channel

  lemma OfferedLog(ch: Chan, frame: WsFrame, kind: Kind)
    ensures var p := Offered(ch, frame, kind);
      && Numbers(p.log) == Numbers(ch.log) + (if kind.Broadcast? then [Number(frame)] else [])
      && QueuedFrames(p.log) == QueuedFrames(ch.log) + (if |ch.queue| < SEND_BUFFER then [frame] else [])
      && LastOffered(p.log) == (if frame.TelemetryMsg? then Some(frame) else LastOffered(ch.log))
  {
    var p := Offered(ch, frame, kind);
    assert p.log[..|ch.log|] == ch.log;
  }

  /** A reply or a replay is no broadcast: the numbers stay as they are. */
  lemma OfferedConserves(ch: Chan, frame: WsFrame, kind: Kind, seqNo: nat)
    requires Conserves(ch, seqNo) && !kind.Broadcast?
    ensures Conserves(Offered(ch, frame, kind), seqNo)
    ensures Numbers(Offered(ch, frame, kind).log) == Numbers(ch.log)
  {
    OfferedLog(ch, frame, kind);
    assert ch.received + (ch.queue + [frame]) == (ch.received + ch.queue) + [frame];
  }

  /** The next number, offered to a channel that has seen all before it. */
  lemma BroadcastConserves(ch: Chan, frame: WsFrame, seqNo: nat)
    requires Conserves(ch, seqNo) && ch.joined && ch.joinedAt + |Numbers(ch.log)| == seqNo
    requires Number(frame) == seqNo + 1
    ensures var p := Offered(ch, frame, Broadcast);
      Conserves(p, seqNo + 1) && p.joinedAt + |Numbers(p.log)| == seqNo + 1
  {
    OfferedLog(ch, frame, Broadcast);
    assert ch.received + (ch.queue + [frame]) == (ch.received + ch.queue) + [frame];
  }

  // ---------------------------------------------------------- preservation

  /** `q` is `h` after numbering `frame`: same channels and members, one number further. */
  predicate NumberedFrom(h: Hub, q: Hub, frame: WsFrame) {
    && q.running == h.running && q.chans == h.chans && q.clients == h.clients
    && q.seqNo == h.seqNo + 1 && Number(frame) == q.seqNo && !frame.AckMsg?
    && q.lastJSON == (if frame.TelemetryMsg? then Some(frame) else h.lastJSON)
  }

  lemma BroadcastDelivers(cfg: HubConfig, h: Hub, q: Hub, frame: WsFrame)
    requires Lifecycle(cfg, h) && h.running && Delivers(h)
    requires NumberedFrom(h, q, frame) && Coherent(q)
    ensures Delivers(BroadcastAll(q, frame))
  {
    NoneClosed(cfg, h);
    var p := BroadcastAll(q, frame);
    forall c | 0 <= c < |p.chans| ensures Conserves(p.chans[c], p.seqNo) && UpToDate(p, c) {
      assert ChanOk(h, c) && Conserves(h.chans[c], h.seqNo) && UpToDate(h, c);
      if c in h.clients {
        BroadcastConserves(h.chans[c], frame, h.seqNo);
        OfferedLog(h.chans[c], frame, Broadcast);
      }
    }
  }

  lemma DeliverDelivers(h: Hub, c: nat, frame: WsFrame, kind: Kind)
    requires Delivers(h) && c < |h.chans| && !kind.Broadcast?
    requires frame.TelemetryMsg? ==> h.lastJSON == Some(frame)
    ensures Delivers(Deliver(h, c, frame, kind))
  {
    var p := Deliver(h, c, frame, kind);
    if !h.chans[c].closed {
      OfferedConserves(h.chans[c], frame, kind, h.seqNo);
      OfferedLog(h.chans[c], frame, kind);
      forall d | 0 <= d < |p.chans| ensures Conserves(p.chans[d], p.seqNo) && UpToDate(p, d) {
        assert Conserves(h.chans[d], h.seqNo) && UpToDate(h, d);
      }
    } else {
      assert p == h.(panicked := true);
      forall d | 0 <= d < |p.chans| ensures UpToDate(p, d) {
        assert UpToDate(h, d);
      }
    }
  }

  /** What delivery depends on in a channel: not the reader, nor whether it is closed. */
  predicate SameStream(a: Chan, b: Chan) {
    && a.joined == b.joined && a.joinedAt == b.joinedAt
    && a.queue == b.queue && a.received == b.received && a.log == b.log
  }

  /** What delivery depends on: not on the arm queues, the command queue or the clock. */
  lemma DeliversElsewhere(h: Hub, p: Hub)
    requires Delivers(h) && p.seqNo == h.seqNo
    requires |p.chans| == |h.chans| && forall c :: 0 <= c < |h.chans| ==> SameStream(h.chans[c], p.chans[c])
    requires p.lastJSON == h.lastJSON && p.lastSnap == h.lastSnap
    requires p.running ==> h.running
    requires forall c :: c in p.clients ==> c in h.clients
    requires p.latestSnap == h.latestSnap || Coherent(p)
    ensures Delivers(p)
  {
    forall c | 0 <= c < |p.chans| ensures Conserves(p.chans[c], p.seqNo) && UpToDate(p, c) {
      assert Conserves(h.chans[c], h.seqNo) && UpToDate(h, c) && SameStream(h.chans[c], p.chans[c]);
    }
  }

  lemma SuppressedSnapDelivers(h: Hub, snap: Snapshot)
    requires Delivers(h)
    ensures snap.valid && Suppresses(h, snap) ==> Delivers(h.(latestSnap := Some(snap)))
  {
    if snap.valid && Suppresses(h, snap) {
      DeliversElsewhere(h, h.(latestSnap := Some(snap)));
    }
  }

  lemma NewSnapDelivers(cfg: HubConfig, h: Hub, snap: Snapshot, now: int)
    requires Lifecycle(cfg, h) && h.running && Delivers(h)
    ensures snap.valid ==>
      Delivers(BroadcastAll(NumberedSnap(h, snap, now), TelemetryMsg(h.seqNo + 1, snap)))
  {
    if snap.valid {
      CloseEnoughReflexive(snap);
      BroadcastDelivers(cfg, h, NumberedSnap(h, snap, now), TelemetryMsg(h.seqNo + 1, snap));
    }
  }

  lemma SnapDelivers(cfg: HubConfig, h: Hub, snap: Snapshot, now: int)
    requires Lifecycle(cfg, h) && h.running && Delivers(h)
    ensures Delivers(OnSnap(h, snap, now))
  {
    SnapCases(h, snap, now);
    SuppressedSnapDelivers(h, snap);
    NewSnapDelivers(cfg, h, snap, now);
  }

  lemma NumberedDelivers(cfg: HubConfig, h: Hub, now: int, frame: WsFrame)
    requires Lifecycle(cfg, h) && h.running && Delivers(h)
    requires Number(frame) == h.seqNo + 1 && !frame.AckMsg? && !frame.TelemetryMsg?
    ensures Delivers(BroadcastAll(h.(seqNo := h.seqNo + 1, lastSent := now), frame))
  {
    BroadcastDelivers(cfg, h, h.(seqNo := h.seqNo + 1, lastSent := now), frame);
  }

  lemma JoinDelivers(h: Hub, c: nat)
    requires Delivers(h) && c < |h.chans| && !h.chans[c].joined && c !in h.clients
    ensures var p := Joined(h, c);
      && Coherent(p)
      && forall d :: 0 <= d < |p.chans| ==> Conserves(p.chans[d], p.seqNo) && (d != c ==> UpToDate(p, d))
  {
    var p := Joined(h, c);
    forall d | 0 <= d < |p.chans| ensures Conserves(p.chans[d], p.seqNo) && (d != c ==> UpToDate(p, d)) {
      assert Conserves(h.chans[d], h.seqNo) && UpToDate(h, d);
    }
  }

  lemma RegisterDelivers(cfg: HubConfig, h: Hub)
    requires Lifecycle(cfg, h) && h.running && Delivers(h) && h.register != []
    ensures Delivers(OnRegister(cfg, h.(register := h.register[1..]), h.register[0]))
  {
    RegisterHead(cfg, h);
    var q, c := h.(register := h.register[1..]), h.register[0];
    DeliversElsewhere(h, q);
    if |h.clients| >= cfg.maxClients {
      CloseDelivers(q, c);
    } else {
      JoinDelivers(q, c);
      var p := Joined(q, c);
      assert Numbers(p.chans[c].log) == [] && UpToDate(q, c);
      if h.lastJSON.None? {
        assert UpToDate(p, c);
      } else {
        OfferedConserves(p.chans[c], h.lastJSON.value, Replayed, h.seqNo);
        OfferedLog(p.chans[c], h.lastJSON.value, Replayed);
        var r := Deliver(p, c, h.lastJSON.value, Replayed);
        forall d | 0 <= d < |r.chans| ensures Conserves(r.chans[d], r.seqNo) && UpToDate(r, d) {
          assert Conserves(p.chans[d], p.seqNo) && (d != c ==> UpToDate(p, d));
        }
      }
    }
  }

  lemma CloseDelivers(h: Hub, c: nat)
    requires Delivers(h) && c < |h.chans|
    ensures Delivers(CloseOne(h, c))
  {
    var p := CloseOne(h, c);
    forall d | 0 <= d < |p.chans| ensures Conserves(p.chans[d], p.seqNo) && UpToDate(p, d) {
      assert Conserves(h.chans[d], h.seqNo) && UpToDate(h, d);
    }
  }

  lemma UnregisterDelivers(h: Hub, c: nat)
    requires Delivers(h) && c < |h.chans|
    ensures Delivers(OnUnregister(h, c))
  {
    if c in h.clients {
      var q := h.(clients := h.clients - {c});
      DeliversElsewhere(h, q);
      CloseDelivers(q, c);
    }
  }

  lemma ShutdownDelivers(cfg: HubConfig, h: Hub)
    requires Lifecycle(cfg, h) && h.running && Delivers(h)
    ensures Delivers(CloseAll(h).(running := false))
  {
    NoneClosed(cfg, h);
    var p := CloseAll(h).(running := false);
    forall d | 0 <= d < |p.chans| ensures Conserves(p.chans[d], p.seqNo) && UpToDate(p, d) {
      assert Conserves(h.chans[d], h.seqNo) && UpToDate(h, d);
    }
  }

  lemma ConnectDelivers(cfg: HubConfig, h: Hub)
    requires Lifecycle(cfg, h) && Delivers(h)
    ensures Delivers(OnConnect(h))
  {
    var p := OnConnect(h);
    forall d | 0 <= d < |p.chans| ensures Conserves(p.chans[d], p.seqNo) && UpToDate(p, d) {
      if d < |h.chans| {
        assert Conserves(h.chans[d], h.seqNo) && UpToDate(h, d);
      } else {
        FreshConserves(p.chans[d].reader, p.seqNo);
        assert d !in h.clients;
      }
    }
  }

  lemma FreshConserves(reader: Reader, seqNo: nat)
    ensures Conserves(FreshChan(reader), seqNo) && LastOffered(FreshChan(reader).log) == None
  {
  }

  lemma ReceiveDelivers(h: Hub, c: nat)
    requires Delivers(h) && c < |h.chans| && h.chans[c].queue != []
    ensures Delivers(OnReceive(h, c))
  {
    var ch := h.chans[c];
    var p := OnReceive(h, c);
    assert ch.queue == [ch.queue[0]] + ch.queue[1..];
    forall d | 0 <= d < |p.chans| ensures Conserves(p.chans[d], p.seqNo) && UpToDate(p, d) {
      assert Conserves(h.chans[d], h.seqNo) && UpToDate(h, d);
    }
  }

  lemma ReaderDelivers(h: Hub, c: nat, reader: Reader)
    requires Delivers(h) && c < |h.chans|
    ensures Delivers(WithReader(h, c, reader))
  {
    DeliversElsewhere(h, WithReader(h, c, reader));
  }

  lemma AckDelivers(cfg: HubConfig, h: Hub, c: nat)
    requires Lifecycle(cfg, h) && Delivers(h) && IsAcking(h, c)
    ensures Delivers(OnAck(h, c))
  {
    if h.chans[c].closed {
      DeliversElsewhere(h, OnAck(h, c));
    } else {
      var r := h.chans[c].reader;
      ReaderDelivers(h, c, Reading);
      DeliverDelivers(WithReader(h, c, Reading), c, AckMsg(r.ref, r.ok, r.reason), Reply);
    }
  }

  /** Two states that deliver alike: they differ at most in readers, arm queues and submitted verbs. */
  ghost predicate SameDelivery(h: Hub, p: Hub) {
    && p.running == h.running && p.clients == h.clients && p.seqNo == h.seqNo
    && p.lastJSON == h.lastJSON && p.lastSnap == h.lastSnap && p.latestSnap == h.latestSnap
    && |p.chans| == |h.chans| && forall c :: 0 <= c < |h.chans| ==> SameStream(h.chans[c], p.chans[c])
  }

  lemma ReaderIsNoStream(h: Hub, c: nat, reader: Reader)
    requires c < |h.chans|
    ensures SameDelivery(h, WithReader(h, c, reader))
  {
  }

  lemma MessageIsNoStream(cfg: HubConfig, h: Hub, c: nat, request: Request)
    requires c < |h.chans|
    ensures SameDelivery(h, OnClientMsg(cfg, h, c, request))
  {
    match request
    case BadJson => ReaderIsNoStream(h, c, Acking("", false, "bad json"));
    case UnknownRequest(id) => ReaderIsNoStream(h, c, Acking(id, false, "unknown type"));
    case ResyncRequest =>
    case CommandRequest(id, action, value) => ReaderIsNoStream(h, c, Gated(cfg, h.latestSnap, id, action, value));
  }

  lemma SubmitIsNoStream(h: Hub, c: nat)
    requires c < |h.chans| && h.chans[c].reader.Submitting?
    ensures SameDelivery(h, OnSubmit(h, c))
  {
    SubmittedIsNoStream(h, c, Accepts(h, h.chans[c].reader.command.verb));
  }

  lemma SubmittedIsNoStream(h: Hub, c: nat, accepted: bool)
    requires c < |h.chans| && h.chans[c].reader.Submitting?
    ensures SameDelivery(h, Submitted(h, c, accepted))
  {
  }

  lemma GoneIsNoStream(h: Hub, c: nat)
    requires c < |h.chans|
    ensures SameDelivery(h, OnGone(h, c))
  {
    ReaderIsNoStream(h, c, Ended);
  }

  lemma ReaderChangesNoStream(cfg: HubConfig, h: Hub, e: Event)
    requires e.ClientMsg? || e.ClientSubmits? || e.ClientGone?
    ensures SameDelivery(h, Step(cfg, h, e))
  {
    match e
    case ClientMsg(c, request) =>
      if IsReading(h, c) && !h.panicked {
        MessageIsNoStream(cfg, h, c, request);
      }
    case ClientSubmits(c) =>
      if c < |h.chans| && h.chans[c].reader.Submitting? && !h.panicked {
        SubmitIsNoStream(h, c);
      }
    case ClientGone(c) =>
      if IsReading(h, c) && !h.panicked {
        GoneIsNoStream(h, c);
      }
  }

  lemma ReaderEventDelivers(cfg: HubConfig, h: Hub, e: Event)
    requires Lifecycle(cfg, h) && Delivers(h) && !h.panicked && IsReader(e)
    ensures Delivers(Step(cfg, h, e))
  {
    if e.ClientAcks? {
      if IsAcking(h, e.client) {
        AckDelivers(cfg, h, e.client);
      }
    } else {
      ReaderChangesNoStream(cfg, h, e);
      DeliversElsewhere(h, Step(cfg, h, e));
    }
  }

  lemma QueueArmDelivers(cfg: HubConfig, h: Hub, e: Event)
    requires Lifecycle(cfg, h) && Delivers(h) && !h.panicked && IsQueueArm(e)
    ensures Delivers(Step(cfg, h, e))
  {
    if h.running {
      if e.RegisterArm? && HeadIs(h.register, h) {
        RegisterDelivers(cfg, h);
      } else if e.UnregisterArm? && HeadIs(h.unregister, h) {
        var q := h.(unregister := h.unregister[1..]);
        DeliversElsewhere(h, q);
        UnregisterDelivers(q, h.unregister[0]);
      } else if e.ResyncArm? && HeadIs(h.resync, h) {
        var q := h.(resync := h.resync[1..]);
        DeliversElsewhere(h, q);
        if h.lastJSON.Some? {
          DeliverDelivers(q, h.resync[0], h.lastJSON.value, Replayed);
        }
      } else if e.Shutdown? {
        ShutdownDelivers(cfg, h);
      }
    }
  }

  lemma OutsideDelivers(cfg: HubConfig, h: Hub, e: Event)
    requires Lifecycle(cfg, h) && Delivers(h) && !h.panicked && IsOutside(e)
    ensures Delivers(Step(cfg, h, e))
  {
    match e
    case Connect => ConnectDelivers(cfg, h);
    case ClientReceives(c) =>
      if HasPumps(h, c) && h.chans[c].queue != [] {
        ReceiveDelivers(h, c);
      }
    case SourceTakes => DeliversElsewhere(h, Step(cfg, h, e));
  }

  lemma HeartbeatStep(cfg: HubConfig, h: Hub, now: int)
    ensures OnHeartbeat(cfg, h, now) ==
      if now - h.lastSent < cfg.heartbeat then h
      else BroadcastAll(h.(seqNo := h.seqNo + 1, lastSent := now), HeartbeatMsg(h.seqNo + 1))
  {
  }

  lemma SampleArmDelivers(cfg: HubConfig, h: Hub, bytes: seq<Byte>)
    requires Lifecycle(cfg, h) && h.running && Delivers(h)
    ensures Delivers(BroadcastAll(h.(seqNo := h.seqNo + 1), ScopeMsg(h.seqNo + 1, bytes)))
    ensures Delivers(BroadcastAll(h.(seqNo := h.seqNo + 1), SpectrumMsg(h.seqNo + 1, bytes)))
  {
    assert h.(seqNo := h.seqNo + 1, lastSent := h.lastSent) == h.(seqNo := h.seqNo + 1);
    NumberedDelivers(cfg, h, h.lastSent, ScopeMsg(h.seqNo + 1, bytes));
    NumberedDelivers(cfg, h, h.lastSent, SpectrumMsg(h.seqNo + 1, bytes));
  }

  /** The numbering arms of the live hub, by name. */
  lemma NumberingArmStep(cfg: HubConfig, h: Hub, e: Event)
    requires !h.panicked && IsNumbering(e)
    ensures Step(cfg, h, e) ==
      if !h.running then h
      else if e.SnapArm? then OnSnap(h, e.snap, e.now)
      else if e.ScopeArm? then BroadcastAll(h.(seqNo := h.seqNo + 1), ScopeMsg(h.seqNo + 1, e.samples))
      else if e.SpectrumArm? then BroadcastAll(h.(seqNo := h.seqNo + 1), SpectrumMsg(h.seqNo + 1, e.bins))
      else OnHeartbeat(cfg, h, e.now)
  {
  }

  lemma NumberingArmDelivers(cfg: HubConfig, h: Hub, p: Hub, e: Event)
    requires Lifecycle(cfg, h) && Delivers(h) && !h.panicked && IsNumbering(e)
    requires p == Step(cfg, h, e)
    ensures Delivers(p)
  {
    NumberingArmStep(cfg, h, e);
    if h.running {
      if e.SnapArm? {
        SnapDelivers(cfg, h, e.snap, e.now);
      } else if e.ScopeArm? {
        SampleArmDelivers(cfg, h, e.samples);
      } else if e.SpectrumArm? {
        SampleArmDelivers(cfg, h, e.bins);
      } else {
        HeartbeatStep(cfg, h, e.now);
        NumberedDelivers(cfg, h, e.now, HeartbeatMsg(h.seqNo + 1));
      }
    }
  }

  /** In every run: conservation per client, coherence with the meter, and an up-to-date last offer. */
  lemma {:induction false} DeliveryInvariant(cfg: HubConfig, start: int, es: seq<Event>)
    ensures Delivers(Run(cfg, start, es))
  {
    if es != [] {
      var before, e := Run(cfg, start, es[..|es| - 1]), es[|es| - 1];
      DeliveryInvariant(cfg, start, es[..|es| - 1]);
      LifecycleInvariant(cfg, start, es[..|es| - 1]);
      if !before.panicked {
        if IsQueueArm(e) {
          QueueArmDelivers(cfg, before, e);
        } else if IsReader(e) {
          ReaderEventDelivers(cfg, before, e);
        } else if IsOutside(e) {
          OutsideDelivers(cfg, before, e);
        } else {
          NumberingArmDelivers(cfg, before, Step(cfg, before, e), e);
        }
      }
    }
  }

  // ----------------------------------------------------------- consequences

  /** The valid snapshots served while the hub was live, in order. */
  function Received(cfg: HubConfig, start: int, es: seq<Event>): seq<Snapshot> {
    if es == [] then []
    else
      var h, e := Run(cfg, start, es[..|es| - 1]), es[|es| - 1];
      Received(cfg, start, es[..|es| - 1])
      + if e.SnapArm? && e.snap.valid && h.running && !h.panicked then [e.snap] else []
  }

  /** Only the snapshot arm touches the remembered snapshots. */
  lemma OtherStepsKeepSnaps(cfg: HubConfig, h: Hub, e: Event)
    requires !e.SnapArm?
    ensures Step(cfg, h, e).latestSnap == h.latestSnap && Step(cfg, h, e).lastSnap == h.lastSnap
  {
    if e.ClientMsg? || e.ClientSubmits? || e.ClientGone? {
      ReaderChangesNoStream(cfg, h, e);
    } else if IsNumbering(e) {
      OtherNumberingKeepsSnaps(cfg, h, e);
    }
  }

  lemma OtherNumberingKeepsSnaps(cfg: HubConfig, h: Hub, e: Event)
    requires IsNumbering(e) && !e.SnapArm?
    ensures Step(cfg, h, e).latestSnap == h.latestSnap && Step(cfg, h, e).lastSnap == h.lastSnap
  {
  }

  lemma SnapStepKeepsSnaps(cfg: HubConfig, h: Hub, snap: Snapshot, now: int)
    ensures var p := Step(cfg, h, SnapArm(snap, now));
      if snap.valid && h.running && !h.panicked then
        p.latestSnap == Some(snap) && p.lastSnap == (if Suppresses(h, snap) then h.lastSnap else Some(snap))
      else p.latestSnap == h.latestSnap && p.lastSnap == h.lastSnap
  {
  }

  /** The latest snapshot is the last one received, and the broadcast one is among them. */
  lemma {:induction false} RemembersReceived(cfg: HubConfig, start: int, es: seq<Event>)
    ensures var h, r := Run(cfg, start, es), Received(cfg, start, es);
      && h.latestSnap == (if r == [] then None else Some(r[|r| - 1]))
      && (h.lastSnap.Some? ==> h.lastSnap.value in r)
  {
    if es != [] {
      var init, e := es[..|es| - 1], es[|es| - 1];
      RemembersReceived(cfg, start, init);
      if e.SnapArm? {
        SnapStepKeepsSnaps(cfg, Run(cfg, start, init), e.snap, e.now);
      } else {
        OtherStepsKeepSnaps(cfg, Run(cfg, start, init), e);
      }
    }
  }

  /**
   Suppressed snapshots never add up: in every run the broadcast snapshot is one of those received, close to
   the last of them, and exactly what lastJSON encodes.
   */
  lemma NoDrift(cfg: HubConfig, start: int, es: seq<Event>)
    ensures var h, r := Run(cfg, start, es), Received(cfg, start, es);
      if r == [] then h.lastSnap.None? && h.lastJSON.None?
      else
        && h.lastSnap.Some? && h.lastSnap.value in r && CloseEnough(h.lastSnap.value, r[|r| - 1])
        && h.lastJSON.Some? && h.lastJSON.value.TelemetryMsg? && h.lastJSON.value.snap == h.lastSnap.value
  {
    DeliveryInvariant(cfg, start, es);
    RemembersReceived(cfg, start, es);
  }

  /**
   On the wire: when the broadcast and the latest snapshot were decoded from frames `f` and `g` (with the
   status texts the router put in), the frames agree to within two counts of each power and exactly otherwise.
   */
  lemma NoDriftInCounts(
    cfg: HubConfig, start: int, es: seq<Event>, f: Frame, g: Frame, a: seq<Byte>, b: seq<Byte>)
    requires DecodeOf(f).Decoded? && DecodeOf(g).Decoded? && Received(cfg, start, es) != []
    requires Run(cfg, start, es).lastSnap == Some(DecodeOf(f).snap.(statusMessage := a))
    requires var r := Received(cfg, start, es); r[|r| - 1] == DecodeOf(g).snap.(statusMessage := b)
    ensures Within2(U16(f[25], f[26]), U16(g[25], g[26]))
    ensures Within2(U16(f[23], f[24]), U16(g[23], g[24]))
    ensures Within2(U16(f[0], f[1]), U16(g[0], g[1]))
    ensures Floored(U16(f[2], f[37])) == Floored(U16(g[2], g[37])) && a == b
  {
    NoDrift(cfg, start, es);
    CloseEnoughInCounts(f, g, a, b);
  }

  /** Every registered client was last offered the current snapshot, dropped or not. */
  lemma ClientsWereOfferedTheState(cfg: HubConfig, start: int, es: seq<Event>, c: nat)
    requires var h := Run(cfg, start, es); h.running && c in h.clients
    ensures var h := Run(cfg, start, es); c < |h.chans| && LastOffered(h.chans[c].log) == h.lastJSON
  {
    DeliveryInvariant(cfg, start, es);
    LifecycleInvariant(cfg, start, es);
    assert UpToDate(Run(cfg, start, es), c);
  }

  lemma {:induction false} IntervalAt(a: nat, n: nat, k: nat)
    requires k < n
    ensures |Interval(a, n)| == n && Interval(a, n)[k] == a + k + 1
    decreases n
  {
    if n == 1 {
      assert Interval(a, 0) == [];
    } else if k < n - 1 {
      IntervalAt(a, n - 1, k);
    } else {
      IntervalAt(a, n - 1, n - 2);
    }
  }

  lemma {:induction false} NumbersPrefix(log: seq<Delivery>, p: nat)
    requires p <= |log|
    ensures Numbers(log[..p]) <= Numbers(log)
    decreases |log| - p
  {
    if p == |log| {
      assert log[..p] == log;
    } else {
      NumbersPrefix(log, p + 1);
      assert log[..p + 1][..p] == log[..p];
    }
  }

  /** In every run, a broadcast on a channel carries the number of its place in the client's stream. */
  lemma BroadcastNumber(cfg: HubConfig, start: int, es: seq<Event>, c: nat, p: nat)
    requires var h := Run(cfg, start, es);
      c < |h.chans| && p < |h.chans[c].log| && h.chans[c].log[p].kind.Broadcast?
    ensures var ch := Run(cfg, start, es).chans[c];
      Number(ch.log[p].frame) == ch.joinedAt + |Numbers(ch.log[..p])| + 1
  {
    DeliveryInvariant(cfg, start, es);
    var ch := Run(cfg, start, es).chans[c];
    assert Conserves(ch, Run(cfg, start, es).seqNo);
    NumberAt(ch, p);
  }

  lemma NumberAt(ch: Chan, p: nat)
    requires Numbers(ch.log) == Interval(ch.joinedAt, |Numbers(ch.log)|)
    requires p < |ch.log| && ch.log[p].kind.Broadcast?
    ensures Number(ch.log[p].frame) == ch.joinedAt + |Numbers(ch.log[..p])| + 1
  {
    NumbersPrefix(ch.log, p + 1);
    assert ch.log[..p + 1][..p] == ch.log[..p];
    var k := |Numbers(ch.log[..p])|;
    assert Numbers(ch.log[..p + 1])[k] == Number(ch.log[p].frame);
    IntervalAt(ch.joinedAt, |Numbers(ch.log)|, k);
  }

  /** The broadcasts a full channel dropped. */
  function Drops(log: seq<Delivery>): nat {
    if log == [] then 0
    else
      var d := log[|log| - 1];
      Drops(log[..|log| - 1]) + if d.kind.Broadcast? && !d.queued then 1 else 0
  }

  lemma {:induction false} AllDropped(log: seq<Delivery>)
    requires forall k :: 0 <= k < |log| && log[k].kind.Broadcast? ==> !log[k].queued
    ensures |Numbers(log)| == Drops(log)
  {
    if log != [] {
      AllDropped(log[..|log| - 1]);
    }
  }

  lemma GapInChannel(ch: Chan, p: nat, q: nat)
    requires Numbers(ch.log) == Interval(ch.joinedAt, |Numbers(ch.log)|)
    requires p < q < |ch.log| && ch.log[p].kind.Broadcast? && ch.log[q].kind.Broadcast?
    ensures Number(ch.log[q].frame) == Number(ch.log[p].frame) + |Numbers(ch.log[p + 1..q])| + 1
  {
    NumberAt(ch, p);
    NumberAt(ch, q);
    NumbersSplit(ch.log[..p + 1], ch.log[p + 1..q]);
    assert ch.log[..p + 1] + ch.log[p + 1..q] == ch.log[..q];
    assert ch.log[..p + 1][..p] == ch.log[..p];
  }

  /** `q` is the next broadcast after `p` that got into the queue. */
  predicate NextQueued(log: seq<Delivery>, p: nat, q: nat) {
    && p < q < |log| && log[p].kind.Broadcast? && log[q].kind.Broadcast?
    && forall k :: p < k < q && log[k].kind.Broadcast? ==> !log[k].queued
  }

  /**
   In every run, the numbers of two broadcasts that follow each other in a client's queue differ by one
   more than the broadcasts dropped between them: a gap counts the drops.
   */
  lemma GapCountsDrops(cfg: HubConfig, start: int, es: seq<Event>, c: nat, p: nat, q: nat)
    requires var h := Run(cfg, start, es); c < |h.chans| && NextQueued(h.chans[c].log, p, q)
    ensures var log := Run(cfg, start, es).chans[c].log;
      Number(log[q].frame) == Number(log[p].frame) + Drops(log[p + 1..q]) + 1
  {
    DeliveryInvariant(cfg, start, es);
    var h := Run(cfg, start, es);
    assert Conserves(h.chans[c], h.seqNo);
    GapInChannel(h.chans[c], p, q);
    AllDropped(h.chans[c].log[p + 1..q]);
  }

  lemma {:induction false} NumbersSplit(a: seq<Delivery>, b: seq<Delivery>)
    ensures Numbers(a + b) == Numbers(a) + Numbers(b)
  {
    if b == [] {
      assert a + b == a;
    } else {
      NumbersSplit(a, b[..|b| - 1]);
      assert (a + b)[..|a + b| - 1] == a + b[..|b| - 1];
    }
  }
}
