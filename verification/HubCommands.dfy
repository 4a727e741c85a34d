/**
 Control verbs in every run of the hub: an ack says ok exactly for the verbs the source accepted, they reach
 the meter's queue in order, and none passed the gate on a snapshot that forbids it.
 */
module HubCommands {
  import opened Wrappers
  import opened Snapshots
  import opened Decoding
  import opened Hub
  import opened HubLifecycle
  import opened HubDelivery
  import OwnerLoop

  // ------------------------------------------------------------- one message

  predicate Locked(latest: Option<Snapshot>, action: string) {
    latest.Some? && latest.value.autoChannel && (action == "range_step" || action == "alarm_toggle")
  }

  /** What a client refused at the gates is told, by the first rule that refuses it. */
  function GateReason(cfg: HubConfig, action: string): string {
    if !cfg.allowControl then "control disabled"
    else if action == "range_step" then RANGE_REASON
    else ALARM_REASON
  }

  /** A command passes the gates exactly if control is on and the meter would act on it; else a nack follows. */
  lemma GateAnswers(cfg: HubConfig, h: Hub, c: nat, id: string, action: string, value: Option<int>)
    requires !h.panicked && IsReading(h, c)
    ensures var r := Step(cfg, h, ClientMsg(c, CommandRequest(id, action, value))).chans[c].reader;
      r == if cfg.allowControl && !Locked(h.latestSnap, action)
           then Submitting(id, OwnerLoop.Command(action, if value.Some? then value.value else -1), h.latestSnap)
           else Acking(id, false, GateReason(cfg, action))
  {
    GateIsLock(h.latestSnap, action);
  }

  lemma GateIsLock(latest: Option<Snapshot>, action: string)
    ensures VerbAvailableInState(action, latest) != "" <==> Locked(latest, action)
    ensures Locked(latest, action) ==>
      VerbAvailableInState(action, latest) == if action == "range_step" then RANGE_REASON else ALARM_REASON
  {
  }

  /** The submit queues the verb exactly if it is known and there is room, and the ack to come says so. */
  lemma SubmitAnswers(cfg: HubConfig, h: Hub, c: nat)
    requires !h.panicked && c < |h.chans| && h.chans[c].reader.Submitting?
    ensures var (p, r) := (Step(cfg, h, ClientSubmits(c)), h.chans[c].reader);
      && c < |p.chans| && p.chans[c].reader.Acking? && p.chans[c].reader.ref == r.ref
      && (p.chans[c].reader.ok <==> r.command.verb in KNOWN_VERBS && |h.commands| < OwnerLoop.QUEUE_SIZE)
      && p.commands == (if p.chans[c].reader.ok then h.commands + [r.command] else h.commands)
      && p.submitted == (if p.chans[c].reader.ok then h.submitted + [Submission(c, r.ref, r.command, r.seen)]
                         else h.submitted)
  {
    assert Step(cfg, h, ClientSubmits(c)) == OnSubmit(h, c);
  }

  // -------------------------------------------------------------- invariants

  /** The requests acked with ok on a channel, queued or dropped. */
  function OkAcks(log: seq<Delivery>): seq<string> {
    if log == [] then []
    else
      var f := log[|log| - 1].frame;
      OkAcks(log[..|log| - 1]) + if f.AckMsg? && f.ok then [f.ref] else []
  }

  /** The ok ack a reader is about to send. */
  function PendingOk(r: Reader): seq<string> {
    if r.Acking? && r.ok then [r.ref] else []
  }

  /** The requests of client `c` whose verbs were accepted. */
  function Accepted(submitted: seq<Submission>, c: nat): seq<string> {
    if submitted == [] then []
    else
      var s := submitted[|submitted| - 1];
      Accepted(submitted[..|submitted| - 1], c) + if s.client == c then [s.ref] else []
  }

  function CommandsOf(submitted: seq<Submission>): (commands: seq<OwnerLoop.Command>)
    ensures |commands| == |submitted|
  {
    seq(|submitted|, i requires 0 <= i < |submitted| => submitted[i].command)
  }

  predicate AckedOk(ch: Chan, submitted: seq<Submission>, c: nat) {
    OkAcks(ch.log) + PendingOk(ch.reader) == Accepted(submitted, c)
  }

  /** The verbs accepted are, in order, those the source took and those still queued. */
  predicate InOrder(h: Hub) {
    h.taken + h.commands == CommandsOf(h.submitted) && |h.commands| <= OwnerLoop.QUEUE_SIZE
  }

  ghost predicate Honest(h: Hub) {
    && InOrder(h)
    && (forall i :: 0 <= i < |h.submitted| ==> h.submitted[i].client < |h.chans|)
    && (forall c :: 0 <= c < |h.chans| ==> AckedOk(h.chans[c], h.submitted, c))
  }

  // ------------------------------------------------------------ preservation

  /** A channel's ok acks and pending ack are as they were. */
  predicate SameAcks(a: Chan, b: Chan) {
    OkAcks(a.log) == OkAcks(b.log) && PendingOk(a.reader) == PendingOk(b.reader)
  }

  lemma HonestElsewhere(h: Hub, p: Hub)
    requires Honest(h) && p.submitted == h.submitted && p.commands == h.commands && p.taken == h.taken
    requires |p.chans| == |h.chans| && forall c :: 0 <= c < |h.chans| ==> SameAcks(h.chans[c], p.chans[c])
    ensures Honest(p)
  {
    forall c | 0 <= c < |p.chans| ensures AckedOk(p.chans[c], p.submitted, c) {
      assert AckedOk(h.chans[c], h.submitted, c) && SameAcks(h.chans[c], p.chans[c]);
    }
  }

  lemma OfferedAcks(ch: Chan, frame: WsFrame, kind: Kind)
    ensures OkAcks(Offered(ch, frame, kind).log) ==
            OkAcks(ch.log) + if frame.AckMsg? && frame.ok then [frame.ref] else []
  {
    assert Offered(ch, frame, kind).log[..|ch.log|] == ch.log;
  }

  /** A frame that is no ack, to one client or to all. */
  lemma DeliverHonest(h: Hub, c: nat, frame: WsFrame, kind: Kind)
    requires Honest(h) && c < |h.chans| && !frame.AckMsg?
    ensures Honest(Deliver(h, c, frame, kind))
  {
    OfferedAcks(h.chans[c], frame, kind);
    HonestElsewhere(h, Deliver(h, c, frame, kind));
  }

  lemma BroadcastHonest(h: Hub, frame: WsFrame)
    requires Honest(h) && !frame.AckMsg?
    ensures Honest(BroadcastAll(h, frame))
  {
    var p := BroadcastAll(h, frame);
    forall c | 0 <= c < |h.chans| ensures SameAcks(h.chans[c], p.chans[c]) {
      BroadcastSameAcks(h, frame, c);
    }
    HonestElsewhere(h, p);
  }

  lemma BroadcastSameAcks(h: Hub, frame: WsFrame, c: nat)
    requires c < |h.chans| && !frame.AckMsg?
    ensures |BroadcastAll(h, frame).chans| == |h.chans| && SameAcks(h.chans[c], BroadcastAll(h, frame).chans[c])
  {
    OfferedAcks(h.chans[c], frame, Broadcast);
  }

  lemma NumberingArmHonest(cfg: HubConfig, h: Hub, e: Event)
    requires Honest(h) && !h.panicked && IsNumbering(e)
    ensures Honest(Step(cfg, h, e))
  {
    NumberingArmStep(cfg, h, e);
    if h.running {
      match e {
        case SnapArm(snap, now) => SnapHonest(h, snap, now);
        case ScopeArm(samples) => NumberedHonest(h, h.lastSent, ScopeMsg(h.seqNo + 1, samples));
        case SpectrumArm(bins) => NumberedHonest(h, h.lastSent, SpectrumMsg(h.seqNo + 1, bins));
        case HeartbeatArm(now) =>
          HeartbeatStep(cfg, h, now);
          NumberedHonest(h, now, HeartbeatMsg(h.seqNo + 1));
      }
    }
  }

  lemma NumberedHonest(h: Hub, now: int, frame: WsFrame)
    requires Honest(h) && !frame.AckMsg?
    ensures Honest(BroadcastAll(h.(seqNo := h.seqNo + 1, lastSent := now), frame))
    ensures now == h.lastSent ==> Honest(BroadcastAll(h.(seqNo := h.seqNo + 1), frame))
  {
    var q := h.(seqNo := h.seqNo + 1, lastSent := now);
    HonestElsewhere(h, q);
    BroadcastHonest(q, frame);
    assert now == h.lastSent ==> q == h.(seqNo := h.seqNo + 1);
  }

  lemma NewSnapHonest(h: Hub, snap: Snapshot, now: int)
    requires Honest(h)
    ensures Honest(BroadcastAll(NumberedSnap(h, snap, now), TelemetryMsg(h.seqNo + 1, snap)))
  {
    HonestElsewhere(h, NumberedSnap(h, snap, now));
    BroadcastHonest(NumberedSnap(h, snap, now), TelemetryMsg(h.seqNo + 1, snap));
  }

  lemma SuppressedHonest(h: Hub, snap: Snapshot)
    requires Honest(h)
    ensures Honest(h.(latestSnap := Some(snap)))
  {
    HonestElsewhere(h, h.(latestSnap := Some(snap)));
  }

  lemma SnapHonest(h: Hub, snap: Snapshot, now: int)
    requires Honest(h)
    ensures Honest(OnSnap(h, snap, now))
  {
    SnapCases(h, snap, now);
    SuppressedHonest(h, snap);
    NewSnapHonest(h, snap, now);
  }

  lemma RegisterHonest(cfg: HubConfig, h: Hub, c: nat)
    requires Honest(h) && c < |h.chans| && (h.lastJSON.Some? ==> !h.lastJSON.value.AckMsg?)
    ensures Honest(OnRegister(cfg, h, c))
  {
    if |h.clients| >= cfg.maxClients {
      HonestElsewhere(h, CloseOne(h, c));
    } else {
      HonestElsewhere(h, Joined(h, c));
      if h.lastJSON.Some? {
        DeliverHonest(Joined(h, c), c, h.lastJSON.value, Replayed);
      }
    }
  }

  lemma RegisterArmHonest(cfg: HubConfig, h: Hub)
    requires Honest(h) && Coherent(h) && HeadIs(h.register, h)
    ensures Honest(OnRegister(cfg, h.(register := h.register[1..]), h.register[0]))
  {
    HonestElsewhere(h, h.(register := h.register[1..]));
    RegisterHonest(cfg, h.(register := h.register[1..]), h.register[0]);
  }

  lemma UnregisterArmHonest(h: Hub)
    requires Honest(h) && HeadIs(h.unregister, h)
    ensures Honest(OnUnregister(h.(unregister := h.unregister[1..]), h.unregister[0]))
  {
    HonestElsewhere(h, OnUnregister(h.(unregister := h.unregister[1..]), h.unregister[0]));
  }

  lemma ResyncArmHonest(h: Hub)
    requires Honest(h) && Coherent(h) && HeadIs(h.resync, h)
    ensures Honest(OnResync(h.(resync := h.resync[1..]), h.resync[0]))
  {
    HonestElsewhere(h, h.(resync := h.resync[1..]));
    if h.lastJSON.Some? {
      DeliverHonest(h.(resync := h.resync[1..]), h.resync[0], h.lastJSON.value, Replayed);
    }
  }

  lemma ShutdownHonest(h: Hub)
    requires Honest(h)
    ensures Honest(CloseAll(h).(running := false))
  {
    HonestElsewhere(h, CloseAll(h).(running := false));
  }

  lemma QueueArmHonest(cfg: HubConfig, h: Hub, e: Event)
    requires Honest(h) && Coherent(h) && !h.panicked && IsQueueArm(e)
    ensures Honest(Step(cfg, h, e))
  {
    if e.RegisterArm? && HeadIs(h.register, h) {
      RegisterArmHonest(cfg, h);
    } else if e.UnregisterArm? && HeadIs(h.unregister, h) {
      UnregisterArmHonest(h);
    } else if e.ResyncArm? && HeadIs(h.resync, h) {
      ResyncArmHonest(h);
    } else if e.Shutdown? {
      ShutdownHonest(h);
    }
  }

  /** A reader that goes on without a pending ok ack. */
  lemma ReaderHonest(h: Hub, c: nat, reader: Reader)
    requires Honest(h) && c < |h.chans|
    requires PendingOk(h.chans[c].reader) == PendingOk(reader)
    ensures Honest(WithReader(h, c, reader))
  {
    HonestElsewhere(h, WithReader(h, c, reader));
  }

  lemma MessageHonest(cfg: HubConfig, h: Hub, c: nat, request: Request)
    requires Honest(h) && IsReading(h, c)
    ensures Honest(OnClientMsg(cfg, h, c, request))
  {
    match request
    case BadJson => ReaderHonest(h, c, Acking("", false, "bad json"));
    case UnknownRequest(id) => ReaderHonest(h, c, Acking(id, false, "unknown type"));
    case ResyncRequest => HonestElsewhere(h, OnClientMsg(cfg, h, c, request));
    case CommandRequest(id, action, value) => ReaderHonest(h, c, Gated(cfg, h.latestSnap, id, action, value));
  }

  lemma GoneHonest(h: Hub, c: nat)
    requires Honest(h) && IsReading(h, c)
    ensures Honest(OnGone(h, c))
  {
    ReaderHonest(h, c, Ended);
    HonestElsewhere(WithReader(h, c, Ended), OnGone(h, c));
  }

  lemma AcceptedSnoc(submitted: seq<Submission>, s: Submission, c: nat)
    ensures Accepted(submitted + [s], c) == Accepted(submitted, c) + if s.client == c then [s.ref] else []
    ensures CommandsOf(submitted + [s]) == CommandsOf(submitted) + [s.command]
  {
    assert (submitted + [s])[..|submitted|] == submitted;
  }

  /** An accepted submission is recorded, queued and answered with ok. */
  lemma AcceptHonest(h: Hub, p: Hub, s: Submission)
    requires Honest(h) && s.client < |h.chans| && |h.commands| < OwnerLoop.QUEUE_SIZE
    requires PendingOk(h.chans[s.client].reader) == []
    requires p.submitted == h.submitted + [s] && p.commands == h.commands + [s.command] && p.taken == h.taken
    requires p.chans == h.chans[s.client := h.chans[s.client].(reader := Acking(s.ref, true, ""))]
    ensures Honest(p)
  {
    AcceptedSnoc(h.submitted, s, s.client);
    assert h.taken + (h.commands + [s.command]) == (h.taken + h.commands) + [s.command];
    forall d | 0 <= d < |p.chans| ensures AckedOk(p.chans[d], p.submitted, d) {
      assert AckedOk(h.chans[d], h.submitted, d);
      AcceptAcked(h.chans[d], p.chans[d], h.submitted, s, d);
    }
  }

  lemma AcceptAcked(a: Chan, b: Chan, submitted: seq<Submission>, s: Submission, c: nat)
    requires AckedOk(a, submitted, c) && a.log == b.log
    requires if s.client == c then PendingOk(a.reader) == [] && PendingOk(b.reader) == [s.ref] else a.reader == b.reader
    ensures AckedOk(b, submitted + [s], c)
  {
    AcceptedSnoc(submitted, s, c);
  }

  lemma SubmitHonest(h: Hub, c: nat)
    requires Honest(h) && c < |h.chans| && h.chans[c].reader.Submitting?
    ensures Honest(OnSubmit(h, c))
  {
    var r := h.chans[c].reader;
    if Accepts(h, r.command.verb) {
      AcceptHonest(h, OnSubmit(h, c), Submission(c, r.ref, r.command, r.seen));
    } else {
      ReaderHonest(h, c, Acking(r.ref, false, REFUSED));
    }
  }

  lemma AckHonest(h: Hub, c: nat)
    requires Honest(h) && IsAcking(h, c)
    ensures Honest(OnAck(h, c))
  {
    var (ch, r) := (h.chans[c], h.chans[c].reader);
    if ch.closed {
      HonestElsewhere(h, OnAck(h, c));
    } else {
      OfferedAcks(ch.(reader := Reading), AckMsg(r.ref, r.ok, r.reason), Reply);
      var p := OnAck(h, c);
      forall d | 0 <= d < |p.chans| ensures AckedOk(p.chans[d], p.submitted, d) {
        assert AckedOk(h.chans[d], h.submitted, d);
      }
    }
  }

  lemma ReaderEventHonest(cfg: HubConfig, h: Hub, e: Event)
    requires Honest(h) && !h.panicked && IsReader(e)
    ensures Honest(Step(cfg, h, e))
  {
    match e
    case ClientMsg(c, request) =>
      if IsReading(h, c) {
        MessageHonest(cfg, h, c, request);
      }
    case ClientSubmits(c) =>
      if c < |h.chans| && h.chans[c].reader.Submitting? {
        SubmitHonest(h, c);
      }
    case ClientAcks(c) =>
      if IsAcking(h, c) {
        AckHonest(h, c);
      }
    case ClientGone(c) =>
      if IsReading(h, c) {
        GoneHonest(h, c);
      }
  }

  /** A client nobody submitted for. */
  lemma {:induction false} NothingAccepted(submitted: seq<Submission>, c: nat)
    requires forall i :: 0 <= i < |submitted| ==> submitted[i].client != c
    ensures Accepted(submitted, c) == []
  {
    if submitted != [] {
      NothingAccepted(submitted[..|submitted| - 1], c);
    }
  }

  lemma OutsideHonest(cfg: HubConfig, h: Hub, e: Event)
    requires Honest(h) && !h.panicked && IsOutside(e)
    ensures Honest(Step(cfg, h, e))
  {
    match e
    case Connect => ConnectHonest(h);
    case ClientReceives(c) => HonestElsewhere(h, Step(cfg, h, e));
    case SourceTakes =>
      var p := Step(cfg, h, e);
      if h.commands != [] {
        assert h.taken + h.commands == (h.taken + [h.commands[0]]) + h.commands[1..];
      }
      forall c | 0 <= c < |p.chans| ensures AckedOk(p.chans[c], p.submitted, c) {
        assert AckedOk(h.chans[c], h.submitted, c);
      }
  }

  lemma ConnectHonest(h: Hub)
    requires Honest(h)
    ensures Honest(OnConnect(h))
  {
    var p := OnConnect(h);
    NothingAccepted(h.submitted, |h.chans|);
    forall c | 0 <= c < |p.chans| ensures AckedOk(p.chans[c], p.submitted, c) {
      if c < |h.chans| {
        assert AckedOk(h.chans[c], h.submitted, c);
      }
    }
  }

  lemma {:induction false} HonestInRun(cfg: HubConfig, start: int, es: seq<Event>)
    ensures Honest(Run(cfg, start, es))
  {
    if es == [] {
      assert CommandsOf([]) == [];
    } else {
      var before, e := Run(cfg, start, es[..|es| - 1]), es[|es| - 1];
      HonestInRun(cfg, start, es[..|es| - 1]);
      DeliveryInvariant(cfg, start, es[..|es| - 1]);
      if !before.panicked {
        if IsQueueArm(e) {
          QueueArmHonest(cfg, before, e);
        } else if IsReader(e) {
          ReaderEventHonest(cfg, before, e);
        } else if IsOutside(e) {
          OutsideHonest(cfg, before, e);
        } else {
          NumberingArmHonest(cfg, before, e);
        }
      }
    }
  }

  /**
   In every run, under every interleaving: a client's ok acks, sent or about to be, name exactly its requests
   whose verbs were accepted, in order; and all accepted verbs are, in order, those the source took and the
   at most 16 still queued.
   */
  lemma AcksTellTheTruth(cfg: HubConfig, start: int, es: seq<Event>, c: nat)
    requires c < |Run(cfg, start, es).chans|
    ensures var (h, ch) := (Run(cfg, start, es), Run(cfg, start, es).chans[c]);
      && OkAcks(ch.log) + PendingOk(ch.reader) == Accepted(h.submitted, c)
      && h.taken + h.commands == CommandsOf(h.submitted) && |h.commands| <= OwnerLoop.QUEUE_SIZE
  {
    HonestInRun(cfg, start, es);
    assert AckedOk(Run(cfg, start, es).chans[c], Run(cfg, start, es).submitted, c);
  }

  // -------------------------------------------------------------- the gate

  /** The last valid snapshot received by then. */
  function LatestValid(cfg: HubConfig, start: int, es: seq<Event>): Option<Snapshot> {
    var r := Received(cfg, start, es);
    if r == [] then None else Some(r[|r| - 1])
  }

  /** The message that starts a command; a missing value is sent as -1. */
  predicate Asks(e: Event, client: nat, ref: string, command: OwnerLoop.Command) {
    && e.ClientMsg? && e.client == client && e.request.CommandRequest?
    && e.request.id == ref && e.request.action == command.verb
    && command.value == if e.request.value.Some? then e.request.value.value else -1
  }

  /** Event `k` is the message of this command, and `seen` is the last valid snapshot received before it. */
  predicate GatedAt(
    cfg: HubConfig, start: int, es: seq<Event>, k: nat,
    client: nat, ref: string, command: OwnerLoop.Command, seen: Option<Snapshot>)
  {
    && k < |es| && Asks(es[k], client, ref, command)
    && IsReading(Run(cfg, start, es[..k]), client)
    && seen == LatestValid(cfg, start, es[..k])
  }

  /** The command came with some message of the run, whose gate looked at `seen` and let it pass. */
  ghost predicate PassedGate(
    cfg: HubConfig, start: int, es: seq<Event>,
    client: nat, ref: string, command: OwnerLoop.Command, seen: Option<Snapshot>)
  {
    cfg.allowControl && !Locked(seen, command.verb)
    && exists k: nat | k < |es| :: GatedAt(cfg, start, es, k, client, ref, command, seen)
  }

  ghost predicate ReaderPassed(cfg: HubConfig, start: int, es: seq<Event>, c: nat, r: Reader) {
    r.Submitting? ==> PassedGate(cfg, start, es, c, r.ref, r.command, r.seen)
  }

  ghost predicate SubmissionPassed(cfg: HubConfig, start: int, es: seq<Event>, s: Submission) {
    s.command.verb in KNOWN_VERBS && PassedGate(cfg, start, es, s.client, s.ref, s.command, s.seen)
  }

  ghost predicate AllPassed(cfg: HubConfig, start: int, es: seq<Event>, h: Hub) {
    && (forall c :: 0 <= c < |h.chans| ==> ReaderPassed(cfg, start, es, c, h.chans[c].reader))
    && (forall i :: 0 <= i < |h.submitted| ==> SubmissionPassed(cfg, start, es, h.submitted[i]))
  }

  lemma PassedLater(
    cfg: HubConfig, start: int, es: seq<Event>, e: Event,
    client: nat, ref: string, command: OwnerLoop.Command, seen: Option<Snapshot>)
    requires PassedGate(cfg, start, es, client, ref, command, seen)
    ensures PassedGate(cfg, start, es + [e], client, ref, command, seen)
  {
    var k: nat :| k < |es| && GatedAt(cfg, start, es, k, client, ref, command, seen);
    assert (es + [e])[..k] == es[..k];
    assert GatedAt(cfg, start, es + [e], k, client, ref, command, seen);
  }

  lemma AllPassedLater(cfg: HubConfig, start: int, es: seq<Event>, e: Event, h: Hub)
    requires AllPassed(cfg, start, es, h)
    ensures AllPassed(cfg, start, es + [e], h)
  {
    forall c | 0 <= c < |h.chans| ensures ReaderPassed(cfg, start, es + [e], c, h.chans[c].reader) {
      var r := h.chans[c].reader;
      assert ReaderPassed(cfg, start, es, c, r);
      if r.Submitting? {
        PassedLater(cfg, start, es, e, c, r.ref, r.command, r.seen);
      }
    }
    forall i | 0 <= i < |h.submitted| ensures SubmissionPassed(cfg, start, es + [e], h.submitted[i]) {
      var s := h.submitted[i];
      assert SubmissionPassed(cfg, start, es, s);
      PassedLater(cfg, start, es, e, s.client, s.ref, s.command, s.seen);
    }
  }

  /** The event lets this reader pass the gate. */
  predicate LetsPass(cfg: HubConfig, h: Hub, e: Event, c: nat, r: Reader) {
    && r.Submitting? && Asks(e, c, r.ref, r.command) && IsReading(h, c)
    && cfg.allowControl && !Locked(h.latestSnap, r.command.verb) && r.seen == h.latestSnap
  }

  /** A reader about to submit was so before, or the event is its message. */
  lemma GateStep(cfg: HubConfig, h: Hub, e: Event, c: nat)
    requires !h.panicked && c < |Step(cfg, h, e).chans|
    ensures var r := Step(cfg, h, e).chans[c].reader;
      r.Submitting? ==> (c < |h.chans| && r == h.chans[c].reader) || LetsPass(cfg, h, e, c, r)
  {
    if e.Connect? {
    } else if c < |h.chans| && IsReader(e) && e.client == c {
      OwnGateStep(cfg, h, e);
    } else {
      ClientsOnlyConnect(cfg, h, e);
      OthersKeepReaders(cfg, h, e, c);
    }
  }

  lemma ClientsOnlyConnect(cfg: HubConfig, h: Hub, e: Event)
    requires !e.Connect?
    ensures |Step(cfg, h, e).chans| == |h.chans|
  {
    if h.chans != [] {
      if IsReader(e) && e.client == 0 {
        if HasPumps(h, 0) {
          OwnEventKeepsPumps(cfg, h, e);
        }
      } else {
        OthersKeepReaders(cfg, h, e, 0);
      }
    }
  }

  lemma OwnGateStep(cfg: HubConfig, h: Hub, e: Event)
    requires !h.panicked && IsReader(e) && e.client < |h.chans|
    ensures var p := Step(cfg, h, e); e.client < |p.chans| && var r := p.chans[e.client].reader;
      r.Submitting? ==> r == h.chans[e.client].reader || LetsPass(cfg, h, e, e.client, r)
  {
    if e.ClientMsg? && IsReading(h, e.client) && e.request.CommandRequest? {
      GateAnswers(cfg, h, e.client, e.request.id, e.request.action, e.request.value);
    }
  }

  /** The verbs on their way: queued for the source, taken by it, and all ever accepted. */
  predicate SameVerbs(h: Hub, p: Hub) {
    p.commands == h.commands && p.taken == h.taken && p.submitted == h.submitted
  }

  lemma QueueArmKeepsVerbs(cfg: HubConfig, h: Hub, e: Event)
    requires IsQueueArm(e)
    ensures SameVerbs(h, Step(cfg, h, e))
  {
  }

  lemma NumberingArmKeepsVerbs(cfg: HubConfig, h: Hub, e: Event)
    requires IsNumbering(e)
    ensures SameVerbs(h, Step(cfg, h, e))
  {
  }

  lemma ReaderKeepsVerbs(cfg: HubConfig, h: Hub, e: Event)
    requires IsReader(e) && !e.ClientSubmits?
    ensures SameVerbs(h, Step(cfg, h, e))
  {
  }

  /** Only a submit and the source move verbs. */
  lemma OthersKeepVerbs(cfg: HubConfig, h: Hub, e: Event)
    requires !e.ClientSubmits? && !e.SourceTakes?
    ensures SameVerbs(h, Step(cfg, h, e))
  {
    if IsQueueArm(e) {
      QueueArmKeepsVerbs(cfg, h, e);
    } else if IsNumbering(e) {
      NumberingArmKeepsVerbs(cfg, h, e);
    } else if IsReader(e) {
      ReaderKeepsVerbs(cfg, h, e);
    }
  }

  lemma SubmissionStep(cfg: HubConfig, h: Hub, e: Event)
    ensures var p := Step(cfg, h, e);
      || p.submitted == h.submitted
      || (e.ClientSubmits? && e.client < |h.chans| && h.chans[e.client].reader.Submitting?
          && var r := h.chans[e.client].reader;
          && r.command.verb in KNOWN_VERBS
          && p.submitted == h.submitted + [Submission(e.client, r.ref, r.command, r.seen)])
  {
    if !e.ClientSubmits? && !e.SourceTakes? {
      OthersKeepVerbs(cfg, h, e);
    }
  }

  /** The reader that passes now passed at the last event of the run. */
  lemma PassesNow(cfg: HubConfig, start: int, es: seq<Event>, e: Event, c: nat, r: Reader)
    requires LetsPass(cfg, Run(cfg, start, es), e, c, r)
    requires Run(cfg, start, es).latestSnap == LatestValid(cfg, start, es)
    ensures ReaderPassed(cfg, start, es + [e], c, r)
  {
    assert (es + [e])[..|es|] == es;
    assert GatedAt(cfg, start, es + [e], |es|, c, r.ref, r.command, r.seen);
  }

  lemma ReadersPassed(cfg: HubConfig, start: int, es: seq<Event>, e: Event, h: Hub, c: nat)
    requires h == Run(cfg, start, es) && !h.panicked && h.latestSnap == LatestValid(cfg, start, es)
    requires AllPassed(cfg, start, es + [e], h) && c < |Step(cfg, h, e).chans|
    ensures ReaderPassed(cfg, start, es + [e], c, Step(cfg, h, e).chans[c].reader)
  {
    var r := Step(cfg, h, e).chans[c].reader;
    GateStep(cfg, h, e, c);
    if LetsPass(cfg, h, e, c, r) {
      PassesNow(cfg, start, es, e, c, r);
    } else if r.Submitting? {
      assert ReaderPassed(cfg, start, es + [e], c, h.chans[c].reader);
    }
  }

  lemma SubmissionsPassed(cfg: HubConfig, start: int, es: seq<Event>, e: Event, h: Hub)
    requires AllPassed(cfg, start, es, h)
    ensures var p := Step(cfg, h, e);
      forall i :: 0 <= i < |p.submitted| ==> SubmissionPassed(cfg, start, es, p.submitted[i])
  {
    var p := Step(cfg, h, e);
    SubmissionStep(cfg, h, e);
    forall i | 0 <= i < |p.submitted| ensures SubmissionPassed(cfg, start, es, p.submitted[i]) {
      if i < |h.submitted| {
        assert SubmissionPassed(cfg, start, es, h.submitted[i]);
      } else {
        assert ReaderPassed(cfg, start, es, e.client, h.chans[e.client].reader);
      }
    }
  }

  lemma GatesNext(cfg: HubConfig, start: int, es: seq<Event>, e: Event, h: Hub)
    requires h == Run(cfg, start, es) && h.latestSnap == LatestValid(cfg, start, es)
    requires AllPassed(cfg, start, es, h)
    ensures AllPassed(cfg, start, es + [e], Step(cfg, h, e))
  {
    AllPassedLater(cfg, start, es, e, h);
    if !h.panicked {
      var p := Step(cfg, h, e);
      forall c | 0 <= c < |p.chans| ensures ReaderPassed(cfg, start, es + [e], c, p.chans[c].reader) {
        ReadersPassed(cfg, start, es, e, h, c);
      }
      SubmissionsPassed(cfg, start, es + [e], e, h);
    }
  }

  lemma {:induction false} GatesInRun(cfg: HubConfig, start: int, es: seq<Event>)
    ensures AllPassed(cfg, start, es, Run(cfg, start, es))
  {
    if es != [] {
      var init, e := es[..|es| - 1], es[|es| - 1];
      GatesInRun(cfg, start, init);
      RemembersReceived(cfg, start, init);
      GatesNext(cfg, start, init, e, Run(cfg, start, init));
      assert init + [e] == es;
    }
  }

  /**
   In every run, every verb the source accepted is known and came with a message of that client and request;
   control was on, and the last valid snapshot received before that message did not lock the setting.
   */
  lemma OnlyAllowedVerbsAreSubmitted(cfg: HubConfig, start: int, es: seq<Event>, i: nat)
    requires i < |Run(cfg, start, es).submitted|
    ensures var s := Run(cfg, start, es).submitted[i];
      && cfg.allowControl && s.command.verb in KNOWN_VERBS && !Locked(s.seen, s.command.verb)
      && exists k: nat | k < |es| :: GatedAt(cfg, start, es, k, s.client, s.ref, s.command, s.seen)
  {
    GatesInRun(cfg, start, es);
    assert SubmissionPassed(cfg, start, es, Run(cfg, start, es).submitted[i]);
  }
}
