/**
 The fan-out hub: one goroutine that owns the client set and serves its select arms one at a time, and the
 client goroutines around it. `Hub` is the whole state as a value, `Step` is one atomic event. Events may
 come in any order; one that is not enabled leaves the state as it is, so every sequence is a run.
 A send on, or a close of, a closed channel panics and ends the program.
 */
module Hub {
  import opened Wire
  import opened Wrappers
  import opened Snapshots
  import opened Decoding
  import OwnerLoop

  const SEND_BUFFER: nat := 32
  const ARM_BUFFER: nat := 16

  /** Encoded frames, as what they encode. */
  datatype WsFrame =
    | TelemetryMsg(n: nat, snap: Snapshot)
    | HeartbeatMsg(n: nat)
    | ScopeMsg(n: nat, samples: seq<Byte>)
    | SpectrumMsg(n: nat, bins: seq<Byte>)
    | AckMsg(ref: string, ok: bool, reason: string)

  datatype Kind = Broadcast | Replayed | Reply

  /** One attempted send on a client's channel; it is dropped when the channel is full. */
  datatype Delivery = Delivery(frame: WsFrame, kind: Kind, queued: bool)

  /**
   Where a client's reader stands: it never started, waits for a message, has a command that passed the
   gates with the snapshot it loaded, is about to send an ack, or has ended and said so.
   */
  datatype Reader =
    | Unstarted
    | Reading
    | Submitting(ref: string, command: OwnerLoop.Command, seen: Option<Snapshot>)
    | Acking(ref: string, ok: bool, reason: string)
    | Ended

  /** A client's send channel, with the record of every attempted send and of what was received. */
  datatype Chan = Chan(
    reader: Reader, closed: bool, closes: nat, joined: bool, joinedAt: nat,
    queue: seq<WsFrame>, received: seq<WsFrame>, log: seq<Delivery>)

  /** A verb the source accepted: from whom, for which request, and the snapshot the gate looked at. */
  datatype Submission = Submission(client: nat, ref: string, command: OwnerLoop.Command, seen: Option<Snapshot>)

  datatype HubConfig = HubConfig(maxClients: nat, allowControl: bool, heartbeat: nat)

  /** A client is its index in `chans`. */
  datatype Hub = Hub(
    running: bool, panicked: bool,
    chans: seq<Chan>, clients: set<nat>,
    register: seq<nat>, unregister: seq<nat>, resync: seq<nat>,
    lastJSON: Option<WsFrame>, lastSnap: Option<Snapshot>, latestSnap: Option<Snapshot>,
    lastSent: int, seqNo: nat,
    commands: seq<OwnerLoop.Command>, taken: seq<OwnerLoop.Command>, submitted: seq<Submission>)

  datatype Request =
    | BadJson
    | CommandRequest(id: string, action: string, value: Option<int>)
    | ResyncRequest
    | UnknownRequest(id: string)

  datatype Event =
    | Connect
    | RegisterArm
    | UnregisterArm
    | ResyncArm
    | SnapArm(snap: Snapshot, now: int)
    | ScopeArm(samples: seq<Byte>)
    | SpectrumArm(bins: seq<Byte>)
    | HeartbeatArm(now: int)
    | Shutdown
    | ClientMsg(client: nat, request: Request)
    | ClientSubmits(client: nat)
    | ClientAcks(client: nat)
    | ClientGone(client: nat)
    | ClientReceives(client: nat)
    | SourceTakes

  function Init(now: int): Hub {
    Hub(true, false, [], {}, [], [], [], None, None, None, now, 0, [], [], [])
  }

  // ------------------------------------------------------------- channels

  function Offered(ch: Chan, frame: WsFrame, kind: Kind): Chan {
    if |ch.queue| < SEND_BUFFER then
      ch.(queue := ch.queue + [frame], log := ch.log + [Delivery(frame, kind, true)])
    else ch.(log := ch.log + [Delivery(frame, kind, false)])
  }

  function Closed(ch: Chan): Chan {
    ch.(closed := true, closes := ch.closes + 1)
  }

  function Deliver(h: Hub, c: nat, frame: WsFrame, kind: Kind): Hub
    requires c < |h.chans|
  {
    if h.chans[c].closed then h.(panicked := true)
    else h.(chans := h.chans[c := Offered(h.chans[c], frame, kind)])
  }

  function CloseOne(h: Hub, c: nat): Hub
    requires c < |h.chans|
  {
    if h.chans[c].closed then h.(panicked := true) else h.(chans := h.chans[c := Closed(h.chans[c])])
  }

  predicate AnyClosed(h: Hub) {
    exists c | c in h.clients :: c < |h.chans| && h.chans[c].closed
  }

  /** The next sequence number on one frame, attempted on every registered client. */
  function BroadcastAll(h: Hub, frame: WsFrame): Hub {
    if AnyClosed(h) then h.(panicked := true)
    else h.(chans := seq(|h.chans|, i requires 0 <= i < |h.chans| =>
                           if i in h.clients then Offered(h.chans[i], frame, Broadcast) else h.chans[i]))
  }

  function CloseAll(h: Hub): Hub {
    if AnyClosed(h) then h.(panicked := true)
    else h.(chans := seq(|h.chans|, i requires 0 <= i < |h.chans| =>
                           if i in h.clients then Closed(h.chans[i]) else h.chans[i]))
  }

  // ----------------------------------------------------------------- arms

  function Joined(h: Hub, c: nat): Hub
    requires c < |h.chans|
  {
    h.(clients := h.clients + {c}, chans := h.chans[c := h.chans[c].(joined := true, joinedAt := h.seqNo)])
  }

  function OnRegister(cfg: HubConfig, h: Hub, c: nat): Hub
    requires c < |h.chans|
  {
    if |h.clients| >= cfg.maxClients then CloseOne(h, c)
    else
      var joined := Joined(h, c);
      if h.lastJSON.Some? then Deliver(joined, c, h.lastJSON.value, Replayed) else joined
  }

  function OnUnregister(h: Hub, c: nat): Hub
    requires c < |h.chans|
  {
    if c in h.clients then CloseOne(h.(clients := h.clients - {c}), c) else h
  }

  function OnResync(h: Hub, c: nat): Hub
    requires c < |h.chans|
  {
    if h.lastJSON.Some? then Deliver(h, c, h.lastJSON.value, Replayed) else h
  }

  predicate Suppresses(h: Hub, snap: Snapshot) {
    h.lastSnap.Some? && CloseEnough(h.lastSnap.value, snap)
  }

  /** The hub after numbering a snapshot outside the deadband, before the frame goes out. */
  function NumberedSnap(h: Hub, snap: Snapshot, now: int): Hub {
    h.(latestSnap := Some(snap), seqNo := h.seqNo + 1, lastSnap := Some(snap),
       lastJSON := Some(TelemetryMsg(h.seqNo + 1, snap)), lastSent := now)
  }

  function OnSnap(h: Hub, snap: Snapshot, now: int): Hub {
    if !snap.valid then h
    else if Suppresses(h, snap) then h.(latestSnap := Some(snap))
    else BroadcastAll(NumberedSnap(h, snap, now), TelemetryMsg(h.seqNo + 1, snap))
  }

  /** The three outcomes of a snapshot: ignored, remembered or broadcast. */
  lemma SnapCases(h: Hub, snap: Snapshot, now: int)
    ensures var p := OnSnap(h, snap, now);
      || p == h
      || (p == h.(latestSnap := Some(snap)) && snap.valid && Suppresses(h, snap))
      || (p == BroadcastAll(NumberedSnap(h, snap, now), TelemetryMsg(h.seqNo + 1, snap)) && snap.valid)
  {
  }

  function OnHeartbeat(cfg: HubConfig, h: Hub, now: int): Hub {
    if now - h.lastSent < cfg.heartbeat then h
    else BroadcastAll(h.(seqNo := h.seqNo + 1, lastSent := now), HeartbeatMsg(h.seqNo + 1))
  }

  // -------------------------------------------------------------- clients

  function FreshChan(reader: Reader): Chan {
    Chan(reader, false, 0, false, 0, [], [], [])
  }

  function OnConnect(h: Hub): Hub {
    if |h.register| < ARM_BUFFER then
      h.(chans := h.chans + [FreshChan(Reading)], register := h.register + [|h.chans|])
    else h.(chans := h.chans + [FreshChan(Unstarted)])
  }

  function WithReader(h: Hub, c: nat, reader: Reader): Hub
    requires c < |h.chans|
  {
    h.(chans := h.chans[c := h.chans[c].(reader := reader)])
  }

  /** The gates of a command, up to the load of the latest snapshot. */
  function Gated(cfg: HubConfig, latest: Option<Snapshot>, id: string, action: string, value: Option<int>): Reader {
    if !cfg.allowControl then Acking(id, false, "control disabled")
    else if VerbAvailableInState(action, latest) != "" then
      Acking(id, false, VerbAvailableInState(action, latest))
    else Submitting(id, OwnerLoop.Command(action, if value.Some? then value.value else -1), latest)
  }

  function OnClientMsg(cfg: HubConfig, h: Hub, c: nat, request: Request): Hub
    requires c < |h.chans|
  {
    match request
    case BadJson => WithReader(h, c, Acking("", false, "bad json"))
    case UnknownRequest(id) => WithReader(h, c, Acking(id, false, "unknown type"))
    case ResyncRequest => if |h.resync| < ARM_BUFFER then h.(resync := h.resync + [c]) else h
    case CommandRequest(id, action, value) => WithReader(h, c, Gated(cfg, h.latestSnap, id, action, value))
  }

  predicate Accepts(h: Hub, action: string) {
    action in KNOWN_VERBS && |h.commands| < OwnerLoop.QUEUE_SIZE
  }

  /** The submit of a gated command; the answer is the ack to send. */
  function OnSubmit(h: Hub, c: nat): Hub
    requires c < |h.chans| && h.chans[c].reader.Submitting?
  {
    Submitted(h, c, Accepts(h, h.chans[c].reader.command.verb))
  }

  const REFUSED := "command queue full or unknown action"

  function Submitted(h: Hub, c: nat, accepted: bool): Hub
    requires c < |h.chans| && h.chans[c].reader.Submitting?
  {
    var r := h.chans[c].reader;
    if accepted then
      WithReader(h.(commands := h.commands + [r.command],
                    submitted := h.submitted + [Submission(c, r.ref, r.command, r.seen)]),
                 c, Acking(r.ref, true, ""))
    else WithReader(h, c, Acking(r.ref, false, REFUSED))
  }

  /** The ack goes out and the reader waits for the next message, unless the send panics. */
  function OnAck(h: Hub, c: nat): Hub
    requires c < |h.chans| && h.chans[c].reader.Acking?
  {
    var r := h.chans[c].reader;
    if h.chans[c].closed then h.(panicked := true)
    else Deliver(WithReader(h, c, Reading), c, AckMsg(r.ref, r.ok, r.reason), Reply)
  }

  /** The reader ends; its unregister request is dropped when the queue is full. */
  function OnGone(h: Hub, c: nat): Hub
    requires c < |h.chans|
  {
    var p := WithReader(h, c, Ended);
    if |h.unregister| < ARM_BUFFER then p.(unregister := h.unregister + [c]) else p
  }

  function OnReceive(h: Hub, c: nat): Hub
    requires c < |h.chans| && h.chans[c].queue != []
  {
    var ch := h.chans[c];
    h.(chans := h.chans[c := ch.(queue := ch.queue[1..], received := ch.received + [ch.queue[0]])])
  }

  /** The client's goroutines were started: it got into the register queue when it connected. */
  predicate HasPumps(h: Hub, c: nat) {
    c < |h.chans| && !h.chans[c].reader.Unstarted?
  }

  predicate IsReading(h: Hub, c: nat) {
    c < |h.chans| && h.chans[c].reader.Reading?
  }

  predicate HeadIs(arm: seq<nat>, h: Hub) {
    arm != [] && arm[0] < |h.chans|
  }

  function Step(cfg: HubConfig, h: Hub, e: Event): Hub {
    if h.panicked then h
    else match e
      case Connect => OnConnect(h)
      case RegisterArm =>
        if h.running && HeadIs(h.register, h) then OnRegister(cfg, h.(register := h.register[1..]), h.register[0]) else h
      case UnregisterArm =>
        if h.running && HeadIs(h.unregister, h) then OnUnregister(h.(unregister := h.unregister[1..]), h.unregister[0])
        else h
      case ResyncArm =>
        if h.running && HeadIs(h.resync, h) then OnResync(h.(resync := h.resync[1..]), h.resync[0]) else h
      case SnapArm(snap, now) => if h.running then OnSnap(h, snap, now) else h
      case ScopeArm(samples) =>
        if h.running then BroadcastAll(h.(seqNo := h.seqNo + 1), ScopeMsg(h.seqNo + 1, samples)) else h
      case SpectrumArm(bins) =>
        if h.running then BroadcastAll(h.(seqNo := h.seqNo + 1), SpectrumMsg(h.seqNo + 1, bins)) else h
      case HeartbeatArm(now) => if h.running then OnHeartbeat(cfg, h, now) else h
      case Shutdown => if h.running then CloseAll(h).(running := false) else h
      case ClientMsg(c, request) => if IsReading(h, c) then OnClientMsg(cfg, h, c, request) else h
      case ClientSubmits(c) => if c < |h.chans| && h.chans[c].reader.Submitting? then OnSubmit(h, c) else h
      case ClientAcks(c) => if c < |h.chans| && h.chans[c].reader.Acking? then OnAck(h, c) else h
      case ClientGone(c) => if IsReading(h, c) then OnGone(h, c) else h
      case ClientReceives(c) => if HasPumps(h, c) && h.chans[c].queue != [] then OnReceive(h, c) else h
      case SourceTakes =>
        if h.commands != [] then h.(commands := h.commands[1..], taken := h.taken + [h.commands[0]]) else h
  }

  /** The state after more events. */
  function RunFrom(cfg: HubConfig, h: Hub, es: seq<Event>): Hub {
    if es == [] then h else Step(cfg, RunFrom(cfg, h, es[..|es| - 1]), es[|es| - 1])
  }

  function Run(cfg: HubConfig, start: int, es: seq<Event>): Hub {
    RunFrom(cfg, Init(start), es)
  }

  lemma RunSnoc(cfg: HubConfig, start: int, es: seq<Event>, e: Event)
    ensures Run(cfg, start, es + [e]) == Step(cfg, Run(cfg, start, es), e)
  {
    assert (es + [e])[..|es|] == es;
  }

  lemma RunNext(cfg: HubConfig, start: int, es: seq<Event>, k: nat)
    requires k < |es|
    ensures Run(cfg, start, es[..k + 1]) == Step(cfg, Run(cfg, start, es[..k]), es[k])
  {
    assert es[..k + 1][..k] == es[..k];
  }
}
