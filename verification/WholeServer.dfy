/**
 The owner and the hub together: the hub submits into the owner's verb queue, and the owner's telemetry reaches
 the hub through a channel that drops when it is full. Every run of the two is a run of each, so what was
 proved of the halves holds of the whole; here is what holds across them.
 */
module WholeServer {
  import opened Wire
  import opened Wrappers
  import opened Snapshots
  import opened Decoding
  import opened Router
  import opened RouterHistory
  import opened HubDelivery
  import opened HubCommands
  import H = Hub
  import O = OwnerLoop

  const SNAP_BUFFER: nat := 8

  datatype Setup = Setup(hub: H.HubConfig, wiring: Config, start: int)

  /** A telemetry frame, the snapshot the router offered for it, and whether the channel had room. */
  datatype Reading = Reading(frame: Frame, snap: Snapshot, queued: bool)

  /** The events of the two halves so far, the channel between them, and all telemetry ever offered. */
  datatype Joint = Joint(hubRun: seq<H.Event>, ownerRun: seq<O.Event>, snapCh: seq<Snapshot>, readings: seq<Reading>)

  datatype Event =
    | HubDoes(hubEvent: H.Event)
    | ClientSubmits(client: nat)
    | ServesSnap(now: int)
    | OwnerDoes(ownerEvent: O.Event)
    | OwnerTakes(writeOk: bool)
    | FrameArrives(frame: Frame)

  function HubOf(s: Setup, j: Joint): H.Hub {
    H.Run(s.hub, s.start, j.hubRun)
  }

  function OwnerOf(s: Setup, j: Joint): (o: O.Owner)
    ensures ValidRouter(o.router)
  {
    O.Replay(s.wiring, O.Init(), j.ownerRun)
  }

  /** Events that concern one half only. */
  predicate HubAlone(e: H.Event) {
    !e.SnapArm? && !e.ClientSubmits? && !e.SourceTakes?
  }

  predicate OwnerAlone(e: O.Event) {
    !e.Submit? && !e.Receive? && !e.Take?
  }

  /** A telemetry frame's snapshot is offered to the channel. */
  function OfferReading(j: Joint, frame: Frame, offer: Offer): Joint {
    if !offer.Telemetry? then j
    else
      var room := |j.snapCh| < SNAP_BUFFER;
      j.(snapCh := if room then j.snapCh + [offer.snap] else j.snapCh,
         readings := j.readings + [Reading(frame, offer.snap, room)])
  }

  predicate IsSubmitting(h: H.Hub, c: nat) {
    c < |h.chans| && h.chans[c].reader.Submitting?
  }

  function JointStep(s: Setup, j: Joint, e: Event): Joint {
    var h, o := HubOf(s, j), OwnerOf(s, j);
    if h.panicked then j
    else match e
      case HubDoes(he) => if HubAlone(he) then j.(hubRun := j.hubRun + [he]) else j
      case ClientSubmits(c) =>
        if IsSubmitting(h, c) then
          j.(hubRun := j.hubRun + [H.ClientSubmits(c)], ownerRun := j.ownerRun + [O.Submit(h.chans[c].reader.command)])
        else j
      case ServesSnap(now) =>
        if h.running && j.snapCh != [] then
          j.(hubRun := j.hubRun + [H.SnapArm(j.snapCh[0], now)], snapCh := j.snapCh[1..])
        else j
      case OwnerDoes(oe) => if OwnerAlone(oe) then j.(ownerRun := j.ownerRun + [oe]) else j
      case OwnerTakes(writeOk) =>
        if o.phase.Draining? && o.queue != [] then
          j.(hubRun := j.hubRun + [H.SourceTakes], ownerRun := j.ownerRun + [O.Take(writeOk)])
        else j
      case FrameArrives(frame) =>
        if o.phase.Idle? then
          OfferReading(j.(ownerRun := j.ownerRun + [O.Receive(ShapeOf(frame))]), frame,
                       Route(s.wiring, o.router, ShapeOf(frame)).1)
        else j
  }

  function RunJoint(s: Setup, es: seq<Event>): Joint {
    if es == [] then Joint([], [], [], []) else JointStep(s, RunJoint(s, es[..|es| - 1]), es[|es| - 1])
  }

  // ------------------------------------------------------------------ verbs

  /** The hub's account of the verbs is the owner's. */
  predicate AgreeOnVerbs(h: H.Hub, o: O.Owner) {
    h.commands == o.queue && CommandsOf(h.submitted) == o.accepted && h.taken == O.Commands(o.taken)
  }

  lemma OwnerAloneKeepsVerbs(c: Config, o: O.Owner, e: O.Event)
    requires ValidRouter(o.router) && !e.Submit? && !e.Take?
    ensures var p := O.Step(c, o, e); p.queue == o.queue && p.accepted == o.accepted && p.taken == o.taken
  {
  }

  /** A gated verb enters both accounts or neither. */
  lemma SubmitKeepsVerbs(s: Setup, h: H.Hub, o: O.Owner, c: nat)
    requires AgreeOnVerbs(h, o) && ValidRouter(o.router) && !h.panicked && IsSubmitting(h, c)
    ensures AgreeOnVerbs(H.Step(s.hub, h, H.ClientSubmits(c)), O.Step(s.wiring, o, O.Submit(h.chans[c].reader.command)))
  {
    var r := h.chans[c].reader;
    SubmitAnswers(s.hub, h, c);
    AcceptedSnoc(h.submitted, H.Submission(c, r.ref, r.command, r.seen), c);
  }

  lemma TakenSnoc(taken: seq<O.Taken>, t: O.Taken)
    ensures O.Commands(taken + [t]) == O.Commands(taken) + [t.command]
  {
  }

  lemma TakeKeepsVerbs(s: Setup, h: H.Hub, o: O.Owner, writeOk: bool)
    requires AgreeOnVerbs(h, o) && ValidRouter(o.router) && !h.panicked && o.phase.Draining? && o.queue != []
    ensures AgreeOnVerbs(H.Step(s.hub, h, H.SourceTakes), O.Step(s.wiring, o, O.Take(writeOk)))
  {
    var p := O.TakeOne(o, writeOk);
    O.TakeRecords(o, writeOk);
    TakenSnoc(o.taken, p.taken[|o.taken|]);
  }

  ghost predicate VerbsAgree(s: Setup, j: Joint) {
    AgreeOnVerbs(HubOf(s, j), OwnerOf(s, j))
  }

  lemma HubEventVerbs(s: Setup, j: Joint, e: H.Event)
    requires VerbsAgree(s, j) && !e.ClientSubmits? && !e.SourceTakes?
    ensures VerbsAgree(s, j.(hubRun := j.hubRun + [e]))
  {
    H.RunSnoc(s.hub, s.start, j.hubRun, e);
    OthersKeepVerbs(s.hub, HubOf(s, j), e);
  }

  lemma OwnerEventVerbs(s: Setup, j: Joint, e: O.Event)
    requires VerbsAgree(s, j) && !e.Submit? && !e.Take?
    ensures VerbsAgree(s, j.(ownerRun := j.ownerRun + [e]))
  {
    O.ReplaySnoc(s.wiring, O.Init(), j.ownerRun, e);
    OwnerAloneKeepsVerbs(s.wiring, OwnerOf(s, j), e);
  }

  lemma SubmitVerbs(s: Setup, j: Joint, c: nat)
    requires VerbsAgree(s, j) && !HubOf(s, j).panicked && IsSubmitting(HubOf(s, j), c)
    ensures VerbsAgree(s, j.(hubRun := j.hubRun + [H.ClientSubmits(c)],
                             ownerRun := j.ownerRun + [O.Submit(HubOf(s, j).chans[c].reader.command)]))
  {
    var command := HubOf(s, j).chans[c].reader.command;
    H.RunSnoc(s.hub, s.start, j.hubRun, H.ClientSubmits(c));
    O.ReplaySnoc(s.wiring, O.Init(), j.ownerRun, O.Submit(command));
    SubmitKeepsVerbs(s, HubOf(s, j), OwnerOf(s, j), c);
  }

  lemma TakeVerbs(s: Setup, j: Joint, writeOk: bool)
    requires VerbsAgree(s, j) && !HubOf(s, j).panicked
    requires OwnerOf(s, j).phase.Draining? && OwnerOf(s, j).queue != []
    ensures VerbsAgree(s, j.(hubRun := j.hubRun + [H.SourceTakes], ownerRun := j.ownerRun + [O.Take(writeOk)]))
  {
    H.RunSnoc(s.hub, s.start, j.hubRun, H.SourceTakes);
    O.ReplaySnoc(s.wiring, O.Init(), j.ownerRun, O.Take(writeOk));
    TakeKeepsVerbs(s, HubOf(s, j), OwnerOf(s, j), writeOk);
  }

  /** The channel between the halves carries no verbs. */
  lemma ChannelHasNoVerbs(s: Setup, j: Joint, p: Joint)
    requires VerbsAgree(s, j) && p.hubRun == j.hubRun && p.ownerRun == j.ownerRun
    ensures VerbsAgree(s, p)
  {
  }

  lemma VerbsStep(s: Setup, j: Joint, e: Event)
    requires VerbsAgree(s, j)
    ensures VerbsAgree(s, JointStep(s, j, e))
  {
    var h, o, p := HubOf(s, j), OwnerOf(s, j), JointStep(s, j, e);
    if p != j {
      match e {
        case HubDoes(he) => HubEventVerbs(s, j, he);
        case ClientSubmits(c) => SubmitVerbs(s, j, c);
        case ServesSnap(now) =>
          HubEventVerbs(s, j, H.SnapArm(j.snapCh[0], now));
          ChannelHasNoVerbs(s, j.(hubRun := j.hubRun + [H.SnapArm(j.snapCh[0], now)]), p);
        case OwnerDoes(oe) => OwnerEventVerbs(s, j, oe);
        case OwnerTakes(writeOk) => TakeVerbs(s, j, writeOk);
        case FrameArrives(frame) =>
          OwnerEventVerbs(s, j, O.Receive(ShapeOf(frame)));
          ChannelHasNoVerbs(s, j.(ownerRun := j.ownerRun + [O.Receive(ShapeOf(frame))]), p);
      }
    }
  }

  lemma {:induction false} VerbsInRun(s: Setup, es: seq<Event>)
    ensures var j := RunJoint(s, es); AgreeOnVerbs(HubOf(s, j), OwnerOf(s, j))
  {
    if es == [] {
      assert CommandsOf([]) == [] && O.Commands([]) == [];
    } else {
      VerbsInRun(s, es[..|es| - 1]);
      VerbsStep(s, RunJoint(s, es[..|es| - 1]), es[|es| - 1]);
    }
  }

  /** The requests acked ok to client `c`, or about to be. */
  function AckedOf(h: H.Hub, c: nat): seq<string>
    requires c < |h.chans|
  {
    OkAcks(h.chans[c].log) + PendingOk(h.chans[c].reader)
  }

  /** A verb the owner took was written, or lost by the write that ended the run. */
  predicate WrittenOrLost(t: O.Taken) {
    t.fate.Sent? || t.fate.LostOnWrite?
  }

  /**
   From the ack to the meter, in every run: each client is acked ok for exactly its accepted requests, in order;
   all accepted verbs are, in order, those the owner took and then those still queued; every verb taken was
   written or lost, at most one lost per failed run; and since the device was opened the control reports the
   meter got are those of the verbs written, in order.
   */
  lemma AckedVerbsReachTheMeter(s: Setup, es: seq<Event>, c: nat)
    requires c < |HubOf(s, RunJoint(s, es)).chans|
    ensures var (h, o) := (HubOf(s, RunJoint(s, es)), OwnerOf(s, RunJoint(s, es)));
      && AckedOf(h, c) == Accepted(h.submitted, c)
      && CommandsOf(h.submitted) == O.Commands(o.taken) + o.queue && |o.queue| <= O.QUEUE_SIZE
      && (forall i :: 0 <= i < |o.taken| ==> WrittenOrLost(o.taken[i]))
      && O.CountLost(o.taken) <= o.failures
      && o.takenAtOpen <= |o.taken| && O.Controls(o.outs) == O.Encoded(o.taken[o.takenAtOpen..])
  {
    var j := RunJoint(s, es);
    VerbsInRun(s, es);
    AcksTellTheTruth(s.hub, s.start, j.hubRun, c);
    O.OwnerInvariant(s.wiring, j.ownerRun);
  }

  // -------------------------------------------------------------- telemetry

  /** The snapshots that found room in the channel. */
  function Queued(readings: seq<Reading>): seq<Snapshot> {
    if readings == [] then []
    else
      var (before, r) := (Queued(readings[..|readings| - 1]), readings[|readings| - 1]);
      if r.queued then before + [r.snap] else before
  }

  lemma QueuedSnoc(readings: seq<Reading>, r: Reading)
    ensures Queued(readings + [r]) == if r.queued then Queued(readings) + [r.snap] else Queued(readings)
  {
    assert (readings + [r])[..|readings|] == readings;
  }

  /** The snapshot is the frame's, but for the status text, and sound. */
  predicate IsReadingOf(r: Reading) {
    && DecodeOf(r.frame).Decoded? && Sound(r.snap)
    && r.snap == DecodeOf(r.frame).snap.(statusMessage := r.snap.statusMessage)
  }

  /** The latest telemetry of the owner's run is the last one offered. */
  ghost predicate LastIsOffered(o: O.Owner, readings: seq<Reading>) {
    LastReading(o.ins).Some? ==>
      && readings != []
      && readings[|readings| - 1].snap == LastReading(o.ins).value.(statusMessage := LastStatus(o.ins))
  }

  /** What the hub received and what waits in the channel are the readings that found room, in order. */
  ghost predicate ChannelOk(received: seq<Snapshot>, snapCh: seq<Snapshot>, readings: seq<Reading>) {
    && received + snapCh == Queued(readings) && |snapCh| <= SNAP_BUFFER
    && forall k :: 0 <= k < |snapCh| ==> snapCh[k].valid
  }

  ghost predicate ReadingsOk(readings: seq<Reading>) {
    forall i :: 0 <= i < |readings| ==> IsReadingOf(readings[i])
  }

  ghost predicate OwnerOk(c: Config, o: O.Owner, readings: seq<Reading>) {
    LastIsOffered(o, readings) && O.RoutesHistory(c, o)
  }

  ghost predicate Forwards(s: Setup, j: Joint) {
    && ChannelOk(Received(s.hub, s.start, j.hubRun), j.snapCh, j.readings)
    && ReadingsOk(j.readings)
    && OwnerOk(s.wiring, OwnerOf(s, j), j.readings)
  }

  lemma ServeChannel(received: seq<Snapshot>, snapCh: seq<Snapshot>, readings: seq<Reading>)
    requires ChannelOk(received, snapCh, readings) && snapCh != []
    ensures snapCh[0].valid && ChannelOk(received + [snapCh[0]], snapCh[1..], readings)
  {
    assert received + [snapCh[0]] + snapCh[1..] == received + snapCh;
  }

  lemma OfferChannel(received: seq<Snapshot>, snapCh: seq<Snapshot>, readings: seq<Reading>, r: Reading)
    requires ChannelOk(received, snapCh, readings) && r.snap.valid && r.queued == (|snapCh| < SNAP_BUFFER)
    ensures ChannelOk(received, if r.queued then snapCh + [r.snap] else snapCh, readings + [r])
  {
    QueuedSnoc(readings, r);
    assert received + (snapCh + [r.snap]) == received + snapCh + [r.snap];
  }

  lemma ReceivedSnoc(s: Setup, hubRun: seq<H.Event>, e: H.Event)
    ensures var h := H.Run(s.hub, s.start, hubRun);
      Received(s.hub, s.start, hubRun + [e]) ==
        if e.SnapArm? && e.snap.valid && h.running && !h.panicked
        then Received(s.hub, s.start, hubRun) + [e.snap] else Received(s.hub, s.start, hubRun)
  {
    assert (hubRun + [e])[..|hubRun|] == hubRun;
  }

  /** Events of the owner other than a frame leave the history as it is, or start it anew. */
  lemma OwnerKeepsHistory(c: Config, o: O.Owner, e: O.Event, readings: seq<Reading>)
    requires ValidRouter(o.router) && !e.Receive? && LastIsOffered(o, readings) && O.RoutesHistory(c, o)
    ensures var p := O.Step(c, o, e); LastIsOffered(p, readings) && O.RoutesHistory(c, p)
  {
    O.RoutesStep(c, o, e);
    OwnerKeepsFrames(c, o, e);
  }

  lemma OwnerKeepsFrames(c: Config, o: O.Owner, e: O.Event)
    requires ValidRouter(o.router) && !e.Receive?
    ensures var p := O.Step(c, o, e); p.ins == [] || p.ins == o.ins
  {
  }

  /** A received frame is offered exactly if it is telemetry, as the reading its history calls for. */
  lemma FrameIsOffered(c: Config, o: O.Owner, shape: Shape)
    requires ValidRouter(o.router) && O.RoutesHistory(c, o)
    ensures var (offer, ins) := (Route(c, o.router, shape).1, o.ins + [shape]);
      && (offer.Telemetry? <==> shape.TelemetryShape?)
      && (offer.Telemetry? ==>
            && LastReading(ins) == Some(shape.decoded)
            && offer.snap == shape.decoded.(statusMessage := LastStatus(ins)))
      && (!offer.Telemetry? ==> LastReading(ins) == LastReading(o.ins) && LastStatus(ins) == LastStatus(o.ins))
  {
    RouterTracks(c, o.ins);
    FollowFrame(c, o.router, o.ins, shape);
    ScalarsSnoc(o.ins, shape);
  }

  lemma TelemetryIsReading(frame: Frame, snap: Snapshot, queued: bool)
    requires ShapeOf(frame).TelemetryShape?
    requires snap == ShapeOf(frame).decoded.(statusMessage := snap.statusMessage)
    ensures IsReadingOf(Reading(frame, snap, queued))
  {
    LikelyTelemetryDecodes(frame);
  }

  /** The owner's side of a received frame. */
  lemma FrameOwnerOk(c: Config, o: O.Owner, shape: Shape, frame: Frame, readings: seq<Reading>, queued: bool)
    requires ValidRouter(o.router) && o.phase.Idle? && OwnerOk(c, o, readings)
    ensures var (offer, p) := (Route(c, o.router, shape).1, O.Step(c, o, O.Receive(shape)));
      OwnerOk(c, p, if offer.Telemetry? then readings + [Reading(frame, offer.snap, queued)] else readings)
  {
    O.RoutesStep(c, o, O.Receive(shape));
    FrameIsOffered(c, o, shape);
  }

  lemma ReadingsSnoc(readings: seq<Reading>, r: Reading)
    requires ReadingsOk(readings) && IsReadingOf(r)
    ensures ReadingsOk(readings + [r])
  {
  }

  /** What an offer does to the channel and the record of readings. */
  lemma OfferForwards(
    received: seq<Snapshot>, j: Joint, frame: Frame, offer: Offer)
    requires ChannelOk(received, j.snapCh, j.readings) && ReadingsOk(j.readings)
    requires offer.Telemetry? ==> IsReadingOf(Reading(frame, offer.snap, |j.snapCh| < SNAP_BUFFER))
    ensures var p := OfferReading(j, frame, offer);
      ChannelOk(received, p.snapCh, p.readings) && ReadingsOk(p.readings)
  {
    if offer.Telemetry? {
      var r := Reading(frame, offer.snap, |j.snapCh| < SNAP_BUFFER);
      OfferChannel(received, j.snapCh, j.readings, r);
      ReadingsSnoc(j.readings, r);
    }
  }

  /** A frame whose shape is known, with the telemetry it may hold. */
  lemma ShapeForwards(s: Setup, j: Joint, o: O.Owner, frame: Frame, shape: Shape)
    requires Forwards(s, j) && o == OwnerOf(s, j) && o.phase.Idle? && shape == ShapeOf(frame)
    ensures Forwards(s, OfferReading(j.(ownerRun := j.ownerRun + [O.Receive(shape)]), frame,
                                     Route(s.wiring, o.router, shape).1))
  {
    var offer := Route(s.wiring, o.router, shape).1;
    O.ReplaySnoc(s.wiring, O.Init(), j.ownerRun, O.Receive(shape));
    FrameOwnerOk(s.wiring, o, shape, frame, j.readings, |j.snapCh| < SNAP_BUFFER);
    FrameIsOffered(s.wiring, o, shape);
    if offer.Telemetry? {
      TelemetryIsReading(frame, offer.snap, |j.snapCh| < SNAP_BUFFER);
    }
    OfferForwards(Received(s.hub, s.start, j.hubRun), j.(ownerRun := j.ownerRun + [O.Receive(shape)]), frame, offer);
  }

  lemma ServeForwards(s: Setup, j: Joint, now: int)
    requires Forwards(s, j) && HubOf(s, j).running && !HubOf(s, j).panicked && j.snapCh != []
    ensures Forwards(s, j.(hubRun := j.hubRun + [H.SnapArm(j.snapCh[0], now)], snapCh := j.snapCh[1..]))
  {
    ServeChannel(Received(s.hub, s.start, j.hubRun), j.snapCh, j.readings);
    ReceivedSnoc(s, j.hubRun, H.SnapArm(j.snapCh[0], now));
  }

  lemma HubEventForwards(s: Setup, j: Joint, e: H.Event)
    requires Forwards(s, j) && !e.SnapArm?
    ensures Forwards(s, j.(hubRun := j.hubRun + [e]))
  {
    ReceivedSnoc(s, j.hubRun, e);
  }

  lemma OwnerEventForwards(s: Setup, j: Joint, e: O.Event)
    requires Forwards(s, j) && !e.Receive?
    ensures Forwards(s, j.(ownerRun := j.ownerRun + [e]))
  {
    O.ReplaySnoc(s.wiring, O.Init(), j.ownerRun, e);
    OwnerKeepsHistory(s.wiring, OwnerOf(s, j), e, j.readings);
  }

  lemma ForwardsStep(s: Setup, j: Joint, e: Event)
    requires Forwards(s, j)
    ensures Forwards(s, JointStep(s, j, e))
  {
    var h, o := HubOf(s, j), OwnerOf(s, j);
    if !h.panicked {
      match e {
        case HubDoes(he) =>
          if HubAlone(he) {
            HubEventForwards(s, j, he);
          }
        case ClientSubmits(c) =>
          if IsSubmitting(h, c) {
            HubEventForwards(s, j, H.ClientSubmits(c));
            OwnerEventForwards(s, j.(hubRun := j.hubRun + [H.ClientSubmits(c)]), O.Submit(h.chans[c].reader.command));
          }
        case ServesSnap(now) =>
          if h.running && j.snapCh != [] {
            ServeForwards(s, j, now);
          }
        case OwnerDoes(oe) =>
          if OwnerAlone(oe) {
            OwnerEventForwards(s, j, oe);
          }
        case OwnerTakes(writeOk) =>
          if o.phase.Draining? && o.queue != [] {
            HubEventForwards(s, j, H.SourceTakes);
            OwnerEventForwards(s, j.(hubRun := j.hubRun + [H.SourceTakes]), O.Take(writeOk));
          }
        case FrameArrives(frame) =>
          if o.phase.Idle? {
            ShapeForwards(s, j, o, frame, ShapeOf(frame));
          }
      }
    }
  }

  lemma {:induction false} ForwardsInRun(s: Setup, es: seq<Event>)
    ensures Forwards(s, RunJoint(s, es))
  {
    if es != [] {
      ForwardsInRun(s, es[..|es| - 1]);
      ForwardsStep(s, RunJoint(s, es[..|es| - 1]), es[|es| - 1]);
    }
  }

  /** The readings that found room, less what still waits in the channel. */
  function Served(snapCh: seq<Snapshot>, readings: seq<Reading>): seq<Snapshot> {
    var q := Queued(readings);
    if |snapCh| <= |q| then q[..|q| - |snapCh|] else []
  }

  /** The broadcast snapshot is one of these, close to the last of them; none if there is none. */
  predicate Follows(h: H.Hub, served: seq<Snapshot>) {
    if served == [] then h.lastSnap.None?
    else
      && h.lastSnap.Some? && h.lastSnap.value in served
      && CloseEnough(h.lastSnap.value, served[|served| - 1])
  }

  /**
   From the meter to the clients, in every run: the broadcast snapshot is one of the readings that the hub was
   served, those being the readings that found room less what still waits, and it is close to the last of them.
   */
  lemma BroadcastFollowsServed(s: Setup, es: seq<Event>)
    ensures var j := RunJoint(s, es); Follows(HubOf(s, j), Served(j.snapCh, j.readings))
  {
    var j := RunJoint(s, es);
    ForwardsInRun(s, es);
    ServedIsReceived(Received(s.hub, s.start, j.hubRun), j.snapCh, j.readings);
    HubFollowsReceived(s, j.hubRun);
  }

  lemma HubFollowsReceived(s: Setup, hubRun: seq<H.Event>)
    ensures Follows(H.Run(s.hub, s.start, hubRun), Received(s.hub, s.start, hubRun))
  {
    NoDrift(s.hub, s.start, hubRun);
  }

  lemma ServedIsReceived(received: seq<Snapshot>, snapCh: seq<Snapshot>, readings: seq<Reading>)
    requires ChannelOk(received, snapCh, readings)
    ensures Served(snapCh, readings) == received
  {
  }

  /** The channel is empty and had room for the last reading. */
  predicate CaughtUp(j: Joint) {
    j.snapCh == [] && j.readings != [] && j.readings[|j.readings| - 1].queued
  }

  lemma LastQueued(readings: seq<Reading>)
    requires readings != [] && readings[|readings| - 1].queued
    ensures var q := Queued(readings); q != [] && q[|q| - 1] == readings[|readings| - 1].snap
  {
  }

  /**
   So once the hub has caught up, what the clients see is near the meter: close to the last telemetry frame the
   owner received since it opened the device, with the latest status text.
   */
  lemma BroadcastIsNearTheMeter(s: Setup, es: seq<Event>)
    requires var j := RunJoint(s, es); CaughtUp(j) && LastReading(OwnerOf(s, j).ins).Some?
    ensures var (h, o) := (HubOf(s, RunJoint(s, es)), OwnerOf(s, RunJoint(s, es)));
      && h.lastSnap.Some?
      && CloseEnough(h.lastSnap.value, LastReading(o.ins).value.(statusMessage := LastStatus(o.ins)))
  {
    var j := RunJoint(s, es);
    ForwardsInRun(s, es);
    LastQueued(j.readings);
    BroadcastFollowsServed(s, es);
  }

  /** In wire units, for the frames themselves: `f` was broadcast, and `g` is the last frame offered. */
  lemma {:induction false} QueuedHasFrame(readings: seq<Reading>, snap: Snapshot) returns (k: nat)
    requires snap in Queued(readings)
    ensures k < |readings| && readings[k].snap == snap
  {
    var n := |readings| - 1;
    if readings[n].queued && readings[n].snap == snap {
      k := n;
    } else {
      k := QueuedHasFrame(readings[..n], snap);
    }
  }

  /** The broadcast frame and the last one agree to two counts of each power, and in SWR and status text. */
  predicate NearInCounts(r: Reading, t: Reading) {
    && Within2(U16(r.frame[25], r.frame[26]), U16(t.frame[25], t.frame[26]))
    && Within2(U16(r.frame[23], r.frame[24]), U16(t.frame[23], t.frame[24]))
    && Within2(U16(r.frame[0], r.frame[1]), U16(t.frame[0], t.frame[1]))
    && Floored(U16(r.frame[2], r.frame[37])) == Floored(U16(t.frame[2], t.frame[37]))
    && r.snap.statusMessage == t.snap.statusMessage
  }

  lemma CloseReadings(r: Reading, t: Reading)
    requires IsReadingOf(r) && IsReadingOf(t) && CloseEnough(r.snap, t.snap)
    ensures NearInCounts(r, t)
  {
    CloseEnoughInCounts(r.frame, t.frame, r.snap.statusMessage, t.snap.statusMessage);
  }

  /** The broadcast snapshot is that of reading `k`, and the frames of `k` and the last reading are near. */
  predicate BroadcastNear(h: H.Hub, readings: seq<Reading>, k: nat)
    requires k < |readings|
  {
    h.lastSnap == Some(readings[k].snap) && NearInCounts(readings[k], readings[|readings| - 1])
  }

  /** In every run that has caught up, some reading was broadcast and is near the last one in raw counts. */
  lemma BroadcastIsNearInCounts(s: Setup, es: seq<Event>)
    requires CaughtUp(RunJoint(s, es))
    ensures var j := RunJoint(s, es);
      exists k: nat :: k < |j.readings| && BroadcastNear(HubOf(s, j), j.readings, k)
  {
    var j := RunJoint(s, es);
    ForwardsInRun(s, es);
    LastQueued(j.readings);
    BroadcastFollowsServed(s, es);
    NearReading(HubOf(s, j), j.readings);
  }

  lemma NearReading(h: H.Hub, readings: seq<Reading>)
    requires ReadingsOk(readings) && readings != [] && h.lastSnap.Some? && h.lastSnap.value in Queued(readings)
    requires CloseEnough(h.lastSnap.value, readings[|readings| - 1].snap)
    ensures exists k: nat :: k < |readings| && BroadcastNear(h, readings, k)
  {
    var k := QueuedHasFrame(readings, h.lastSnap.value);
    CloseReadings(readings[k], readings[|readings| - 1]);
    assert BroadcastNear(h, readings, k);
  }
}
