/**
 The hub as the program runs it: the variables of its run loop updated in place, one method per select
 arm, and the client message handler. Every method is proved to take the step of `Hub` it stands for.
 */
module HubServer {
  import opened Wire
  import opened Wrappers
  import opened Snapshots
  import opened Decoding
  import opened Hub
  import opened HubLifecycle
  import opened HubDelivery
  import OwnerLoop

  class Server {
    const cfg: HubConfig
    var running: bool
    var panicked: bool
    var chans: seq<Chan>
    var clients: set<nat>
    var register: seq<nat>
    var unregister: seq<nat>
    var resync: seq<nat>
    var lastJSON: Option<WsFrame>
    var lastSnap: Option<Snapshot>
    var latestSnap: Option<Snapshot>
    var lastSent: int
    var seqNo: nat
    var commands: seq<OwnerLoop.Command>
    ghost var taken: seq<OwnerLoop.Command>
    ghost var submitted: seq<Submission>

    ghost function View(): Hub
      reads this
    {
      Hub(running, panicked, chans, clients, register, unregister, resync,
          lastJSON, lastSnap, latestSnap, lastSent, seqNo, commands, taken, submitted)
    }

    ghost predicate Valid()
      reads this
    {
      Lifecycle(cfg, View())
    }

    constructor (cfg: HubConfig, now: int)
      ensures Valid() && this.cfg == cfg && View() == Init(now)
    {
      this.cfg := cfg;
      running, panicked := true, false;
      chans, clients := [], {};
      register, unregister, resync := [], [], [];
      lastJSON, lastSnap, latestSnap := None, None, None;
      lastSent, seqNo, commands := now, 0, [];
      taken, submitted := [], [];
    }

    /** A non-blocking send: dropped when the channel is full, a panic when it is closed. */
    method Send(c: nat, frame: WsFrame, kind: Kind)
      requires c < |chans|
      modifies `chans, `panicked
      ensures View() == Deliver(old(View()), c, frame, kind)
    {
      if chans[c].closed {
        panicked := true;
        return;
      }
      var ch := chans[c];
      if |ch.queue| < SEND_BUFFER {
        chans := chans[c := ch.(queue := ch.queue + [frame], log := ch.log + [Delivery(frame, kind, true)])];
      } else {
        chans := chans[c := ch.(log := ch.log + [Delivery(frame, kind, false)])];
      }
    }

    /** Sends to every registered client, in whatever order the map yields them. */
    method BroadcastFrame(frame: WsFrame)
      requires Valid() && running
      modifies `chans
      ensures View() == BroadcastAll(old(View()), frame)
    {
      NoneClosed(cfg, View());
      var todo := clients;
      while todo != {}
        invariant todo <= clients && |chans| == |old(chans)|
        invariant forall i :: 0 <= i < |chans| ==>
          chans[i] == if i in clients && i !in todo then Offered(old(chans)[i], frame, Broadcast) else old(chans)[i]
        decreases todo
      {
        var c :| c in todo;
        chans := chans[c := Offered(chans[c], frame, Broadcast)];
        todo := todo - {c};
      }
      assert chans == BroadcastAll(old(View()), frame).chans;
    }

    method CloseAllChannels()
      requires Valid() && running
      modifies `chans
      ensures View() == CloseAll(old(View()))
    {
      NoneClosed(cfg, View());
      var todo := clients;
      while todo != {}
        invariant todo <= clients && |chans| == |old(chans)|
        invariant forall i :: 0 <= i < |chans| ==>
          chans[i] == if i in clients && i !in todo then Closed(old(chans)[i]) else old(chans)[i]
        decreases todo
      {
        var c :| c in todo;
        chans := chans[c := Closed(chans[c])];
        todo := todo - {c};
      }
      assert chans == CloseAll(old(View())).chans;
    }

    method ServeWS()
      requires Valid() && !panicked
      modifies this
      ensures Valid() && View() == Step(cfg, old(View()), Connect)
    {
      ConnectKeeps(cfg, View());
      var c := |chans|;
      if |register| < ARM_BUFFER {
        chans := chans + [FreshChan(Reading)];
        register := register + [c];
      } else {
        chans := chans + [FreshChan(Unstarted)];
      }
    }

    method RunRegister()
      requires Valid() && running && !panicked && register != []
      modifies this
      ensures Valid() && View() == Step(cfg, old(View()), RegisterArm)
    {
      RegisterKeeps(cfg, View());
      RegisterHead(cfg, View());
      var c := register[0];
      register := register[1..];
      if |clients| >= cfg.maxClients {
        chans := chans[c := Closed(chans[c])];
        return;
      }
      clients := clients + {c};
      chans := chans[c := chans[c].(joined := true, joinedAt := seqNo)];
      if lastJSON.Some? {
        Send(c, lastJSON.value, Replayed);
      }
    }

    method RunUnregister()
      requires Valid() && running && !panicked && unregister != []
      modifies this
      ensures Valid() && View() == Step(cfg, old(View()), UnregisterArm)
    {
      UnregisterKeeps(cfg, View());
      var c := unregister[0];
      UnregisterHead(cfg, View());
      unregister := unregister[1..];
      if c in clients {
        clients := clients - {c};
        chans := chans[c := Closed(chans[c])];
      }
    }

    method RunResync()
      requires Valid() && running && !panicked && resync != []
      modifies this
      ensures Valid() && View() == Step(cfg, old(View()), ResyncArm)
      ensures panicked <==> lastJSON.Some? && !Present(old(View()), old(resync)[0])
    {
      ResyncKeeps(cfg, View());
      var c := resync[0];
      resync := resync[1..];
      if lastJSON.Some? {
        Send(c, lastJSON.value, Replayed);
      }
    }

    method RunSnapshot(snap: Snapshot, now: int)
      requires Valid() && running && !panicked
      modifies this
      ensures Valid() && !panicked && View() == Step(cfg, old(View()), SnapArm(snap, now))
    {
      SnapKeeps(cfg, View(), snap, now);
      if !snap.valid {
        return;
      }
      LifeKeptElsewhere(cfg, View(), View().(latestSnap := Some(snap)));
      latestSnap := Some(snap);
      if lastSnap.Some? && CloseEnough(lastSnap.value, snap) {
        return;
      }
      PublishSnapshot(snap, now);
    }

    /** The part of the snapshot arm past the deadband. */
    method PublishSnapshot(snap: Snapshot, now: int)
      requires Valid() && running
      modifies this
      ensures var frame := TelemetryMsg(old(seqNo) + 1, snap);
        View() == BroadcastAll(old(View()).(seqNo := old(seqNo) + 1, lastSnap := Some(snap),
                                            lastJSON := Some(frame), lastSent := now), frame)
    {
      ghost var before := View();
      seqNo := seqNo + 1;
      var data := TelemetryMsg(seqNo, snap);
      lastSnap := Some(snap);
      lastJSON := Some(data);
      lastSent := now;
      LifeKeptElsewhere(cfg, before, View());
      BroadcastFrame(data);
    }

    /** The next sequence number on a frame, and the frame to every client. */
    method BroadcastNext(frame: WsFrame)
      requires Valid() && running && Number(frame) == seqNo + 1
      modifies `seqNo, `chans
      ensures Valid() && View() == BroadcastAll(old(View()).(seqNo := old(seqNo) + 1), frame)
    {
      NumberedKeeps(cfg, View(), frame);
      LifeKeptElsewhere(cfg, View(), View().(seqNo := seqNo + 1));
      seqNo := seqNo + 1;
      BroadcastFrame(frame);
    }

    method RunScope(samples: seq<Byte>)
      requires Valid() && running && !panicked
      modifies this
      ensures Valid() && !panicked && View() == Step(cfg, old(View()), ScopeArm(samples))
    {
      NumberingArmStep(cfg, View(), ScopeArm(samples));
      BroadcastNext(ScopeMsg(seqNo + 1, samples));
    }

    method RunSpectrum(bins: seq<Byte>)
      requires Valid() && running && !panicked
      modifies this
      ensures Valid() && !panicked && View() == Step(cfg, old(View()), SpectrumArm(bins))
    {
      NumberingArmStep(cfg, View(), SpectrumArm(bins));
      BroadcastNext(SpectrumMsg(seqNo + 1, bins));
    }

    method RunHeartbeat(now: int)
      requires Valid() && running && !panicked
      modifies this
      ensures Valid() && !panicked && View() == Step(cfg, old(View()), HeartbeatArm(now))
    {
      HeartbeatKeeps(cfg, View(), now);
      if now - lastSent < cfg.heartbeat {
        return;
      }
      ghost var before := View();
      seqNo := seqNo + 1;
      lastSent := now;
      LifeKeptElsewhere(cfg, before, View());
      BroadcastFrame(HeartbeatMsg(seqNo));
    }

    method RunShutdown()
      requires Valid() && running && !panicked
      modifies this
      ensures Valid() && !panicked && View() == Step(cfg, old(View()), Shutdown)
    {
      ShutdownKeeps(cfg, View());
      CloseAllChannels();
      running := false;
    }

    /** The source's side of a submit, as the HID owner implements it. */
    method Submit(action: string, value: int) returns (ok: bool)
      modifies `commands
      ensures ok <==> Accepts(old(View()), action)
      ensures commands == if ok then old(commands) + [OwnerLoop.Command(action, value)] else old(commands)
    {
      if action !in KNOWN_VERBS || |commands| >= OwnerLoop.QUEUE_SIZE {
        return false;
      }
      commands := commands + [OwnerLoop.Command(action, value)];
      return true;
    }

    // The message handler runs on the client's own goroutine. Its three parts are separate steps, so that
    // the hub and the other clients can act in between.

    /** The first part: what kind of message it is and, for a command, the gates. */
    method GateMessage(c: nat, request: Request)
      requires Valid() && !panicked && IsReading(View(), c)
      modifies `chans, `resync
      ensures Valid() && !panicked && View() == Step(cfg, old(View()), ClientMsg(c, request))
    {
      ClientMsgKeeps(cfg, View(), c, request);
      match request {
        case BadJson => SetReader(c, Acking("", false, "bad json"));
        case UnknownRequest(id) => SetReader(c, Acking(id, false, "unknown type"));
        case ResyncRequest =>
          if |resync| < ARM_BUFFER {
            resync := resync + [c];
          }
        case CommandRequest(id, action, value) => GateCommand(c, id, action, value);
      }
    }

    method SetReader(c: nat, reader: Reader)
      requires c < |chans|
      modifies `chans
      ensures View() == WithReader(old(View()), c, reader)
    {
      chans := chans[c := chans[c].(reader := reader)];
    }

    method GateCommand(c: nat, id: string, action: string, value: Option<int>)
      requires c < |chans|
      modifies `chans
      ensures View() == WithReader(old(View()), c, Gated(cfg, old(latestSnap), id, action, value))
    {
      if !cfg.allowControl {
        SetReader(c, Acking(id, false, "control disabled"));
        return;
      }
      var seen := latestSnap;
      var reason := VerbAvailableInState(action, seen);
      if reason != "" {
        SetReader(c, Acking(id, false, reason));
        return;
      }
      var val := -1;
      if value.Some? {
        val := value.value;
      }
      SetReader(c, Submitting(id, OwnerLoop.Command(action, val), seen));
    }

    /** The second part: the submit, and what the ack will say. */
    method SubmitGated(c: nat)
      requires Valid() && !panicked && c < |chans| && chans[c].reader.Submitting?
      modifies `chans, `commands, `submitted
      ensures Valid() && !panicked && View() == Step(cfg, old(View()), ClientSubmits(c))
    {
      SubmitKeeps(cfg, View(), c);
      var r := chans[c].reader;
      var ok := Submit(r.command.verb, r.command.value);
      if !ok {
        SetReader(c, Acking(r.ref, false, REFUSED));
        return;
      }
      submitted := submitted + [Submission(c, r.ref, r.command, r.seen)];
      SetReader(c, Acking(r.ref, true, ""));
    }

    /** The third part: the ack. */
    method SendAck(c: nat)
      requires Valid() && !panicked && IsAcking(View(), c)
      modifies `chans, `panicked
      ensures Valid() && View() == Step(cfg, old(View()), ClientAcks(c))
      ensures panicked <==> !Present(old(View()), c)
    {
      AckKeeps(cfg, View(), c);
      var r := chans[c].reader;
      if chans[c].closed {
        panicked := true;
        return;
      }
      SetReader(c, Reading);
      Send(c, AckMsg(r.ref, r.ok, r.reason), Reply);
    }

    /** A message handled without interruption. */
    method HandleClientMsg(c: nat, request: Request)
      requires Valid() && !panicked && IsReading(View(), c)
      modifies this
      ensures Valid()
      ensures View() == Step(cfg, Step(cfg, Step(cfg, old(View()), ClientMsg(c, request)), ClientSubmits(c)), ClientAcks(c))
      ensures panicked <==> !request.ResyncRequest? && !Present(old(View()), c)
    {
      GateKeepsPresence(View(), c, request);
      GateMessage(c, request);
      FinishMessage(c);
    }

    lemma GateKeepsPresence(h: Hub, c: nat, request: Request)
      requires Lifecycle(cfg, h) && !h.panicked && IsReading(h, c)
      ensures var p := Step(cfg, h, ClientMsg(c, request));
        && (Present(p, c) <==> Present(h, c)) && c < |p.chans|
        && (p.chans[c].reader.Reading? <==> request.ResyncRequest?)
        && (p.chans[c].reader.Reading? || p.chans[c].reader.Acking? || p.chans[c].reader.Submitting?)
    {
      ReaderKeepsMembers(cfg, h, ClientMsg(c, request));
    }

    /** What is left of a message after its gate. */
    method FinishMessage(c: nat)
      requires Valid() && !panicked && c < |chans|
      modifies `chans, `commands, `submitted, `panicked
      ensures Valid()
      ensures View() == Step(cfg, Step(cfg, old(View()), ClientSubmits(c)), ClientAcks(c))
      ensures panicked <==>
        (old(chans)[c].reader.Submitting? || old(chans)[c].reader.Acking?) && !Present(old(View()), c)
    {
      if chans[c].reader.Submitting? {
        SubmitAlwaysAcks(View(), c);
        SubmitGated(c);
      }
      if chans[c].reader.Acking? {
        SendAck(c);
      }
    }

    lemma SubmitAlwaysAcks(h: Hub, c: nat)
      requires !h.panicked && c < |h.chans| && h.chans[c].reader.Submitting?
      ensures var p := Step(cfg, h, ClientSubmits(c)); IsAcking(p, c) && (Present(p, c) <==> Present(h, c))
    {
      SubmitSameLives(h, c);
    }

    /** The end of a client's reader: one attempt to unregister. */
    method EndReader(c: nat)
      requires Valid() && !panicked && IsReading(View(), c)
      modifies `chans, `unregister
      ensures Valid() && !panicked && View() == Step(cfg, old(View()), ClientGone(c))
    {
      GoneKeeps(cfg, View(), c);
      SetReader(c, Ended);
      if |unregister| < ARM_BUFFER {
        unregister := unregister + [c];
      }
    }
  }
}
