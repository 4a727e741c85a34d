/**
 Client lifecycle in every run of the hub: capacity, one close per channel, no broadcast to a closed
 channel, and exactly which events send on a closed one.
 */
module HubLifecycle {
  import opened Wrappers
  import opened Snapshots
  import opened Hub

  ghost predicate Distinct(s: seq<nat>) {
    forall i, j :: 0 <= i < j < |s| ==> s[i] != s[j]
  }

  /** The hub will still look at this client: it waits to register, or is registered with a live hub. */
  predicate Present(h: Hub, c: nat) {
    c in h.register || (h.running && c in h.clients)
  }

  predicate IsEnded(h: Hub, c: nat) {
    c < |h.chans| && h.chans[c].reader.Ended?
  }

  /**
   One client's channel: closed at most once, and open exactly while the client is present. A live hub drops
   a member only after its reader ended.
   */
  predicate ChanOk(h: Hub, c: nat)
    requires c < |h.chans|
  {
    var ch := h.chans[c];
    && ch.closes == (if ch.closed then 1 else 0)
    && (HasPumps(h, c) ==> (Present(h, c) <==> !ch.closed))
    && (!HasPumps(h, c) ==> !ch.closed && !ch.joined && c !in h.register && c !in h.clients)
    && (c in h.register ==> !ch.joined && c !in h.clients)
    && (c in h.clients ==> ch.joined)
    && (h.running && ch.joined && c !in h.clients ==> ch.reader.Ended? && c !in h.unregister)
  }

  /** The unregister queue holds ended clients, once each; the resync queue holds clients with pumps. */
  ghost predicate QueuesOk(h: Hub) {
    && Distinct(h.unregister)
    && (forall k :: 0 <= k < |h.unregister| ==> IsEnded(h, h.unregister[k]))
    && (forall k :: 0 <= k < |h.resync| ==> HasPumps(h, h.resync[k]))
  }

  ghost predicate Lifecycle(cfg: HubConfig, h: Hub) {
    && |h.clients| <= cfg.maxClients
    && (forall c :: c in h.clients ==> c < |h.chans|)
    && Distinct(h.register)
    && (forall k :: 0 <= k < |h.register| ==> h.register[k] < |h.chans|)
    && QueuesOk(h)
    && (forall c :: 0 <= c < |h.chans| ==> ChanOk(h, c))
  }

  /** Broadcast never targets a closed channel. */
  lemma NoneClosed(cfg: HubConfig, h: Hub)
    requires Lifecycle(cfg, h) && h.running
    ensures !AnyClosed(h)
  {
    forall c | c in h.clients && c < |h.chans| ensures !h.chans[c].closed {
      assert ChanOk(h, c);
    }
  }

  predicate IsAcking(h: Hub, c: nat) {
    c < |h.chans| && h.chans[c].reader.Acking?
  }

  /** The sends that meet a closed channel: to a client that is gone, by the resync arm or as an ack. */
  predicate SendsToGone(h: Hub, e: Event) {
    !h.panicked &&
    match e
    case ResyncArm => h.running && HeadIs(h.resync, h) && h.lastJSON.Some? && !Present(h, h.resync[0])
    case ClientAcks(c) => IsAcking(h, c) && !Present(h, c)
    case _ => false
  }

  // ---------------------------------------------------------- preservation

  /** A client's channel changes only in its queue and records, and its reader only on the way to its end. */
  predicate SameLife(a: Chan, b: Chan) {
    && a.closed == b.closed && a.closes == b.closes && a.joined == b.joined
    && a.reader.Unstarted? == b.reader.Unstarted? && (a.reader.Ended? ==> b.reader.Ended?)
  }

  ghost predicate SameLives(h: Hub, p: Hub) {
    |p.chans| == |h.chans| && forall i :: 0 <= i < |h.chans| ==> SameLife(h.chans[i], p.chans[i])
  }

  lemma QueuesKept(h: Hub, p: Hub)
    requires QueuesOk(h) && SameLives(h, p)
    requires Distinct(p.unregister) && forall k :: 0 <= k < |p.unregister| ==> IsEnded(p, p.unregister[k])
    requires forall k :: 0 <= k < |p.resync| ==> HasPumps(h, p.resync[k])
    ensures QueuesOk(p)
  {
    forall k | 0 <= k < |p.resync| ensures HasPumps(p, p.resync[k]) {
      assert HasPumps(h, p.resync[k]) && SameLife(h.chans[p.resync[k]], p.chans[p.resync[k]]);
    }
  }

  /** Changes that touch neither membership nor any channel's life keep the invariant. */
  lemma LifeKept(cfg: HubConfig, h: Hub, p: Hub)
    requires Lifecycle(cfg, h)
    requires p.running == h.running && p.clients == h.clients && p.register == h.register
    requires SameLives(h, p) && p.unregister == h.unregister
    requires forall k :: 0 <= k < |p.resync| ==> HasPumps(h, p.resync[k])
    ensures Lifecycle(cfg, p)
  {
    forall c | 0 <= c < |p.chans| ensures ChanOk(p, c) {
      assert ChanOk(h, c) && SameLife(h.chans[c], p.chans[c]);
    }
    forall k | 0 <= k < |p.unregister| ensures IsEnded(p, p.unregister[k]) {
      assert IsEnded(h, p.unregister[k]) && SameLife(h.chans[p.unregister[k]], p.chans[p.unregister[k]]);
    }
    QueuesKept(h, p);
  }

  /** The same, told without queues. */
  lemma LifeKeptElsewhere(cfg: HubConfig, h: Hub, p: Hub)
    requires Lifecycle(cfg, h) && SameLives(h, p)
    requires p.running == h.running && p.clients == h.clients && p.register == h.register
    requires p.unregister == h.unregister && p.resync == h.resync
    ensures Lifecycle(cfg, p)
  {
    assert forall k :: 0 <= k < |p.resync| ==> HasPumps(h, h.resync[k]);
    LifeKept(cfg, h, p);
  }

  lemma ConnectKeeps(cfg: HubConfig, h: Hub)
    requires Lifecycle(cfg, h)
    ensures Lifecycle(cfg, OnConnect(h))
  {
    var p, n := OnConnect(h), |h.chans|;
    assert n !in h.clients;
    forall c | 0 <= c < |p.chans| ensures ChanOk(p, c) {
      if c < n {
        assert ChanOk(h, c) && p.chans[c] == h.chans[c];
        assert c in p.register <==> c in h.register;
      }
    }
    forall k | 0 <= k < |p.unregister| ensures IsEnded(p, p.unregister[k]) {
      assert IsEnded(h, h.unregister[k]);
    }
    forall k | 0 <= k < |p.resync| ensures HasPumps(p, p.resync[k]) {
      assert HasPumps(h, h.resync[k]);
    }
  }

  lemma RegisterHead(cfg: HubConfig, h: Hub)
    requires Lifecycle(cfg, h) && h.register != []
    ensures var c := h.register[0];
      && c < |h.chans| && ChanOk(h, c) && HasPumps(h, c) && !h.chans[c].closed && c !in h.clients
      && c !in h.register[1..] && Distinct(h.register[1..])
      && forall d :: d != c ==> (d in h.register <==> d in h.register[1..])
  {
    var c := h.register[0];
    assert ChanOk(h, c);
    assert h.register == [c] + h.register[1..];
  }

  lemma RegisterKeeps(cfg: HubConfig, h: Hub)
    requires Lifecycle(cfg, h) && h.running && h.register != []
    ensures HeadIs(h.register, h)
    ensures var p := OnRegister(cfg, h.(register := h.register[1..]), h.register[0]);
      Lifecycle(cfg, p) && p.panicked == h.panicked
  {
    RegisterHead(cfg, h);
    RegisterKeepsChans(cfg, h);
    RegisterKeepsQueues(cfg, h);
  }

  lemma RegisterKeepsQueues(cfg: HubConfig, h: Hub)
    requires Lifecycle(cfg, h) && h.register != []
    ensures HeadIs(h.register, h)
    ensures QueuesOk(OnRegister(cfg, h.(register := h.register[1..]), h.register[0]))
  {
    var p := OnRegister(cfg, h.(register := h.register[1..]), h.register[0]);
    assert p.unregister == h.unregister && p.resync == h.resync;
    forall k | 0 <= k < |p.unregister| ensures IsEnded(p, p.unregister[k]) {
      assert IsEnded(h, h.unregister[k]);
    }
    forall k | 0 <= k < |p.resync| ensures HasPumps(p, p.resync[k]) {
      assert HasPumps(h, h.resync[k]);
    }
  }

  lemma RegisterKeepsChans(cfg: HubConfig, h: Hub)
    requires Lifecycle(cfg, h) && h.running && h.register != []
    ensures HeadIs(h.register, h)
    ensures var p := OnRegister(cfg, h.(register := h.register[1..]), h.register[0]);
      |p.chans| == |h.chans| && forall d :: 0 <= d < |p.chans| ==> ChanOk(p, d)
  {
    RegisterHead(cfg, h);
    var c := h.register[0];
    var p := OnRegister(cfg, h.(register := h.register[1..]), c);
    forall d | 0 <= d < |p.chans| ensures ChanOk(p, d) {
      assert ChanOk(h, d);
    }
  }

  lemma UnregisterHead(cfg: HubConfig, h: Hub)
    requires Lifecycle(cfg, h) && h.unregister != []
    ensures var c := h.unregister[0];
      && IsEnded(h, c) && ChanOk(h, c) && c !in h.unregister[1..] && Distinct(h.unregister[1..])
      && forall d :: d != c ==> (d in h.unregister <==> d in h.unregister[1..])
  {
    var c := h.unregister[0];
    assert IsEnded(h, h.unregister[0]);
    assert ChanOk(h, c);
    assert h.unregister == [c] + h.unregister[1..];
  }

  lemma UnregisterKeeps(cfg: HubConfig, h: Hub)
    requires Lifecycle(cfg, h) && h.running && h.unregister != []
    ensures HeadIs(h.unregister, h)
    ensures var p := OnUnregister(h.(unregister := h.unregister[1..]), h.unregister[0]);
      Lifecycle(cfg, p) && p.panicked == h.panicked
  {
    UnregisterHead(cfg, h);
    var p := OnUnregister(h.(unregister := h.unregister[1..]), h.unregister[0]);
    forall d | 0 <= d < |p.chans| ensures ChanOk(p, d) {
      assert ChanOk(h, d);
    }
    UnregisterKeepsQueues(cfg, h);
  }

  lemma UnregisterKeepsQueues(cfg: HubConfig, h: Hub)
    requires Lifecycle(cfg, h) && h.unregister != []
    ensures HeadIs(h.unregister, h)
    ensures QueuesOk(OnUnregister(h.(unregister := h.unregister[1..]), h.unregister[0]))
  {
    UnregisterHead(cfg, h);
    var p := OnUnregister(h.(unregister := h.unregister[1..]), h.unregister[0]);
    assert p.unregister == h.unregister[1..] && p.resync == h.resync;
    forall k | 0 <= k < |p.unregister| ensures IsEnded(p, p.unregister[k]) {
      assert IsEnded(h, h.unregister[k + 1]);
    }
    forall k | 0 <= k < |p.resync| ensures HasPumps(p, p.resync[k]) {
      assert HasPumps(h, h.resync[k]);
    }
  }

  lemma ShutdownKeeps(cfg: HubConfig, h: Hub)
    requires Lifecycle(cfg, h) && h.running
    ensures var p := CloseAll(h).(running := false);
      Lifecycle(cfg, p) && p.panicked == h.panicked
  {
    NoneClosed(cfg, h);
    var p := CloseAll(h).(running := false);
    forall d | 0 <= d < |p.chans| ensures ChanOk(p, d) {
      assert ChanOk(h, d);
    }
    forall k | 0 <= k < |p.unregister| ensures IsEnded(p, p.unregister[k]) {
      assert IsEnded(h, h.unregister[k]);
    }
    forall k | 0 <= k < |p.resync| ensures HasPumps(p, p.resync[k]) {
      assert HasPumps(h, h.resync[k]);
    }
  }

  lemma DeliverKeeps(cfg: HubConfig, h: Hub, c: nat, frame: WsFrame, kind: Kind)
    requires Lifecycle(cfg, h) && HasPumps(h, c)
    ensures Lifecycle(cfg, Deliver(h, c, frame, kind))
    ensures !h.panicked ==> (Deliver(h, c, frame, kind).panicked <==> !Present(h, c))
  {
    assert ChanOk(h, c);
    LifeKeptElsewhere(cfg, h, Deliver(h, c, frame, kind));
  }

  lemma BroadcastKeeps(cfg: HubConfig, h: Hub, frame: WsFrame)
    requires Lifecycle(cfg, h) && h.running
    ensures Lifecycle(cfg, BroadcastAll(h, frame)) && BroadcastAll(h, frame).panicked == h.panicked
  {
    NoneClosed(cfg, h);
    LifeKeptElsewhere(cfg, h, BroadcastAll(h, frame));
  }

  lemma ResyncKeeps(cfg: HubConfig, h: Hub)
    requires Lifecycle(cfg, h) && h.resync != []
    ensures HasPumps(h, h.resync[0])
    ensures var p := OnResync(h.(resync := h.resync[1..]), h.resync[0]);
      Lifecycle(cfg, p) && (!h.panicked ==> (p.panicked <==> h.lastJSON.Some? && !Present(h, h.resync[0])))
  {
    assert HasPumps(h, h.resync[0]);
    var q := h.(resync := h.resync[1..]);
    assert forall k :: 0 <= k < |q.resync| ==> q.resync[k] == h.resync[k + 1];
    LifeKept(cfg, h, q);
    if h.lastJSON.Some? {
      DeliverKeeps(cfg, q, h.resync[0], h.lastJSON.value, Replayed);
    }
  }

  lemma NewSnapKeeps(cfg: HubConfig, h: Hub, snap: Snapshot, now: int)
    requires Lifecycle(cfg, h) && h.running
    ensures var frame := TelemetryMsg(h.seqNo + 1, snap);
      var p := BroadcastAll(NumberedSnap(h, snap, now), frame);
      Lifecycle(cfg, p) && p.panicked == h.panicked
  {
    LifeKeptElsewhere(cfg, h, NumberedSnap(h, snap, now));
    BroadcastKeeps(cfg, NumberedSnap(h, snap, now), TelemetryMsg(h.seqNo + 1, snap));
  }

  lemma SnapKeeps(cfg: HubConfig, h: Hub, snap: Snapshot, now: int)
    requires Lifecycle(cfg, h) && h.running
    ensures Lifecycle(cfg, OnSnap(h, snap, now)) && OnSnap(h, snap, now).panicked == h.panicked
  {
    if snap.valid {
      if Suppresses(h, snap) {
        LifeKeptElsewhere(cfg, h, h.(latestSnap := Some(snap)));
      } else {
        NewSnapKeeps(cfg, h, snap, now);
      }
    }
  }

  lemma HeartbeatKeeps(cfg: HubConfig, h: Hub, now: int)
    requires Lifecycle(cfg, h) && h.running
    ensures Lifecycle(cfg, OnHeartbeat(cfg, h, now)) && OnHeartbeat(cfg, h, now).panicked == h.panicked
  {
    var q := h.(seqNo := h.seqNo + 1, lastSent := now);
    LifeKeptElsewhere(cfg, h, q);
    BroadcastKeeps(cfg, q, HeartbeatMsg(h.seqNo + 1));
  }

  lemma NumberedKeeps(cfg: HubConfig, h: Hub, frame: WsFrame)
    requires Lifecycle(cfg, h) && h.running
    ensures var p := BroadcastAll(h.(seqNo := h.seqNo + 1), frame);
      Lifecycle(cfg, p) && p.panicked == h.panicked
  {
    LifeKeptElsewhere(cfg, h, h.(seqNo := h.seqNo + 1));
    BroadcastKeeps(cfg, h.(seqNo := h.seqNo + 1), frame);
  }

  lemma ReaderKeeps(cfg: HubConfig, h: Hub, c: nat, reader: Reader)
    requires Lifecycle(cfg, h) && HasPumps(h, c) && !h.chans[c].reader.Ended? && !reader.Unstarted?
    ensures Lifecycle(cfg, WithReader(h, c, reader)) && WithReader(h, c, reader).panicked == h.panicked
  {
    LifeKeptElsewhere(cfg, h, WithReader(h, c, reader));
  }

  lemma ClientMsgKeeps(cfg: HubConfig, h: Hub, c: nat, request: Request)
    requires Lifecycle(cfg, h) && IsReading(h, c)
    ensures Lifecycle(cfg, OnClientMsg(cfg, h, c, request))
    ensures OnClientMsg(cfg, h, c, request).panicked == h.panicked
  {
    match request
    case BadJson => ReaderKeeps(cfg, h, c, Acking("", false, "bad json"));
    case UnknownRequest(id) => ReaderKeeps(cfg, h, c, Acking(id, false, "unknown type"));
    case CommandRequest(id, action, value) => ReaderKeeps(cfg, h, c, Gated(cfg, h.latestSnap, id, action, value));
    case ResyncRequest =>
      var p := OnClientMsg(cfg, h, c, request);
      forall k | 0 <= k < |p.resync| ensures HasPumps(h, p.resync[k]) {
        assert k < |h.resync| ==> HasPumps(h, h.resync[k]);
      }
      LifeKept(cfg, h, p);
  }

  lemma SubmitKeeps(cfg: HubConfig, h: Hub, c: nat)
    requires Lifecycle(cfg, h) && c < |h.chans| && h.chans[c].reader.Submitting?
    ensures Lifecycle(cfg, OnSubmit(h, c)) && OnSubmit(h, c).panicked == h.panicked
  {
    SubmitSameLives(h, c);
    LifeKeptElsewhere(cfg, h, OnSubmit(h, c));
  }

  lemma SubmitSameLives(h: Hub, c: nat)
    requires c < |h.chans| && h.chans[c].reader.Submitting?
    ensures var p := OnSubmit(h, c);
      && SameLives(h, p) && p.running == h.running && p.clients == h.clients && p.register == h.register
      && p.unregister == h.unregister && p.resync == h.resync && p.panicked == h.panicked
  {
    SubmittedSameLives(h, c, Accepts(h, h.chans[c].reader.command.verb));
  }

  lemma SubmittedSameLives(h: Hub, c: nat, accepted: bool)
    requires c < |h.chans| && h.chans[c].reader.Submitting?
    ensures var p := Submitted(h, c, accepted);
      && SameLives(h, p) && p.running == h.running && p.clients == h.clients && p.register == h.register
      && p.unregister == h.unregister && p.resync == h.resync && p.panicked == h.panicked
  {
  }

  lemma AckKeeps(cfg: HubConfig, h: Hub, c: nat)
    requires Lifecycle(cfg, h) && IsAcking(h, c)
    ensures Lifecycle(cfg, OnAck(h, c))
    ensures !h.panicked ==> (OnAck(h, c).panicked <==> !Present(h, c))
  {
    assert ChanOk(h, c);
    LifeKeptElsewhere(cfg, h, OnAck(h, c));
  }

  lemma GoneKeeps(cfg: HubConfig, h: Hub, c: nat)
    requires Lifecycle(cfg, h) && IsReading(h, c)
    ensures Lifecycle(cfg, OnGone(h, c)) && OnGone(h, c).panicked == h.panicked
  {
    var p := OnGone(h, c);
    NotWaitingToLeave(cfg, h, c);
    forall d | 0 <= d < |p.chans| ensures ChanOk(p, d) {
      assert ChanOk(h, d);
    }
    forall k | 0 <= k < |p.unregister| ensures IsEnded(p, p.unregister[k]) {
      assert k < |h.unregister| ==> IsEnded(h, h.unregister[k]);
    }
    assert SameLives(h, p);
    assert forall k :: 0 <= k < |p.resync| ==> HasPumps(h, h.resync[k]);
    QueuesKept(h, p);
  }

  lemma NotWaitingToLeave(cfg: HubConfig, h: Hub, c: nat)
    requires Lifecycle(cfg, h) && !IsEnded(h, c)
    ensures c !in h.unregister
  {
  }

  /** The arms that look at the client queues. */
  predicate IsQueueArm(e: Event) {
    e.RegisterArm? || e.UnregisterArm? || e.ResyncArm? || e.Shutdown?
  }

  /** What a client's reader does. */
  predicate IsReader(e: Event) {
    e.ClientMsg? || e.ClientSubmits? || e.ClientAcks? || e.ClientGone?
  }

  /** What the other goroutines do. */
  predicate IsOutside(e: Event) {
    e.Connect? || e.ClientReceives? || e.SourceTakes?
  }

  /** The arms that number frames. */
  predicate IsNumbering(e: Event) {
    e.SnapArm? || e.ScopeArm? || e.SpectrumArm? || e.HeartbeatArm?
  }

  // ------------------------------------------------------------- readers

  /** Client `c` stands where it stood, and no client is new. */
  predicate SameReader(h: Hub, p: Hub, c: nat)
    requires c < |h.chans|
  {
    |p.chans| == |h.chans| && p.chans[c].reader == h.chans[c].reader
  }

  predicate SameStanding(h: Hub, p: Hub, c: nat)
    requires c < |h.chans|
  {
    SameReader(h, p, c) && p.chans[c].joined == h.chans[c].joined
  }

  lemma QueueArmKeepsReaders(cfg: HubConfig, h: Hub, e: Event, c: nat)
    requires IsQueueArm(e) && c < |h.chans|
    ensures SameReader(h, Step(cfg, h, e), c)
    ensures !e.RegisterArm? ==> SameStanding(h, Step(cfg, h, e), c)
  {
  }

  lemma NumberingArmKeepsReaders(cfg: HubConfig, h: Hub, e: Event, c: nat)
    requires IsNumbering(e) && c < |h.chans|
    ensures SameStanding(h, Step(cfg, h, e), c)
  {
  }

  lemma OtherReaders(cfg: HubConfig, h: Hub, e: Event, c: nat)
    requires c < |h.chans| && IsReader(e) && e.client != c
    ensures SameStanding(h, Step(cfg, h, e), c)
  {
    match e
    case ClientMsg(d, request) => MessageKeepsOthers(cfg, h, d, request, c);
    case ClientSubmits(d) =>
    case ClientAcks(d) =>
    case ClientGone(d) =>
  }

  lemma MessageKeepsOthers(cfg: HubConfig, h: Hub, d: nat, request: Request, c: nat)
    requires c < |h.chans| && d != c
    ensures d < |h.chans| ==> SameStanding(h, OnClientMsg(cfg, h, d, request), c)
  {
  }

  /** Readers move only by their own events. */
  lemma OthersKeepReaders(cfg: HubConfig, h: Hub, e: Event, c: nat)
    requires c < |h.chans| && (IsReader(e) ==> e.client != c) && !e.Connect?
    ensures SameReader(h, Step(cfg, h, e), c)
    ensures !e.RegisterArm? ==> SameStanding(h, Step(cfg, h, e), c)
  {
    if IsQueueArm(e) {
      QueueArmKeepsReaders(cfg, h, e, c);
    } else if IsNumbering(e) {
      NumberingArmKeepsReaders(cfg, h, e, c);
    } else if IsReader(e) {
      OtherReaders(cfg, h, e, c);
    }
  }

  /** A reader that started never becomes one that did not. */
  lemma StepKeepsPumps(cfg: HubConfig, h: Hub, e: Event, c: nat)
    requires HasPumps(h, c)
    ensures HasPumps(Step(cfg, h, e), c)
  {
    if IsReader(e) && e.client == c {
      OwnEventKeepsPumps(cfg, h, e);
    } else if !e.Connect? {
      OthersKeepReaders(cfg, h, e, c);
    }
  }

  lemma OwnEventKeepsPumps(cfg: HubConfig, h: Hub, e: Event)
    requires IsReader(e) && HasPumps(h, e.client)
    ensures var p := Step(cfg, h, e);
      HasPumps(p, e.client) && |p.chans| == |h.chans| && p.chans[e.client].joined == h.chans[e.client].joined
  {
  }

  // ------------------------------------------------------------- members

  /** The membership part of the state: who is in, who waits to come and who waits to leave. */
  predicate SameMembers(h: Hub, p: Hub) {
    p.running == h.running && p.clients == h.clients && p.register == h.register && p.unregister == h.unregister
  }

  lemma NumberingArmKeepsMembers(cfg: HubConfig, h: Hub, e: Event)
    requires IsNumbering(e)
    ensures SameMembers(h, Step(cfg, h, e))
  {
  }

  lemma ReaderKeepsMembers(cfg: HubConfig, h: Hub, e: Event)
    requires e.ClientMsg? || e.ClientSubmits? || e.ClientAcks?
    ensures SameMembers(h, Step(cfg, h, e))
  {
  }

  /** Only the queue arms, a connecting client and an ending reader change who waits or is in. */
  lemma OthersKeepMembers(cfg: HubConfig, h: Hub, e: Event)
    requires !IsQueueArm(e) && !e.Connect? && !e.ClientGone?
    ensures SameMembers(h, Step(cfg, h, e))
  {
    if IsNumbering(e) {
      NumberingArmKeepsMembers(cfg, h, e);
    } else if IsReader(e) {
      ReaderKeepsMembers(cfg, h, e);
    }
  }

  // --------------------------------------------------------------- the step

  lemma QueueArmKeeps(cfg: HubConfig, h: Hub, e: Event)
    requires Lifecycle(cfg, h) && !h.panicked && IsQueueArm(e)
    ensures Lifecycle(cfg, Step(cfg, h, e))
    ensures Step(cfg, h, e).panicked <==> SendsToGone(h, e)
  {
    if h.running {
      if e.RegisterArm? && HeadIs(h.register, h) {
        RegisterKeeps(cfg, h);
      } else if e.UnregisterArm? && HeadIs(h.unregister, h) {
        UnregisterKeeps(cfg, h);
      } else if e.ResyncArm? && HeadIs(h.resync, h) {
        ResyncKeeps(cfg, h);
      } else if e.Shutdown? {
        ShutdownKeeps(cfg, h);
      }
    }
  }

  lemma ReaderEventKeeps(cfg: HubConfig, h: Hub, e: Event)
    requires Lifecycle(cfg, h) && !h.panicked && IsReader(e)
    ensures Lifecycle(cfg, Step(cfg, h, e))
    ensures Step(cfg, h, e).panicked <==> SendsToGone(h, e)
  {
    match e
    case ClientMsg(c, request) =>
      if IsReading(h, c) {
        ClientMsgKeeps(cfg, h, c, request);
      }
    case ClientSubmits(c) =>
      if c < |h.chans| && h.chans[c].reader.Submitting? {
        SubmitKeeps(cfg, h, c);
      }
    case ClientAcks(c) =>
      if IsAcking(h, c) {
        AckKeeps(cfg, h, c);
      }
    case ClientGone(c) =>
      if IsReading(h, c) {
        GoneKeeps(cfg, h, c);
      }
  }

  lemma OutsideKeeps(cfg: HubConfig, h: Hub, e: Event)
    requires Lifecycle(cfg, h) && !h.panicked && IsOutside(e)
    ensures Lifecycle(cfg, Step(cfg, h, e))
    ensures Step(cfg, h, e).panicked <==> SendsToGone(h, e)
  {
    if e.Connect? {
      ConnectKeeps(cfg, h);
    } else {
      LifeKeptElsewhere(cfg, h, Step(cfg, h, e));
    }
  }

  lemma NumberingArmKeeps(cfg: HubConfig, h: Hub, e: Event)
    requires Lifecycle(cfg, h) && !h.panicked && IsNumbering(e)
    ensures Lifecycle(cfg, Step(cfg, h, e))
    ensures Step(cfg, h, e).panicked <==> SendsToGone(h, e)
  {
    if h.running {
      match e {
        case SnapArm(snap, now) => SnapKeeps(cfg, h, snap, now);
        case ScopeArm(samples) => NumberedKeeps(cfg, h, ScopeMsg(h.seqNo + 1, samples));
        case SpectrumArm(bins) => NumberedKeeps(cfg, h, SpectrumMsg(h.seqNo + 1, bins));
        case HeartbeatArm(now) => HeartbeatKeeps(cfg, h, now);
      }
    }
  }

  /** One step keeps the lifecycle invariant, and panics exactly when it sends to a gone client. */
  lemma StepKeeps(cfg: HubConfig, h: Hub, e: Event)
    requires Lifecycle(cfg, h) && !h.panicked
    ensures Lifecycle(cfg, Step(cfg, h, e))
    ensures Step(cfg, h, e).panicked <==> SendsToGone(h, e)
  {
    if IsQueueArm(e) {
      QueueArmKeeps(cfg, h, e);
    } else if IsReader(e) {
      ReaderEventKeeps(cfg, h, e);
    } else if IsOutside(e) {
      OutsideKeeps(cfg, h, e);
    } else {
      NumberingArmKeeps(cfg, h, e);
    }
  }

  /** From a state that satisfies it, the invariant holds in every later state. */
  lemma {:induction false} LifecycleFrom(cfg: HubConfig, h: Hub, es: seq<Event>)
    requires Lifecycle(cfg, h)
    ensures Lifecycle(cfg, RunFrom(cfg, h, es))
  {
    if es != [] {
      var before := RunFrom(cfg, h, es[..|es| - 1]);
      LifecycleFrom(cfg, h, es[..|es| - 1]);
      if !before.panicked {
        StepKeeps(cfg, before, es[|es| - 1]);
      }
    }
  }

  /** Capacity and channel life, in every run. */
  lemma LifecycleInvariant(cfg: HubConfig, start: int, es: seq<Event>)
    ensures Lifecycle(cfg, Run(cfg, start, es))
  {
    LifecycleFrom(cfg, Init(start), es);
  }

  /** Each channel is closed at most once, and every registered client of a live hub has an open one. */
  lemma ChannelsCloseOnce(cfg: HubConfig, start: int, es: seq<Event>)
    ensures var h := Run(cfg, start, es);
      && |h.clients| <= cfg.maxClients
      && (forall c :: 0 <= c < |h.chans| ==> h.chans[c].closes <= 1)
      && (h.running ==> forall c :: c in h.clients ==> c < |h.chans| && !h.chans[c].closed)
  {
    LifecycleInvariant(cfg, start, es);
    var h := Run(cfg, start, es);
    forall c | 0 <= c < |h.chans| ensures h.chans[c].closes <= 1 && (h.running && c in h.clients ==> !h.chans[c].closed) {
      assert ChanOk(h, c);
    }
  }

  lemma PanicStep(cfg: HubConfig, start: int, es: seq<Event>)
    requires es != []
    ensures Run(cfg, start, es).panicked <==>
            Run(cfg, start, es[..|es| - 1]).panicked || SendsToGone(Run(cfg, start, es[..|es| - 1]), es[|es| - 1])
  {
    var init := es[..|es| - 1];
    LifecycleInvariant(cfg, start, init);
    if !Run(cfg, start, init).panicked {
      StepKeeps(cfg, Run(cfg, start, init), es[|es| - 1]);
    }
  }

  /** Event `k` of the run sends to a client that is gone. */
  predicate SendsToGoneAt(cfg: HubConfig, start: int, es: seq<Event>, k: nat)
    requires k < |es|
  {
    SendsToGone(Run(cfg, start, es[..k]), es[k])
  }

  /** A run panics if and only if some event of it sends to a client that is gone. */
  lemma {:induction false} PanicsIffSendsToGone(cfg: HubConfig, start: int, es: seq<Event>)
    ensures Run(cfg, start, es).panicked <==> exists k :: 0 <= k < |es| && SendsToGoneAt(cfg, start, es, k)
  {
    if es != [] {
      var init, last := es[..|es| - 1], |es| - 1;
      PanicsIffSendsToGone(cfg, start, init);
      PanicStep(cfg, start, es);
      forall k | 0 <= k < last ensures SendsToGoneAt(cfg, start, es, k) <==> SendsToGoneAt(cfg, start, init, k) {
        assert init[..k] == es[..k];
      }
      if Run(cfg, start, init).panicked {
        var k :| 0 <= k < |init| && SendsToGoneAt(cfg, start, init, k);
        assert SendsToGoneAt(cfg, start, es, k);
      } else if Run(cfg, start, es).panicked {
        assert SendsToGoneAt(cfg, start, es, last);
      }
    }
  }
}
