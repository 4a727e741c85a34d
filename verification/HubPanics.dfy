/**
 Which clients can make the hub send on a closed channel: those turned away at capacity, every client after
 the shutdown, and a client that leaves with a resync request still queued.
 */
module HubPanics {
  import opened Snapshots
  import opened Hub
  import opened HubLifecycle

  /** An ack panics exactly if the hub has looked at the client and turned it away, or has shut down. */
  lemma AckPanicsExactly(cfg: HubConfig, h: Hub, c: nat)
    requires Lifecycle(cfg, h) && !h.panicked && IsAcking(h, c)
    ensures Step(cfg, h, ClientAcks(c)).panicked <==>
            c !in h.register && (!h.running || !h.chans[c].joined)
  {
    StepKeeps(cfg, h, ClientAcks(c));
    assert ChanOk(h, c);
  }

  /** On a live hub no ack to a client that was ever registered panics, so a disconnected client's never do. */
  lemma AcksToMembersAreSafe(cfg: HubConfig, start: int, es: seq<Event>, c: nat)
    requires var h := Run(cfg, start, es); h.running && !h.panicked && c < |h.chans| && h.chans[c].joined
    ensures !Step(cfg, Run(cfg, start, es), ClientAcks(c)).panicked
  {
    LifecycleInvariant(cfg, start, es);
    StepKeeps(cfg, Run(cfg, start, es), ClientAcks(c));
    assert ChanOk(Run(cfg, start, es), c);
  }

  /** A replay panics exactly if there is a frame and the client was turned away, or has ended and left. */
  lemma ResyncPanicsExactly(cfg: HubConfig, h: Hub)
    requires Lifecycle(cfg, h) && !h.panicked && h.running && h.resync != []
    ensures var c := h.resync[0];
      && HasPumps(h, c)
      && (Step(cfg, h, ResyncArm).panicked <==>
            h.lastJSON.Some? && c !in h.register
            && (!h.chans[c].joined || (h.chans[c].reader.Ended? && c !in h.clients)))
  {
    ResyncKeeps(cfg, h);
    StepKeeps(cfg, h, ResyncArm);
    assert ChanOk(h, h.resync[0]);
  }

  /** The hub looks at no client twice. */
  lemma GoneStays(cfg: HubConfig, h: Hub, e: Event, c: nat)
    requires Lifecycle(cfg, h) && HasPumps(h, c) && !Present(h, c)
    ensures HasPumps(Step(cfg, h, e), c) && !Present(Step(cfg, h, e), c)
  {
    if !h.panicked {
      StepKeeps(cfg, h, e);
      StepKeepsPumps(cfg, h, e, c);
      NoNewMembers(cfg, h, e, c);
    }
  }

  lemma NoNewMembers(cfg: HubConfig, h: Hub, e: Event, c: nat)
    requires c < |h.chans|
    ensures var p := Step(cfg, h, e);
      && (p.running ==> h.running)
      && (c in p.register ==> c in h.register)
      && (c in p.clients ==> c in h.clients || c in h.register)
  {
    if !IsQueueArm(e) && !e.Connect? && !e.ClientGone? {
      OthersKeepMembers(cfg, h, e);
    }
  }

  /** So whoever is gone is gone for good: any ack or replay that ever reaches it panics. */
  lemma {:induction false} GoneForGood(cfg: HubConfig, h: Hub, es: seq<Event>, c: nat)
    requires Lifecycle(cfg, h) && HasPumps(h, c) && !Present(h, c)
    ensures var p := RunFrom(cfg, h, es);
      && HasPumps(p, c) && !Present(p, c)
      && (!p.panicked && IsAcking(p, c) ==> Step(cfg, p, ClientAcks(c)).panicked)
      && (!p.panicked && p.running && p.resync != [] && p.resync[0] == c && p.lastJSON.Some? ==>
            Step(cfg, p, ResyncArm).panicked)
  {
    var p := RunFrom(cfg, h, es);
    LifecycleFrom(cfg, h, es);
    if es != [] {
      GoneForGood(cfg, h, es[..|es| - 1], c);
      LifecycleFrom(cfg, h, es[..|es| - 1]);
      GoneStays(cfg, RunFrom(cfg, h, es[..|es| - 1]), es[|es| - 1], c);
    }
    if !p.panicked {
      StepKeeps(cfg, p, ClientAcks(c));
      StepKeeps(cfg, p, ResyncArm);
    }
  }

  /** A client turned away at capacity is gone, and its goroutines go on. */
  lemma TurnedAwayIsGone(cfg: HubConfig, h: Hub)
    requires Lifecycle(cfg, h) && !h.panicked && h.running && h.register != [] && |h.clients| >= cfg.maxClients
    ensures var p, c := Step(cfg, h, RegisterArm), h.register[0];
      !p.panicked && Lifecycle(cfg, p) && HasPumps(p, c) && !Present(p, c) && !p.chans[c].joined
      && c < |h.chans| && p.chans[c].reader == h.chans[c].reader
  {
    RegisterHead(cfg, h);
    StepKeeps(cfg, h, RegisterArm);
  }

  // ------------------------------------------------------- runs that panic

  const ONE_CLIENT := HubConfig(1, true, 0)

  function Fresh(): Chan {
    FreshChan(Reading)
  }

  lemma TwoConnect()
    ensures Run(ONE_CLIENT, 0, [Connect, Connect]) == Init(0).(chans := [Fresh(), Fresh()], register := [0, 1])
  {
    RunSnoc(ONE_CLIENT, 0, [], Connect);
    RunSnoc(ONE_CLIENT, 0, [Connect], Connect);
    assert [] + [Connect] == [Connect];
    assert [Connect] + [Connect] == [Connect, Connect];
  }

  lemma FirstRegisters()
    ensures Run(ONE_CLIENT, 0, [Connect, Connect, RegisterArm]) ==
            Init(0).(chans := [Fresh().(joined := true), Fresh()], register := [1], clients := {0})
  {
    TwoConnect();
    RunSnoc(ONE_CLIENT, 0, [Connect, Connect], RegisterArm);
    assert [Connect, Connect] + [RegisterArm] == [Connect, Connect, RegisterArm];
    var h := Run(ONE_CLIENT, 0, [Connect, Connect]);
    assert h.register[1..] == [1];
    assert {} + {0} == {0 as nat};
  }

  /** The second client is turned away; the ack to the first message it sends ends the program. */
  lemma RejectedClientPanics()
    ensures Run(ONE_CLIENT, 0, [Connect, Connect, RegisterArm, RegisterArm,
                                ClientMsg(1, UnknownRequest("x")), ClientAcks(1)]).panicked
  {
    FirstRegisters();
    var es: seq<Event> := [Connect, Connect, RegisterArm];
    var h := Run(ONE_CLIENT, 0, es);
    LifecycleInvariant(ONE_CLIENT, 0, es);
    TurnedAwayIsGone(ONE_CLIENT, h);
    RunSnoc(ONE_CLIENT, 0, es, RegisterArm);
    var more: seq<Event> := es + [RegisterArm];
    ReplyToGone(ONE_CLIENT, 0, more, 1, "x");
    assert more + [ClientMsg(1, UnknownRequest("x")), ClientAcks(1)] ==
      [Connect, Connect, RegisterArm, RegisterArm, ClientMsg(1, UnknownRequest("x")), ClientAcks(1)];
  }

  /** A gone client whose reader still waits panics the hub with any message that is answered. */
  lemma ReplyToGone(cfg: HubConfig, start: int, es: seq<Event>, c: nat, id: string)
    requires var h := Run(cfg, start, es); !h.panicked && IsReading(h, c) && !Present(h, c)
    ensures Run(cfg, start, es + [ClientMsg(c, UnknownRequest(id)), ClientAcks(c)]).panicked
  {
    var h := Run(cfg, start, es);
    var msg: Event := ClientMsg(c, UnknownRequest(id));
    LifecycleInvariant(cfg, start, es);
    StepKeeps(cfg, h, msg);
    GoneStays(cfg, h, msg, c);
    StepKeeps(cfg, Step(cfg, h, msg), ClientAcks(c));
    RunSnoc(cfg, start, es, msg);
    RunSnoc(cfg, start, es + [msg], ClientAcks(c));
    assert es + [msg, ClientAcks(c)] == es + [msg] + [ClientAcks(c)];
  }

  /**
   Every member of a live hub with empty queues and a frame to replay can panic it: it asks for a resync,
   disconnects, and the hub serves its unregistering before its resync.
   */
  lemma LeavingRacesResync(cfg: HubConfig, start: int, es: seq<Event>, c: nat)
    requires var h := Run(cfg, start, es);
      && h.running && !h.panicked && c in h.clients && IsReading(h, c)
      && h.unregister == [] && h.resync == [] && h.lastJSON.Some?
    ensures Run(cfg, start, es + [ClientMsg(c, ResyncRequest), ClientGone(c), UnregisterArm, ResyncArm]).panicked
  {
    var e1: Event, e2: Event := ClientMsg(c, ResyncRequest), ClientGone(c);
    RunSnoc(cfg, start, es, e1);
    RunSnoc(cfg, start, es + [e1], e2);
    RunSnoc(cfg, start, es + [e1] + [e2], UnregisterArm);
    RunSnoc(cfg, start, es + [e1] + [e2] + [UnregisterArm], ResyncArm);
    assert es + [e1, e2, UnregisterArm, ResyncArm] == es + [e1] + [e2] + [UnregisterArm] + [ResyncArm];
    AsksAndEnds(cfg, start, es, c);
    LeavesBeforeReplay(cfg, start, es + [e1] + [e2], c);
  }

  lemma AsksAndEnds(cfg: HubConfig, start: int, es: seq<Event>, c: nat)
    requires var h := Run(cfg, start, es);
      && h.running && !h.panicked && c in h.clients && IsReading(h, c)
      && h.unregister == [] && h.resync == [] && h.lastJSON.Some?
    ensures var p := Run(cfg, start, es + [ClientMsg(c, ResyncRequest)] + [ClientGone(c)]);
      && p.running && !p.panicked && p.lastJSON.Some? && c < |p.chans| && c in p.clients
      && p.unregister == [c] && p.resync == [c]
  {
    RunSnoc(cfg, start, es, ClientMsg(c, ResyncRequest));
    RunSnoc(cfg, start, es + [ClientMsg(c, ResyncRequest)], ClientGone(c));
  }

  lemma LeavesBeforeReplay(cfg: HubConfig, start: int, es: seq<Event>, c: nat)
    requires var h := Run(cfg, start, es);
      && h.running && !h.panicked && h.lastJSON.Some? && c < |h.chans| && c in h.clients
      && h.unregister == [c] && h.resync == [c]
    ensures Step(cfg, Step(cfg, Run(cfg, start, es), UnregisterArm), ResyncArm).panicked
  {
    var h := Run(cfg, start, es);
    LifecycleInvariant(cfg, start, es);
    StepKeeps(cfg, h, UnregisterArm);
    UnregisterHead(cfg, h);
    var p := Step(cfg, h, UnregisterArm);
    StepKeeps(cfg, p, ResyncArm);
  }

  /** Such a state is reached by one snapshot and one client. */
  lemma ResyncRaceIsReached(snap: Snapshot)
    requires snap.valid
    ensures Run(ONE_CLIENT, 0, [SnapArm(snap, 0), Connect, RegisterArm, ClientMsg(0, ResyncRequest), ClientGone(0),
                                UnregisterArm, ResyncArm]).panicked
  {
    var es: seq<Event> := [SnapArm(snap, 0), Connect, RegisterArm];
    OneMember(snap);
    LeavingRacesResync(ONE_CLIENT, 0, es, 0);
    assert es + [ClientMsg(0, ResyncRequest), ClientGone(0), UnregisterArm, ResyncArm] ==
      [SnapArm(snap, 0), Connect, RegisterArm, ClientMsg(0, ResyncRequest), ClientGone(0), UnregisterArm, ResyncArm];
  }

  lemma OneMember(snap: Snapshot)
    requires snap.valid
    ensures var h := Run(ONE_CLIENT, 0, [SnapArm(snap, 0), Connect, RegisterArm]);
      && h.running && !h.panicked && 0 in h.clients && IsReading(h, 0)
      && h.unregister == [] && h.resync == [] && h.lastJSON.Some?
  {
    var e: Event := SnapArm(snap, 0);
    RunSnoc(ONE_CLIENT, 0, [e], Connect);
    RunSnoc(ONE_CLIENT, 0, [e, Connect], RegisterArm);
    assert [e] + [Connect] == [e, Connect] && [e, Connect] + [RegisterArm] == [e, Connect, RegisterArm];
    FirstSnapshot(snap);
  }

  lemma FirstSnapshot(snap: Snapshot)
    requires snap.valid
    ensures Run(ONE_CLIENT, 0, [SnapArm(snap, 0)]) == NumberedSnap(Init(0), snap, 0)
  {
    RunSnoc(ONE_CLIENT, 0, [], SnapArm(snap, 0));
    assert [] + [SnapArm(snap, 0)] == [SnapArm(snap, 0)];
    NothingToSend(NumberedSnap(Init(0), snap, 0), TelemetryMsg(1, snap));
  }

  lemma NothingToSend(h: Hub, frame: WsFrame)
    requires h.chans == [] && h.clients == {}
    ensures BroadcastAll(h, frame) == h
  {
  }
}
