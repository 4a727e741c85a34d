/**
 Whether a client that disconnects leaves the hub. Its one unregister request can be dropped, because the
 queue is full, or served before its register request; then the client stays in the map until the shutdown.
 */
module HubDeparture {
  import opened Hub
  import opened HubLifecycle

  /** The two ways an unregister request of `c` comes to nothing. */
  predicate Misses(h: Hub, e: Event, c: nat) {
    !h.panicked
    && ((e == ClientGone(c) && IsReading(h, c) && |h.unregister| >= ARM_BUFFER)
        || (e.UnregisterArm? && h.running && h.unregister != [] && h.unregister[0] == c && c in h.register))
  }

  /** Some event of the run was such a miss. */
  predicate Missed(cfg: HubConfig, start: int, es: seq<Event>, c: nat) {
    es != []
    && (Missed(cfg, start, es[..|es| - 1], c) || Misses(Run(cfg, start, es[..|es| - 1]), es[|es| - 1], c))
  }

  /** An ended client that does not wait to leave stays exactly if its request was missed. */
  ghost predicate Departs(h: Hub, c: nat, missed: bool) {
    && (missed ==>
          && IsEnded(h, c) && c !in h.unregister
          && (h.running ==> c in h.clients || c in h.register || !h.chans[c].joined))
    && (IsEnded(h, c) && c !in h.unregister && !missed ==> c !in h.register && (h.running ==> c !in h.clients))
  }

  lemma EndedOnlyByGone(cfg: HubConfig, h: Hub, e: Event, c: nat)
    requires e != ClientGone(c) && c < |h.chans|
    ensures IsEnded(Step(cfg, h, e), c) <==> IsEnded(h, c)
  {
    if IsReader(e) && e.client == c {
      OwnEventEndsNothing(cfg, h, e);
    } else if !e.Connect? {
      OthersKeepReaders(cfg, h, e, c);
    }
  }

  lemma OwnEventEndsNothing(cfg: HubConfig, h: Hub, e: Event)
    requires e.ClientMsg? || e.ClientSubmits? || e.ClientAcks?
    ensures e.client < |h.chans| ==> (IsEnded(Step(cfg, h, e), e.client) <==> IsEnded(h, e.client))
  {
  }

  lemma GoneDeparts(cfg: HubConfig, h: Hub, c: nat, missed: bool)
    requires Lifecycle(cfg, h) && !h.panicked && Departs(h, c, missed)
    ensures var e: Event := ClientGone(c); Departs(Step(cfg, h, e), c, missed || Misses(h, e, c))
  {
    if IsReading(h, c) {
      NotWaitingToLeave(cfg, h, c);
      assert ChanOk(h, c);
    }
  }

  lemma UnregisterDeparts(cfg: HubConfig, h: Hub, c: nat, missed: bool)
    requires Lifecycle(cfg, h) && !h.panicked && Departs(h, c, missed) && h.running && h.unregister != []
    ensures Departs(Step(cfg, h, UnregisterArm), c, missed || Misses(h, UnregisterArm, c))
  {
    UnregisterHead(cfg, h);
    if c < |h.chans| {
      EndedOnlyByGone(cfg, h, UnregisterArm, c);
    }
  }

  lemma RegisterDeparts(cfg: HubConfig, h: Hub, c: nat, missed: bool)
    requires Lifecycle(cfg, h) && !h.panicked && Departs(h, c, missed) && h.running && h.register != []
    ensures Departs(Step(cfg, h, RegisterArm), c, missed)
  {
    RegisterHead(cfg, h);
    if c < |h.chans| {
      EndedOnlyByGone(cfg, h, RegisterArm, c);
    }
  }

  lemma QueueArmDeparts(cfg: HubConfig, h: Hub, e: Event, c: nat, missed: bool)
    requires Lifecycle(cfg, h) && !h.panicked && Departs(h, c, missed) && IsQueueArm(e)
    ensures Departs(Step(cfg, h, e), c, missed || Misses(h, e, c))
  {
    if e.UnregisterArm? && h.running && h.unregister != [] {
      UnregisterDeparts(cfg, h, c, missed);
    } else if e.RegisterArm? && h.running && h.register != [] {
      RegisterDeparts(cfg, h, c, missed);
    } else if c < |h.chans| {
      EndedOnlyByGone(cfg, h, e, c);
    }
  }

  lemma DepartsStep(cfg: HubConfig, h: Hub, e: Event, c: nat, missed: bool)
    requires Lifecycle(cfg, h) && !h.panicked && Departs(h, c, missed)
    ensures Departs(Step(cfg, h, e), c, missed || Misses(h, e, c))
  {
    if IsQueueArm(e) {
      QueueArmDeparts(cfg, h, e, c, missed);
    } else if e == ClientGone(c) {
      GoneDeparts(cfg, h, c, missed);
    } else if c < |h.chans| {
      EndedOnlyByGone(cfg, h, e, c);
      JoinedOnlyByRegister(cfg, h, e, c);
      if !e.Connect? && !e.ClientGone? {
        OthersKeepMembers(cfg, h, e);
      }
    } else {
      NewClientsRead(cfg, h, e, c);
    }
  }

  lemma JoinedOnlyByRegister(cfg: HubConfig, h: Hub, e: Event, c: nat)
    requires !e.RegisterArm? && c < |h.chans|
    ensures var p := Step(cfg, h, e); c < |p.chans| && p.chans[c].joined == h.chans[c].joined
  {
    if IsReader(e) && e.client == c {
      if HasPumps(h, c) {
        OwnEventKeepsPumps(cfg, h, e);
      }
    } else if !e.Connect? {
      OthersKeepReaders(cfg, h, e, c);
    }
  }

  lemma NewClientsRead(cfg: HubConfig, h: Hub, e: Event, c: nat)
    requires c >= |h.chans|
    ensures !IsEnded(Step(cfg, h, e), c)
  {
    if h.chans != [] && !e.Connect? {
      if IsReader(e) && e.client == 0 {
        if HasPumps(h, 0) {
          OwnEventKeepsPumps(cfg, h, e);
        }
      } else {
        OthersKeepReaders(cfg, h, e, 0);
      }
    }
  }

  lemma {:induction false} DepartsInRun(cfg: HubConfig, start: int, es: seq<Event>, c: nat)
    ensures Departs(Run(cfg, start, es), c, Missed(cfg, start, es, c))
  {
    if es != [] {
      var init := es[..|es| - 1];
      DepartsInRun(cfg, start, init, c);
      LifecycleInvariant(cfg, start, init);
      if !Run(cfg, start, init).panicked {
        DepartsStep(cfg, Run(cfg, start, init), es[|es| - 1], c, Missed(cfg, start, init, c));
      }
    }
  }

  /**
   In every run of the live hub, a registered client whose reader ended and that no longer waits to leave is
   still in the map if and only if its unregister request was dropped or served too early.
   */
  lemma LeavesUnlessMissed(cfg: HubConfig, start: int, es: seq<Event>, c: nat)
    requires var h := Run(cfg, start, es);
      h.running && IsEnded(h, c) && h.chans[c].joined && c !in h.unregister
    ensures c in Run(cfg, start, es).clients <==> Missed(cfg, start, es, c)
  {
    DepartsInRun(cfg, start, es, c);
    LifecycleInvariant(cfg, start, es);
    assert ChanOk(Run(cfg, start, es), c);
  }

  lemma {:induction false} MissedStays(cfg: HubConfig, start: int, es: seq<Event>, more: seq<Event>, c: nat)
    requires Missed(cfg, start, es, c)
    ensures Missed(cfg, start, es + more, c)
  {
    if more == [] {
      assert es + more == es;
    } else {
      MissedStays(cfg, start, es, more[..|more| - 1], c);
      assert (es + more)[..|es + more| - 1] == es + more[..|more| - 1];
    }
  }

  /** Once missed, a registered client takes up a place until the shutdown, whatever happens. */
  lemma MissedClientsStay(cfg: HubConfig, start: int, es: seq<Event>, more: seq<Event>, c: nat)
    requires Missed(cfg, start, es, c)
    requires var h := Run(cfg, start, es + more); h.running && c < |h.chans| && h.chans[c].joined
    ensures c in Run(cfg, start, es + more).clients
  {
    MissedStays(cfg, start, es, more, c);
    DepartsInRun(cfg, start, es + more, c);
    LifecycleInvariant(cfg, start, es + more);
    assert ChanOk(Run(cfg, start, es + more), c);
  }

  /** A client that disconnects before it was registered, by the state it leaves. */
  lemma GoneEarly(cfg: HubConfig)
    ensures Run(cfg, 0, [Connect, ClientGone(0)]) ==
            Init(0).(chans := [FreshChan(Ended)], register := [0], unregister := [0])
  {
    RunSnoc(cfg, 0, [], Connect);
    RunSnoc(cfg, 0, [Connect], ClientGone(0));
    assert [] + [Connect] == [Connect] && [Connect] + [ClientGone(0)] == [Connect, ClientGone(0)];
  }

  /** It takes one client to get there: it disconnects and is unregistered before it is registered. */
  lemma EarlyUnregisterIsMissed(cfg: HubConfig)
    requires cfg.maxClients > 0
    ensures var h := Run(cfg, 0, [Connect, ClientGone(0), UnregisterArm, RegisterArm]);
      h.running && !h.panicked && IsEnded(h, 0) && h.register == [] && h.unregister == [] && 0 in h.clients
  {
    var es: seq<Event> := [Connect, ClientGone(0)];
    GoneEarly(cfg);
    RunSnoc(cfg, 0, es, UnregisterArm);
    RunSnoc(cfg, 0, es + [UnregisterArm], RegisterArm);
    assert es + [UnregisterArm] + [RegisterArm] == [Connect, ClientGone(0), UnregisterArm, RegisterArm];
    RegisteredAfterAll(cfg, Run(cfg, 0, es));
  }

  lemma RegisteredAfterAll(cfg: HubConfig, h: Hub)
    requires cfg.maxClients > 0
    requires h == Init(0).(chans := [FreshChan(Ended)], register := [0], unregister := [0])
    ensures var p := Step(cfg, Step(cfg, h, UnregisterArm), RegisterArm);
      p.running && !p.panicked && IsEnded(p, 0) && p.register == [] && p.unregister == [] && 0 in p.clients
  {
    assert Step(cfg, h, UnregisterArm) == h.(unregister := []);
  }
}
