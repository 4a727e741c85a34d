/**
 The HID owner as the program runs it: a bounded verb queue, the drain before each tick, and the loop's
 variables, all updated in place. `model` is the owner as a value; every method says which steps of
 `OwnerLoop` it takes.
 */
module HidOwner {
  import opened Wire
  import opened Decoding
  import opened Router
  import opened OwnerLoop

  /** The opened device: it records the payloads written to it, and a write can fail at any time. */
  class Device {
    var written: seq<Frame>

    constructor ()
      ensures written == []
    {
      written := [];
    }

    /** One 65-byte write: the report ID 0 and the payload. */
    method Write(buf: seq<Byte>, fails: bool) returns (ok: bool)
      requires |buf| == REPORT_SIZE + 1 && buf[0] == 0
      modifies this
      ensures ok == !fails
      ensures written == if ok then old(written) + [buf[1..]] else old(written)
    {
      if fails {
        return false;
      }
      written := written + [buf[1..]];
      return true;
    }
  }

  method WriteReport(dev: Device, payload: Frame, fails: bool) returns (ok: bool)
    modifies dev
    ensures ok == !fails
    ensures dev.written == if ok then old(dev.written) + [payload] else old(dev.written)
  {
    var buf: seq<Byte> := [0] + payload;
    assert buf[1..] == payload;
    ok := dev.Write(buf, fails);
  }

  class HIDOwner {
    const cfg: Config
    var commands: seq<Command>
    ghost var model: Owner

    constructor (scopeOn: bool, spectrumOn: bool)
      ensures commands == [] && model == Init() && cfg == Config(scopeOn, spectrumOn)
    {
      cfg := Config(scopeOn, spectrumOn);
      commands := [];
      model := Init();
    }

    /** The queue is the model's queue, whether or not a device is open. */
    ghost predicate Queued()
      reads this
    {
      ValidRouter(model.router) && model.queue == commands
    }

    /** During a run, the loop's variables and the device's writes are the model's. */
    ghost predicate Running(loop: RunLoop, dev: Device)
      reads this, loop, loop.scopeBuf, loop.spectrumBuf, dev
    {
      && Queued() && !model.phase.Down?
      && loop.Valid() && loop.Cfg() == cfg
      && model.router == loop.View() && model.tickN == loop.tickN && model.outs == dev.written
    }

    method Submit(verb: string, value: int) returns (ok: bool)
      requires Queued()
      modifies this
      ensures Queued()
      ensures ok <==> verb in KNOWN_VERBS && |old(commands)| < QUEUE_SIZE
      ensures commands == if ok then old(commands) + [Command(verb, value)] else old(commands)
      ensures model == Step(cfg, old(model), Event.Submit(Command(verb, value)))
    {
      model := Step(cfg, model, Event.Submit(Command(verb, value)));
      if verb !in KNOWN_VERBS {
        return false;
      }
      if |commands| >= QUEUE_SIZE {
        return false;
      }
      commands := commands + [Command(verb, value)];
      return true;
    }

    /** The start of a run: fresh variables, an untouched device, the queue as it stands. */
    method OpenDevice() returns (loop: RunLoop, dev: Device)
      requires Queued() && model.phase.Down?
      modifies this
      ensures fresh(loop) && fresh(loop.scopeBuf) && fresh(loop.spectrumBuf) && fresh(dev)
      ensures Running(loop, dev) && commands == old(commands)
      ensures model == Step(cfg, old(model), Open)
    {
      loop := new RunLoop(cfg.scopeOn, cfg.spectrumOn);
      dev := new Device();
      model := Step(cfg, model, Open);
    }

    method OnFrame(loop: RunLoop, dev: Device, frame: Frame) returns (offer: Offer)
      requires Running(loop, dev) && model.phase.Idle?
      modifies this, loop, loop.scopeBuf, loop.spectrumBuf
      ensures Running(loop, dev) && commands == old(commands)
      ensures model == Step(cfg, old(model), Receive(ShapeOf(frame)))
      ensures model.offers == old(model.offers) + [offer]
    {
      model := Step(cfg, model, Receive(ShapeOf(frame)));
      offer := loop.OnFrame(frame);
    }

    /** What the drain and the write of one tick do to the owner, as events. */
    static ghost predicate IsDrainEvent(e: Event) {
      e.Submit? || e.Take?
    }

    /** The verbs the hub submits while one written command settles. */
    method SubmitAll(arrivals: seq<Command>) returns (ghost trace: seq<Event>)
      requires Queued()
      modifies this
      ensures Queued()
      ensures model == Replay(cfg, old(model), trace) && model.phase == old(model.phase)
      ensures model.router == old(model.router) && model.tickN == old(model.tickN) && model.outs == old(model.outs)
      ensures trace == seq(|arrivals|, i requires 0 <= i < |arrivals| => Event.Submit(arrivals[i]))
    {
      trace := [];
      for i := 0 to |arrivals|
        invariant Queued() && model == Replay(cfg, old(model), trace) && model.phase == old(model.phase)
        invariant model.router == old(model.router) && model.tickN == old(model.tickN)
        invariant model.outs == old(model.outs)
        invariant trace == seq(i, k requires 0 <= k < i => Event.Submit(arrivals[k]))
      {
        var ok := Submit(arrivals[i].verb, arrivals[i].value);
        ReplaySnoc(cfg, old(model), trace, Event.Submit(arrivals[i]));
        trace := trace + [Event.Submit(arrivals[i])];
      }
    }

    /** Takes the first queued verb and writes its report; a verb without encoding is skipped. */
    method TakeCommand(loop: RunLoop, dev: Device, fails: bool) returns (ok: bool, encoded: bool)
      requires Running(loop, dev) && model.phase.Draining? && commands != []
      modifies this, dev
      ensures model == Step(cfg, old(model), Take(!fails)) && commands == old(commands)[1..]
      ensures encoded <==> EncodeCommand(old(commands)[0].verb, old(commands)[0].value).Some?
      ensures ok <==> !encoded || !fails
      ensures Queued() && model.outs == dev.written
      ensures ok ==> Running(loop, dev) && model.phase.Draining?
      ensures !ok ==> model.phase.Down?
      ensures model.router == old(model.router) && model.tickN == old(model.tickN)
    {
      var command := commands[0];
      commands := commands[1..];
      model := Step(cfg, model, Take(!fails));
      var report := EncodeCommand(command.verb, command.value);
      if report.None? {
        return true, false;
      }
      ok := WriteReport(dev, report.value, fails);
      encoded := true;
    }

    /** Takes one verb and, if it was written, lets it settle while `arrivals` are submitted. */
    method TakeAndSettle(loop: RunLoop, dev: Device, arrivals: seq<Command>, fails: bool)
      returns (ok: bool, encoded: bool, ghost trace: seq<Event>)
      requires Running(loop, dev) && model.phase.Draining? && commands != []
      modifies this, dev
      ensures forall i :: 0 <= i < |trace| ==> IsDrainEvent(trace[i])
      ensures model == Replay(cfg, old(model), trace)
      ensures ok ==> Running(loop, dev) && model.phase.Draining?
      ensures !ok ==> model.phase.Down? && Queued() && model.outs == dev.written
      ensures ok && (!encoded || arrivals == []) ==> |commands| < |old(commands)|
      ensures model.router == old(model.router) && model.tickN == old(model.tickN)
    {
      ghost var event := Take(!fails);
      trace := [event];
      ok, encoded := TakeCommand(loop, dev, fails);
      ReplayOne(cfg, old(model), event);
      if ok && encoded && arrivals != [] {
        ghost var settle := SubmitAll(arrivals);
        ReplayConcat(cfg, old(model), trace, settle);
        trace := trace + settle;
      }
    }

    /**
     Takes verbs until the queue is empty or a write fails. `arrivals[k]` are submitted while the k-th
     written verb settles, and `fails` decides the outcome of each write.
     */
    method DrainCommands(loop: RunLoop, dev: Device, arrivals: seq<seq<Command>>, fails: nat -> bool)
      returns (ok: bool, ghost trace: seq<Event>)
      requires Running(loop, dev) && model.phase.Draining?
      modifies this, dev
      ensures forall i :: 0 <= i < |trace| ==> IsDrainEvent(trace[i])
      ensures model == Replay(cfg, old(model), trace)
      ensures Queued() && (ok <==> model.phase.Draining?)
      ensures ok ==> Running(loop, dev) && commands == []
      ensures !ok ==> model.phase.Down?
      ensures model.outs == dev.written && model.router == old(model.router) && model.tickN == old(model.tickN)
    {
      trace := [];
      var k := 0;
      while commands != []
        invariant 0 <= k
        invariant Running(loop, dev) && model.phase.Draining?
        invariant model == Replay(cfg, old(model), trace)
        invariant model.router == old(model.router) && model.tickN == old(model.tickN)
        invariant forall i :: 0 <= i < |trace| ==> IsDrainEvent(trace[i])
        decreases if k < |arrivals| then |arrivals| - k else 0, |commands|
      {
        var encoded;
        ghost var more;
        ok, encoded, more := TakeAndSettle(loop, dev, if k < |arrivals| then arrivals[k] else [], fails(k));
        ReplayConcat(cfg, old(model), trace, more);
        trace := trace + more;
        if !ok {
          return;
        }
        if encoded {
          k := k + 1;
        }
      }
      return true, trace;
    }

    /** The timer fires: the drain begins. */
    method FireTick(loop: RunLoop, dev: Device)
      requires Running(loop, dev) && model.phase.Idle?
      modifies `model
      ensures Running(loop, dev) && model.phase.Draining? && model == Replay(cfg, old(model), [TickFires])
      ensures model.tickN == old(model.tickN)
    {
      model := Step(cfg, model, TickFires);
      ReplayOne(cfg, old(model), TickFires);
    }

    /** The report of a tick, once the queue is drained. */
    method WriteScheduled(loop: RunLoop, dev: Device, fails: bool) returns (ok: bool)
      requires Running(loop, dev) && model.phase.Draining? && commands == []
      modifies this, loop`tickN, dev
      ensures model == Replay(cfg, old(model), [Event.Write(!fails)])
      ensures Queued() && ok == !fails && (ok <==> model.phase.Idle?) && (!ok ==> model.phase.Down?)
      ensures ok ==> Running(loop, dev) && model.tickN == old(model.tickN) + 1
      ensures ok ==> |dev.written| > 0
                     && dev.written[|dev.written| - 1] == TickReport(loop.lastTopMode, old(model.tickN) + 1)
      ensures model.outs == dev.written
    {
      var payload := loop.OnTick();
      ok := WriteReport(dev, payload, fails);
      model := Step(cfg, model, Event.Write(!fails));
      ReplayOne(cfg, old(model), Event.Write(!fails));
    }

    /** The first part of a tick: the timer fires and the verbs are drained. */
    method DrainTick(loop: RunLoop, dev: Device, arrivals: seq<seq<Command>>, fails: nat -> bool)
      returns (ok: bool, ghost drained: seq<Event>)
      requires Running(loop, dev) && model.phase.Idle?
      modifies this, dev
      ensures forall i :: 0 <= i < |drained| ==> IsDrainEvent(drained[i])
      ensures model == Replay(cfg, old(model), [TickFires] + drained)
      ensures Queued() && (ok <==> model.phase.Draining?)
      ensures ok ==> Running(loop, dev) && commands == []
      ensures !ok ==> model.phase.Down?
      ensures model.outs == dev.written && model.tickN == old(model.tickN)
    {
      FireTick(loop, dev);
      ok, drained := DrainCommands(loop, dev, arrivals, fails);
      ReplayConcat(cfg, old(model), [TickFires], drained);
    }

    /** One tick of the poll timer: drain the verbs, then write the scheduled report. */
    method OnTick(loop: RunLoop, dev: Device, arrivals: seq<seq<Command>>, fails: nat -> bool, tickFails: bool)
      returns (ok: bool, ghost trace: seq<Event>)
      requires Running(loop, dev) && model.phase.Idle?
      modifies this, loop`tickN, dev
      ensures |trace| > 0 && trace[0] == TickFires
      ensures forall i :: 1 <= i < |trace| - 1 ==> IsDrainEvent(trace[i])
      ensures ok ==> trace[|trace| - 1] == Event.Write(true)
      ensures model == Replay(cfg, old(model), trace)
      ensures ok ==> model.tickN == old(model.tickN) + 1
      ensures Queued() && (ok <==> model.phase.Idle?)
      ensures ok ==> Running(loop, dev) && |dev.written| > 0
                     && dev.written[|dev.written| - 1] == TickReport(loop.lastTopMode, old(model.tickN) + 1)
      ensures !ok ==> model.phase.Down?
      ensures model.outs == dev.written
    {
      ghost var drained;
      ok, drained := DrainTick(loop, dev, arrivals, fails);
      DrainThenWrite(drained, Event.Write(!tickFails));
      trace := [TickFires] + drained;
      if ok {
        ghost var before := model;
        ok := WriteScheduled(loop, dev, tickFails);
        ReplayJoin(cfg, old(model), trace, before, [Event.Write(!tickFails)], model);
        trace := trace + [Event.Write(!tickFails)];
      }
    }

    static lemma DrainThenWrite(drained: seq<Event>, write: Event)
      requires forall i :: 0 <= i < |drained| ==> IsDrainEvent(drained[i])
      ensures forall i :: 1 <= i < |drained| ==> IsDrainEvent(([TickFires] + drained)[i])
      ensures var trace := [TickFires] + drained + [write];
        && trace[0] == TickFires && trace[|trace| - 1] == write
        && forall i :: 1 <= i < |trace| - 1 ==> IsDrainEvent(trace[i])
    {
      var trace := [TickFires] + drained + [write];
      forall i | 1 <= i < |trace| - 1 ensures IsDrainEvent(trace[i]) {
        assert trace[i] == drained[i - 1];
      }
    }
  }

  /** The same for two runs that meet. */
  lemma ReplayJoin(c: Config, o: Owner, es: seq<Event>, mid: Owner, more: seq<Event>, end: Owner)
    requires ValidRouter(o.router) && mid == Replay(c, o, es) && end == Replay(c, mid, more)
    ensures end == Replay(c, o, es + more)
  {
    ReplayConcat(c, o, es, more);
  }

  lemma ReplayOne(c: Config, o: Owner, e: Event)
    requires ValidRouter(o.router)
    ensures Replay(c, o, [e]) == Step(c, o, e)
  {
    assert [e][..0] == [];
  }

  lemma {:induction false} ReplayConcat(c: Config, o: Owner, es: seq<Event>, more: seq<Event>)
    requires ValidRouter(o.router)
    ensures Replay(c, o, es + more) == Replay(c, Replay(c, o, es), more)
  {
    if more == [] {
      assert es + more == es;
    } else {
      var init, e := more[..|more| - 1], more[|more| - 1];
      ReplayConcat(c, o, es, init);
      var whole := es + more;
      assert whole[..|whole| - 1] == es + init && whole[|whole| - 1] == e;
    }
  }
}
