/**
 The HID owner over its whole life: the verb queue, the drain before every tick, the writes, and the
 reopening with back-off. `Owner` is its state as a value, with the history of what went in and out, and
 `Step` is one atomic event; an event that is not enabled leaves the state as it is, so every sequence of
 events is a run. Class `HIDOwner` in module `HidOwner` is proved to take exactly these steps.
 */
module OwnerLoop {
  import opened Wire
  import opened Decoding
  import opened Wrappers
  import opened Snapshots
  import opened Router
  import opened RouterHistory

  const QUEUE_SIZE: nat := 16
  const MAX_BACKOFF: nat := 30

  datatype Command = Command(verb: string, value: int)

  /** What became of a verb the drain took off the queue. */
  datatype Fate = Sent | LostOnWrite | Unencodable

  datatype Taken = Taken(command: Command, fate: Fate)

  /** One tick that was written: the page it was scheduled for, the frames received by then and the report. */
  datatype Tick = Tick(topMode: string, heard: nat, report: Frame)

  /** Outside a run; waiting in the select; inside the drain of a tick. */
  datatype Phase = Down | Idle | Draining

  datatype Owner = Owner(
    phase: Phase,
    queue: seq<Command>, accepted: seq<Command>, taken: seq<Taken>, takenAtOpen: nat,
    failures: nat, backoff: nat, delays: seq<nat>,
    router: Router, tickN: nat,
    ins: seq<Shape>, offers: seq<Offer>, outs: seq<Frame>, ticks: seq<Tick>)

  datatype Event =
    | Submit(command: Command)
    | Open
    | OpenFails
    | Receive(shape: Shape)
    | ReadFails
    | TickFires
    | Take(writeOk: bool)
    | Write(payloadOk: bool)

  function Init(): Owner {
    Owner(Down, [], [], [], 0, 0, 1, [], Start(), 0, [], [], [], [])
  }

  predicate Accepts(o: Owner, command: Command) {
    command.verb in KNOWN_VERBS && |o.queue| < QUEUE_SIZE
  }

  /** A run ended: wait the current delay, then double it up to the cap. */
  function Fail(o: Owner): Owner {
    o.(phase := Down, failures := o.failures + 1, delays := o.delays + [o.backoff],
       backoff := if o.backoff * 2 > MAX_BACKOFF then MAX_BACKOFF else o.backoff * 2)
  }

  function TakeOne(o: Owner, writeOk: bool): Owner
    requires o.queue != []
  {
    var command := o.queue[0];
    var rest := o.(queue := o.queue[1..]);
    match EncodeCommand(command.verb, command.value)
    case None => rest.(taken := o.taken + [Taken(command, Unencodable)])
    case Some(report) =>
      if writeOk then rest.(taken := o.taken + [Taken(command, Sent)], outs := o.outs + [report])
      else Fail(rest.(taken := o.taken + [Taken(command, LostOnWrite)]))
  }

  function WriteTick(o: Owner, payloadOk: bool): Owner {
    var n := o.tickN + 1;
    var report := TickReport(o.router.lastTopMode, n);
    var counted := o.(tickN := n);
    if payloadOk then
      counted.(phase := Idle, outs := o.outs + [report],
             ticks := o.ticks + [Tick(o.router.lastTopMode, |o.ins|, report)])
    else Fail(counted)
  }

  function Step(c: Config, o: Owner, e: Event): (p: Owner)
    requires ValidRouter(o.router)
    ensures ValidRouter(p.router)
  {
    match e
    case Submit(command) =>
      if Accepts(o, command) then o.(queue := o.queue + [command], accepted := o.accepted + [command]) else o
    case Open =>
      if o.phase.Down? then
        o.(phase := Idle, takenAtOpen := |o.taken|, router := Start(), tickN := 0,
           ins := [], offers := [], outs := [], ticks := [])
      else o
    case OpenFails => if o.phase.Down? then Fail(o) else o
    case Receive(shape) =>
      if o.phase.Idle? then
        var routed := Route(c, o.router, shape);
        o.(router := routed.0, ins := o.ins + [shape], offers := o.offers + [routed.1])
      else o
    case ReadFails => if o.phase.Idle? then Fail(o) else o
    case TickFires => if o.phase.Idle? then o.(phase := Draining) else o
    case Take(writeOk) => if o.phase.Draining? && o.queue != [] then TakeOne(o, writeOk) else o
    case Write(payloadOk) => if o.phase.Draining? && o.queue == [] then WriteTick(o, payloadOk) else o
  }

  /** The state after a run of events from `o`. */
  function Replay(c: Config, o: Owner, es: seq<Event>): (r: Owner)
    requires ValidRouter(o.router)
    ensures ValidRouter(r.router)
  {
    if es == [] then o else Step(c, Replay(c, o, es[..|es| - 1]), es[|es| - 1])
  }

  lemma ReplaySnoc(c: Config, o: Owner, es: seq<Event>, e: Event)
    requires ValidRouter(o.router)
    ensures Replay(c, o, es + [e]) == Step(c, Replay(c, o, es), e)
  {
    assert (es + [e])[..|es|] == es;
  }

  // ------------------------------------------------------------ invariants

  function Commands(taken: seq<Taken>): (commands: seq<Command>)
    ensures |commands| == |taken|
  {
    seq(|taken|, i requires 0 <= i < |taken| => taken[i].command)
  }

  function CountLost(taken: seq<Taken>): nat {
    if taken == [] then 0
    else CountLost(taken[..|taken| - 1]) + if taken[|taken| - 1].fate.LostOnWrite? then 1 else 0
  }

  /** Verbs are conserved, in order; at most one is lost per failed run, and none for want of an encoding. */
  predicate Conserved(o: Owner) {
    && o.accepted == Commands(o.taken) + o.queue
    && |o.queue| <= QUEUE_SIZE
    && (forall i :: 0 <= i < |o.accepted| ==> o.accepted[i].verb in KNOWN_VERBS)
    && (forall i :: 0 <= i < |o.taken| ==> !o.taken[i].fate.Unencodable?)
    && CountLost(o.taken) <= o.failures
  }

  /** The control reports among the writes, and the rest. */
  function Controls(outs: seq<Frame>): seq<Frame> {
    if outs == [] then []
    else Controls(outs[..|outs| - 1]) + if outs[|outs| - 1][0] >= 0x37 then [outs[|outs| - 1]] else []
  }

  function Requests(outs: seq<Frame>): seq<Frame> {
    if outs == [] then []
    else Requests(outs[..|outs| - 1]) + if outs[|outs| - 1][0] < 0x37 then [outs[|outs| - 1]] else []
  }

  /** The reports of the verbs that were taken and written. */
  function Encoded(taken: seq<Taken>): seq<Frame> {
    if taken == [] then []
    else
      var t := taken[|taken| - 1];
      var report := EncodeCommand(t.command.verb, t.command.value);
      Encoded(taken[..|taken| - 1]) + if t.fate.Sent? && report.Some? then [report.value] else []
  }

  function Reports(ticks: seq<Tick>): (reports: seq<Frame>)
    ensures |reports| == |ticks|
  {
    seq(|ticks|, i requires 0 <= i < |ticks| => ticks[i].report)
  }

  /**
   What reached the meter since the device was opened: the verbs taken since then and not lost, in order,
   interleaved with one report per tick; only the last verb can have been lost, and only by ending the run.
   */
  predicate WritesAreVerbsAndTicks(o: Owner) {
    && o.takenAtOpen <= |o.taken|
    && Controls(o.outs) == Encoded(o.taken[o.takenAtOpen..])
    && Requests(o.outs) == Reports(o.ticks)
    && forall i :: o.takenAtOpen <= i < |o.taken| && o.taken[i].fate.LostOnWrite? ==>
         i == |o.taken| - 1 && o.phase.Down?
  }

  function Pow2(n: nat): nat {
    if n == 0 then 1 else 2 * Pow2(n - 1)
  }

  function Delay(k: nat): nat {
    if Pow2(k) > MAX_BACKOFF then MAX_BACKOFF else Pow2(k)
  }

  predicate BacksOff(o: Owner) {
    && |o.delays| == o.failures
    && o.backoff == Delay(o.failures)
    && forall k :: 0 <= k < o.failures ==> o.delays[k] == Delay(k)
  }

  predicate OnSchedule(ticks: seq<Tick>) {
    forall n :: 0 <= n < |ticks| ==> ticks[n].report == TickReport(ticks[n].topMode, n + 1)
  }

  /** Ticks are numbered 1, 2, 3, ... and each sent the report of its number and page. */
  predicate TicksFollowSchedule(o: Owner) {
    (!o.phase.Down? ==> o.tickN == |o.ticks|) && OnSchedule(o.ticks)
  }

  /** The page a history shows: none before the first telemetry frame. */
  function PageOf(reading: Option<Snapshot>): string {
    if reading.Some? then reading.value.topMode else ""
  }

  predicate SeesPage(t: Tick, ins: seq<Shape>) {
    t.heard <= |ins| && t.topMode == PageOf(LastReading(ins[..t.heard]))
  }

  /** Each tick was scheduled for the page of the latest telemetry frame received by then. */
  ghost predicate TicksSeePages(o: Owner) {
    forall n :: 0 <= n < |o.ticks| ==> SeesPage(o.ticks[n], o.ins)
  }

  /** If both reports are sample requests, the second asks for the next segment. */
  predicate Follows(first: Frame, second: Frame) {
    IsSampleRequest(first) && IsSampleRequest(second) ==> second[0] == first[0] + 1
  }

  ghost predicate Successive(outs: seq<Frame>) {
    && (forall i :: 0 <= i < |outs| ==> outs[i] == Report(outs[i][0]))
    && forall i, j :: 0 <= i && j == i + 1 && j < |outs| ==> Follows(outs[i], outs[j])
  }

  /** Back-to-back sample requests ask for successive segments, in step with the tick number. */
  ghost predicate SamplesAreSuccessive(o: Owner) {
    && Successive(o.outs)
    && (!o.phase.Down? && o.outs != [] && IsSampleRequest(o.outs[|o.outs| - 1]) ==>
          o.outs[|o.outs| - 1][0] == POLL + o.tickN % SAMPLE_CYCLE)
  }

  predicate RoutesHistory(c: Config, o: Owner) {
    RouteAll(c, o.ins) == Routed(o.router, o.offers)
  }

  ghost predicate Invariant(c: Config, o: Owner) {
    Conserved(o) && WritesAreVerbsAndTicks(o) && BacksOff(o)
    && TicksFollowSchedule(o) && TicksSeePages(o) && SamplesAreSuccessive(o) && RoutesHistory(c, o)
  }

  lemma ConservedTake(o: Owner, writeOk: bool)
    requires Conserved(o) && o.queue != []
    ensures Conserved(TakeOne(o, writeOk))
  {
    var p, command := TakeOne(o, writeOk), o.queue[0];
    assert o.accepted[|o.taken|] == command;
    KnownVerbsEncode(command.verb, command.value);
    assert p.taken[..|o.taken|] == o.taken;
    assert Commands(p.taken) == Commands(o.taken) + [command];
    assert o.queue == [command] + o.queue[1..];
  }

  lemma ConservedStep(c: Config, o: Owner, e: Event)
    requires Conserved(o) && ValidRouter(o.router)
    ensures Conserved(Step(c, o, e))
  {
    if e.Take? && o.phase.Draining? && o.queue != [] {
      ConservedTake(o, e.writeOk);
    }
  }

  lemma WriteSnoc(outs: seq<Frame>, report: Frame)
    ensures Controls(outs + [report]) == Controls(outs) + if report[0] >= 0x37 then [report] else []
    ensures Requests(outs + [report]) == Requests(outs) + if report[0] < 0x37 then [report] else []
  {
    assert (outs + [report])[..|outs|] == outs;
  }

  lemma EncodedSnoc(taken: seq<Taken>, t: Taken)
    ensures var report := EncodeCommand(t.command.verb, t.command.value);
      Encoded(taken + [t]) == Encoded(taken) + if t.fate.Sent? && report.Some? then [report.value] else []
  {
    assert (taken + [t])[..|taken|] == taken;
  }

  /** What taking a verb records. */
  lemma TakeRecords(o: Owner, writeOk: bool)
    requires o.queue != []
    ensures var p, report := TakeOne(o, writeOk), EncodeCommand(o.queue[0].verb, o.queue[0].value);
      var fate := if report.None? then Unencodable else if writeOk then Sent else LostOnWrite;
      && p.queue == o.queue[1..] && p.accepted == o.accepted && p.takenAtOpen == o.takenAtOpen && p.ticks == o.ticks
      && p.taken == o.taken + [Taken(o.queue[0], fate)]
      && p.outs == (if fate.Sent? then o.outs + [report.value] else o.outs)
      && p.phase == (if fate.LostOnWrite? then Down else o.phase)
  {
  }

  lemma SuffixSnoc<T>(s: seq<T>, x: T, n: nat)
    requires n <= |s|
    ensures (s + [x])[n..] == s[n..] + [x]
  {
  }

  lemma WritesTake(o: Owner, writeOk: bool)
    requires WritesAreVerbsAndTicks(o) && o.queue != [] && o.phase.Draining?
    ensures WritesAreVerbsAndTicks(TakeOne(o, writeOk))
  {
    var verb, value := o.queue[0].verb, o.queue[0].value;
    var t := TakeOne(o, writeOk).taken[|o.taken|];
    KnownVerbsEncode(verb, value);
    TakeRecords(o, writeOk);
    SuffixSnoc(o.taken, t, o.takenAtOpen);
    EncodedSnoc(o.taken[o.takenAtOpen..], t);
    if t.fate.Sent? {
      WriteSnoc(o.outs, EncodeCommand(verb, value).value);
    }
  }

  lemma ReportsSnoc(ticks: seq<Tick>, t: Tick)
    ensures Reports(ticks + [t]) == Reports(ticks) + [t.report]
  {
  }

  /** One more tick was written, and nothing taken. */
  lemma WrittenTick(o: Owner, p: Owner, t: Tick)
    requires WritesAreVerbsAndTicks(o) && o.phase.Draining? && p.phase.Idle?
    requires p.taken == o.taken && p.takenAtOpen == o.takenAtOpen
    requires p.outs == o.outs + [t.report] && p.ticks == o.ticks + [t] && t.report[0] < 0x37
    ensures WritesAreVerbsAndTicks(p)
  {
    WriteSnoc(o.outs, t.report);
    ReportsSnoc(o.ticks, t);
  }

  lemma TickReportIsNoControl(topMode: string, n: nat)
    ensures TickReport(topMode, n)[0] < 0x37
  {
  }

  lemma WritesTick(o: Owner, payloadOk: bool)
    requires WritesAreVerbsAndTicks(o) && o.phase.Draining?
    ensures WritesAreVerbsAndTicks(WriteTick(o, payloadOk))
  {
    if payloadOk {
      var report := TickReport(o.router.lastTopMode, o.tickN + 1);
      TickReportIsNoControl(o.router.lastTopMode, o.tickN + 1);
      WrittenTick(o, WriteTick(o, true), Tick(o.router.lastTopMode, |o.ins|, report));
    }
  }

  lemma WritesStep(c: Config, o: Owner, e: Event)
    requires WritesAreVerbsAndTicks(o) && ValidRouter(o.router)
    ensures WritesAreVerbsAndTicks(Step(c, o, e))
  {
    if e.Take? && o.phase.Draining? && o.queue != [] {
      WritesTake(o, e.writeOk);
    } else if e.Write? && o.phase.Draining? && o.queue == [] {
      WritesTick(o, e.payloadOk);
    }
  }

  lemma {:induction false} Pow2Grows(k: nat)
    ensures Pow2(k) >= 1 && Pow2(k + 1) == 2 * Pow2(k)
  {
    if k > 0 {
      Pow2Grows(k - 1);
    }
  }

  lemma BacksOffStep(c: Config, o: Owner, e: Event)
    requires BacksOff(o) && ValidRouter(o.router)
    ensures BacksOff(Step(c, o, e))
  {
    Pow2Grows(o.failures);
    assert BacksOff(Fail(o));
  }

  lemma TicksStep(c: Config, o: Owner, e: Event)
    requires TicksFollowSchedule(o) && ValidRouter(o.router)
    ensures TicksFollowSchedule(Step(c, o, e))
  {
    if e.Write? {
      TicksWrite(o, e.payloadOk);
    } else if e.Take? && o.phase.Draining? && o.queue != [] {
      TicksTake(o, e.writeOk);
    }
  }

  lemma TicksWrite(o: Owner, payloadOk: bool)
    requires TicksFollowSchedule(o)
    ensures o.phase.Draining? ==> TicksFollowSchedule(WriteTick(o, payloadOk))
  {
    if o.phase.Draining? && payloadOk {
      var t := Tick(o.router.lastTopMode, |o.ins|, TickReport(o.router.lastTopMode, o.tickN + 1));
      ScheduleSnoc(o.ticks, t);
      assert WriteTick(o, payloadOk).ticks == o.ticks + [t];
    }
  }

  lemma ScheduleSnoc(ticks: seq<Tick>, t: Tick)
    requires OnSchedule(ticks) && t.report == TickReport(t.topMode, |ticks| + 1)
    ensures OnSchedule(ticks + [t])
  {
  }

  lemma TicksTake(o: Owner, writeOk: bool)
    requires TicksFollowSchedule(o) && o.phase.Draining? && o.queue != []
    ensures TicksFollowSchedule(TakeOne(o, writeOk))
  {
  }

  lemma SeesPageLater(t: Tick, ins: seq<Shape>, shape: Shape)
    requires SeesPage(t, ins)
    ensures SeesPage(t, ins + [shape])
  {
    assert (ins + [shape])[..t.heard] == ins[..t.heard];
  }

  lemma ReceiveSeesPages(c: Config, o: Owner, shape: Shape)
    requires TicksSeePages(o) && ValidRouter(o.router) && o.phase.Idle?
    ensures TicksSeePages(Step(c, o, Receive(shape)))
  {
    forall n | 0 <= n < |o.ticks| ensures SeesPage(o.ticks[n], o.ins + [shape]) {
      SeesPageLater(o.ticks[n], o.ins, shape);
    }
  }

  /** The router's page is that of the latest telemetry frame. */
  lemma RouterPage(c: Config, o: Owner)
    requires RoutesHistory(c, o)
    ensures o.router.lastTopMode == PageOf(LastReading(o.ins))
  {
    RouterTracks(c, o.ins);
  }

  lemma WriteSeesPages(o: Owner, payloadOk: bool)
    requires TicksSeePages(o) && o.router.lastTopMode == PageOf(LastReading(o.ins))
    ensures TicksSeePages(WriteTick(o, payloadOk))
  {
    assert o.ins[..|o.ins|] == o.ins;
  }

  lemma TicksSeePagesStep(c: Config, o: Owner, e: Event)
    requires TicksSeePages(o) && RoutesHistory(c, o) && ValidRouter(o.router)
    ensures TicksSeePages(Step(c, o, e))
  {
    RouterPage(c, o);
    if e.Receive? && o.phase.Idle? {
      ReceiveSeesPages(c, o, e.shape);
    } else if e.Write? && o.phase.Draining? && o.queue == [] {
      WriteSeesPages(o, e.payloadOk);
    } else {
      OthersKeepTicks(c, o, e);
    }
  }

  lemma OthersKeepTicks(c: Config, o: Owner, e: Event)
    requires ValidRouter(o.router)
    requires !(e.Receive? && o.phase.Idle?) && !(e.Write? && o.phase.Draining? && o.queue == [])
    ensures var p := Step(c, o, e); p.ticks == [] || (p.ticks == o.ticks && p.ins == o.ins)
  {
  }

  lemma TickReportByte(topMode: string, n: nat)
    ensures var report := TickReport(topMode, n);
      report == Report(report[0]) && (IsSampleRequest(report) ==> report[0] == POLL + n % SAMPLE_CYCLE)
  {
  }

  lemma SuccessiveSnoc(outs: seq<Frame>, report: Frame)
    requires Successive(outs) && report == Report(report[0])
    requires outs == [] || Follows(outs[|outs| - 1], report)
    ensures Successive(outs + [report])
  {
  }

  lemma SamplesTake(o: Owner, writeOk: bool)
    requires SamplesAreSuccessive(o) && o.queue != []
    ensures SamplesAreSuccessive(TakeOne(o, writeOk))
  {
    var verb, value := o.queue[0].verb, o.queue[0].value;
    KnownVerbsEncode(verb, value);
    if EncodeCommand(verb, value).Some? {
      SuccessiveSnoc(o.outs, EncodeCommand(verb, value).value);
    }
  }

  lemma SamplesWrite(o: Owner, payloadOk: bool)
    requires SamplesAreSuccessive(o) && !o.phase.Down?
    ensures SamplesAreSuccessive(WriteTick(o, payloadOk))
  {
    var report := TickReport(o.router.lastTopMode, o.tickN + 1);
    TickReportByte(o.router.lastTopMode, o.tickN + 1);
    NextRequestFollows(o, report);
    SuccessiveSnoc(o.outs, report);
    WriteRecords(o, payloadOk);
  }

  lemma WriteRecords(o: Owner, payloadOk: bool)
    ensures var p := WriteTick(o, payloadOk);
      && p.tickN == o.tickN + 1
      && p.outs == (if payloadOk then o.outs + [TickReport(o.router.lastTopMode, o.tickN + 1)] else o.outs)
      && p.phase == (if payloadOk then Idle else Down)
  {
  }

  /** A sample request in step with the next tick follows a sample request in step with this one. */
  lemma NextRequestFollows(o: Owner, report: Frame)
    requires SamplesAreSuccessive(o) && !o.phase.Down?
    requires IsSampleRequest(report) ==> report[0] == POLL + (o.tickN + 1) % SAMPLE_CYCLE
    ensures o.outs == [] || Follows(o.outs[|o.outs| - 1], report)
  {
  }

  lemma SamplesStep(c: Config, o: Owner, e: Event)
    requires SamplesAreSuccessive(o) && ValidRouter(o.router)
    ensures SamplesAreSuccessive(Step(c, o, e))
  {
    if e.Take? && o.phase.Draining? && o.queue != [] {
      SamplesTake(o, e.writeOk);
    } else if e.Write? && o.phase.Draining? && o.queue == [] {
      SamplesWrite(o, e.payloadOk);
    }
  }

  lemma RoutesStep(c: Config, o: Owner, e: Event)
    requires RoutesHistory(c, o) && ValidRouter(o.router)
    ensures RoutesHistory(c, Step(c, o, e))
  {
    if e.Receive? && o.phase.Idle? {
      assert (o.ins + [e.shape])[..|o.ins|] == o.ins;
    }
  }

  /** Every state the owner can reach satisfies the invariant. */
  lemma {:induction false} OwnerInvariant(c: Config, es: seq<Event>)
    ensures Invariant(c, Replay(c, Init(), es))
  {
    if es == [] {
      assert Commands([]) == [];
    } else {
      var before, e := Replay(c, Init(), es[..|es| - 1]), es[|es| - 1];
      OwnerInvariant(c, es[..|es| - 1]);
      ConservedStep(c, before, e);
      WritesStep(c, before, e);
      BacksOffStep(c, before, e);
      TicksStep(c, before, e);
      TicksSeePagesStep(c, before, e);
      SamplesStep(c, before, e);
      RoutesStep(c, before, e);
    }
  }

  lemma TickWindow(o: Owner, n: nat)
    requires TicksFollowSchedule(o) && n + 6 <= |o.ticks|
    ensures exists i :: n <= i < n + 6 && IsPoll(o.ticks[i].report)
  {
    var i := n + (6 - (n + 1) % 6) % 6;
    assert (i + 1) % 6 == 0;
    PhaseZeroPolls(o.ticks[i].topMode, i + 1);
  }

  /** In every run, any six consecutive ticks asked the meter for telemetry at least once. */
  lemma RunsNeverStarvePolls(c: Config, es: seq<Event>, n: nat)
    requires n + 6 <= |Replay(c, Init(), es).ticks|
    ensures exists i :: n <= i < n + 6 && IsPoll(Replay(c, Init(), es).ticks[i].report)
  {
    OwnerInvariant(c, es);
    TickWindow(Replay(c, Init(), es), n);
  }

  /** The page tick `n` of a run was scheduled for, told from the frames received by then. */
  function PageAt(o: Owner, n: nat): string
    requires n < |o.ticks|
  {
    if o.ticks[n].heard <= |o.ins| then PageOf(LastReading(o.ins[..o.ticks[n].heard])) else ""
  }

  lemma TickAt(c: Config, es: seq<Event>, n: nat)
    requires n < |Replay(c, Init(), es).ticks|
    ensures var o := Replay(c, Init(), es);
      o.ticks[n].heard <= |o.ins| && o.ticks[n].report == TickReport(PageAt(o, n), n + 1)
  {
    OwnerInvariant(c, es);
    assert SeesPage(Replay(c, Init(), es).ticks[n], Replay(c, Init(), es).ins);
  }

  /** Tick `i` sent the command byte. */
  predicate TickSends(o: Owner, i: nat, cmd: int)
    requires i < |o.ticks|
  {
    o.ticks[i].report[0] == cmd
  }

  /** Tick `i` is number r of its cycle; ticks are numbered from 1. */
  predicate InPhase(i: nat, period: nat, r: nat)
    requires period > 0
  {
    (i + 1) % period == r
  }

  /** Six consecutive ticks pass through each phase of six ... */
  lemma PhaseOfSix(n: nat, r: nat) returns (i: nat)
    requires r < 6
    ensures n <= i < n + 6 && InPhase(i, 6, r)
  {
    var d := r - (n + 1) % 6;
    i := if d >= 0 then n + d else n + d + 6;
    assert (n + 1) == (n + 1) / 6 * 6 + (n + 1) % 6;
    assert if d >= 0 then i + 1 == (n + 1) / 6 * 6 + r else i + 1 == ((n + 1) / 6 + 1) * 6 + r;
  }

  lemma PhaseOfTen(n: nat) returns (i: nat)
    ensures n <= i < n + 10 && InPhase(i, 10, 0)
  {
    var d := -((n + 1) % 10);
    i := if d >= 0 then n + d else n + d + 10;
    assert (n + 1) == (n + 1) / 10 * 10 + (n + 1) % 10;
    assert if d >= 0 then i + 1 == (n + 1) / 10 * 10 else i + 1 == ((n + 1) / 10 + 1) * 10;
  }

  /** ... and through none twice. */
  lemma PhaseOnce(i: nat, j: nat, r: nat)
    requires i < j
    ensures j < i + 6 ==> !(InPhase(i, 6, r) && InPhase(j, 6, r))
    ensures j < i + 10 ==> !(InPhase(i, 10, r) && InPhase(j, 10, r))
  {
  }

  /** The ticks n to m - 1 of a state send `cmd` exactly once. */
  ghost predicate SendsOnce(o: Owner, n: nat, m: nat, cmd: int)
    requires m <= |o.ticks|
  {
    && (exists i: nat :: n <= i < m && TickSends(o, i, cmd))
    && (forall i: nat, j: nat :: n <= i < j < m ==> !(TickSends(o, i, cmd) && TickSends(o, j, cmd)))
  }

  lemma SampleTickPhase(c: Config, es: seq<Event>, i: nat, cmd: int)
    requires var o := Replay(c, Init(), es); i < |o.ticks| && SamplePage(PageAt(o, i))
    requires POLL <= cmd < POLL + SAMPLE_CYCLE
    ensures TickSends(Replay(c, Init(), es), i, cmd) <==> InPhase(i, 6, cmd - POLL)
  {
    TickAt(c, es, i);
    SampleTickByte(PageAt(Replay(c, Init(), es), i), i + 1);
  }

  lemma OtherTickPhase(c: Config, es: seq<Event>, i: nat)
    requires var o := Replay(c, Init(), es); i < |o.ticks| && !SamplePage(PageAt(o, i))
    ensures IsPoll(Replay(c, Init(), es).ticks[i].report)
    ensures TickSends(Replay(c, Init(), es), i, STATUS) <==> InPhase(i, 10, 0)
  {
    TickAt(c, es, i);
  }

  /**
   In every run: of six consecutive ticks while the meter showed sample pages, whichever and whenever they
   changed, exactly one sends each of '0' to '5'.
   */
  lemma SampleTicksCycle(c: Config, es: seq<Event>, o: Owner, n: nat, cmd: int)
    requires o == Replay(c, Init(), es)
    requires n + 6 <= |o.ticks| && forall i: nat :: n <= i < n + 6 ==> SamplePage(PageAt(o, i))
    requires POLL <= cmd < POLL + SAMPLE_CYCLE
    ensures SendsOnce(o, n, n + 6, cmd)
  {
    forall i: nat | n <= i < n + 6 ensures TickSends(o, i, cmd) <==> InPhase(i, 6, cmd - POLL) {
      SampleTickPhase(c, es, i, cmd);
    }
    var first := PhaseOfSix(n, cmd - POLL);
    assert TickSends(o, first, cmd);
    forall i: nat, j: nat | n <= i < j < n + 6 ensures !(TickSends(o, i, cmd) && TickSends(o, j, cmd)) {
      PhaseOnce(i, j, cmd - POLL);
    }
  }

  /**
   In every run: ten consecutive ticks while the meter showed other pages, or none yet, are polls, and exactly
   one of them refreshes the status text.
   */
  lemma OtherTicksPoll(c: Config, es: seq<Event>, o: Owner, n: nat)
    requires o == Replay(c, Init(), es)
    requires n + 10 <= |o.ticks| && forall i: nat :: n <= i < n + 10 ==> !SamplePage(PageAt(o, i))
    ensures forall i: nat :: n <= i < n + 10 ==> IsPoll(o.ticks[i].report)
    ensures SendsOnce(o, n, n + 10, STATUS)
  {
    forall i: nat | n <= i < n + 10
      ensures IsPoll(o.ticks[i].report) && (TickSends(o, i, STATUS) <==> InPhase(i, 10, 0))
    {
      OtherTickPhase(c, es, i);
    }
    var first := PhaseOfTen(n);
    assert TickSends(o, first, STATUS);
    forall i: nat, j: nat | n <= i < j < n + 10 ensures !(TickSends(o, i, STATUS) && TickSends(o, j, STATUS)) {
      PhaseOnce(i, j, 0);
    }
  }

  /** The requests of one sample cycle. */
  function OneCycle(): seq<Frame> {
    [SampleReport(1), SampleReport(2), SampleReport(3), SampleReport(4), SampleReport(5)]
  }

  /** Five back-to-back sample requests are always the requests for segments 1 to 5 of one cycle. */
  lemma FiveSamplesAreOneCycle(outs: seq<Frame>, j: nat)
    requires Successive(outs) && j + 5 <= |outs|
    requires forall k :: j <= k < j + 5 ==> IsSampleRequest(outs[k])
    ensures outs[j..j + 5] == OneCycle()
  {
    assert Follows(outs[j], outs[j + 1]);
    assert Follows(outs[j + 1], outs[j + 2]);
    assert Follows(outs[j + 2], outs[j + 3]);
    assert Follows(outs[j + 3], outs[j + 4]);
    assert outs[j][0] == 0x31;
  }

  // ------------------------------------------------------------- long drains

  /** The queued verb is written and the same verb arrives again, `n` times. */
  function Refills(command: Command, n: nat): seq<Event> {
    if n == 0 then [] else Refills(command, n - 1) + [Take(true)] + [Event.Submit(command)]
  }

  lemma RefillOnce(c: Config, o: Owner, command: Command)
    requires ValidRouter(o.router) && o.phase.Draining? && o.queue == [command] && command.verb in KNOWN_VERBS
    ensures var p := Step(c, Step(c, o, Take(true)), Event.Submit(command));
      p.phase.Draining? && p.queue == [command] && p.ticks == o.ticks && |p.outs| == |o.outs| + 1
  {
    KnownVerbsEncode(command.verb, command.value);
  }

  /** A drain has no bound of its own: as long as verbs keep arriving it writes them, and the tick's poll waits. */
  lemma {:induction false} DrainCanLast(c: Config, o: Owner, command: Command, n: nat)
    requires ValidRouter(o.router) && o.phase.Draining? && o.queue == [command] && command.verb in KNOWN_VERBS
    ensures var p := Replay(c, o, Refills(command, n));
      p.phase.Draining? && p.queue == [command] && p.ticks == o.ticks && |p.outs| == |o.outs| + n
  {
    if n > 0 {
      var before := Refills(command, n - 1);
      DrainCanLast(c, o, command, n - 1);
      ReplaySnoc(c, o, before, Take(true));
      ReplaySnoc(c, o, before + [Take(true)], Event.Submit(command));
      RefillOnce(c, Replay(c, o, before), command);
    }
  }
}
