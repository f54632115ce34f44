/** Where the doorbells at the device come from (src/quetz_balar_accelerator_port.cc): every one is a doorbell its own
    vCPU published, with the packet address it published, once and in order, and the lines flushed are those of the
    packets published. */
module DoorbellOrigin {
  import opened AcceleratorPort
  import opened Offload

  /** A doorbell as its guest published it: packet address, whether it is a SUBMIT, and how many commands its vCPU had
      put on the ring by then. */
  datatype Bell = Bell(value: nat, isAsync: bool, mark: nat)

  // ---------------------------------------------------------------- what the guests asked for

  /** The doorbell in a mailbox request, if it is one: a write to the aperture or a SUBMIT. */
  function BellsIn(m: Mail): seq<Bell> {
    match m.request
    case Ring(value) => [Bell(value, false, m.mark)]
    case AsyncWrite(off, value) => if off == 0 then [Bell(value, true, m.mark)] else []
    case _ => []
  }

  function PublishedBy(step: Step, v: nat): seq<Bell> {
    if step.Publish? && step.v == v then BellsIn(step.mail) else []
  }

  /** The doorbells vCPU v published in a run, in order. */
  function Published(steps: seq<Step>, v: nat): seq<Bell> {
    if steps == [] then [] else PublishedBy(steps[0], v) + Published(steps[1..], v)
  }

  /** Those of one kind. */
  function OfKind(bells: seq<Bell>, isAsync: bool): seq<Bell> {
    if bells == [] then []
    else
      var b := bells[|bells| - 1];
      OfKind(bells[..|bells| - 1], isAsync) + (if b.isAsync == isAsync then [b] else [])
  }

  // ---------------------------------------------------------------- where they are

  function BellOf(d: Doorbell): Bell { Bell(d.value, d.isAsync, d.mark) }

  function BellsOf(q: seq<Doorbell>): (r: seq<Bell>)
    ensures |r| == |q| && forall i {:trigger r[i]} | 0 <= i < |q| :: r[i] == BellOf(q[i])
  {
    seq(|q|, i requires 0 <= i < |q| => BellOf(q[i]))
  }

  /** Published, but not through the drain gate yet: in the mailbox slot or armed. */
  function BeforeGate(l: Lane): seq<Bell> {
    (if l.armed.Some? then [BellOf(l.armed.value)] else []) + (if l.mail.Some? then BellsIn(l.mail.value) else [])
  }

  /** Through the gate, but its packet is still being flushed. */
  function InFlush(l: Lane): seq<Bell> { if l.flushing.Some? then [BellOf(l.flushing.value.bell)] else [] }

  /** All doorbells of one kind a lane still holds, oldest first. */
  function Held(l: Lane, isAsync: bool): seq<Bell> {
    (if isAsync then BellsOf(l.queue) else []) + OfKind(InFlush(l), isAsync) + OfKind(BeforeGate(l), isAsync)
  }

  function SentBells(e: Option<Sent>, isAsync: bool): seq<Bell> {
    if e.Some? && e.value.SentBell? && e.value.bell.isAsync == isAsync then [BellOf(e.value.bell)] else []
  }

  /** The doorbells of one kind of vCPU v at the device, in the order they got there. */
  function AtDevice(log: seq<Log>, v: nat, isAsync: bool): seq<Bell> {
    if log == [] then []
    else
      var e := log[|log| - 1];
      AtDevice(log[..|log| - 1], v, isAsync) + (if e.vcpu == v then SentBells(Some(e.what), isAsync) else [])
  }

  /** The published doorbells of one kind are those at the device, in the same order, and then those the lane
      holds. */
  predicate Accounted(p: Port, v: nat, isAsync: bool, published: seq<Bell>)
    requires v < |p.lanes|
  {
    OfKind(published, isAsync) == AtDevice(p.deviceLog, v, isAsync) + Held(p.lanes[v], isAsync)
  }

  // ---------------------------------------------------------------- what an effect moves

  lemma OfKindOne(b: Bell, isAsync: bool)
    ensures OfKind([b], isAsync) == if b.isAsync == isAsync then [b] else []
    ensures OfKind([], isAsync) == []
  {
    assert OfKind([b][..0], isAsync) == [];
  }

  lemma {:induction false} OfKindAppend(a: seq<Bell>, b: seq<Bell>, isAsync: bool)
    ensures OfKind(a + b, isAsync) == OfKind(a, isAsync) + OfKind(b, isAsync)
    decreases |b|
  {
    if b == [] {
      assert a + b == a;
    } else {
      var front := b[..|b| - 1];
      assert (a + b)[..|a + b| - 1] == a + front;
      OfKindAppend(a, front, isAsync);
    }
  }

  /** An effect sends the oldest doorbells a lane holds and keeps the rest. */
  predicate Conserves(l: Lane, e: Effect, isAsync: bool) {
    SentBells(e.send, isAsync) + Held(e.lane, isAsync) == Held(l, isAsync)
  }

  /** The one doorbell a lane may hold outside its queue. */
  function Single(l: Lane): seq<Bell> {
    if l.flushing.Some? then [BellOf(l.flushing.value.bell)]
    else if l.armed.Some? then [BellOf(l.armed.value)]
    else if l.mail.Some? then BellsIn(l.mail.value) else []
  }

  lemma HeldOf(l: Lane, isAsync: bool)
    requires Places(l) <= 1
    ensures Held(l, isAsync) == (if isAsync then BellsOf(l.queue) else []) + OfKind(Single(l), isAsync)
  {
    OfKindOne(Bell(0, false, 0), isAsync);
    var q := if isAsync then BellsOf(l.queue) else [];
    if l.flushing.Some? {
      assert BeforeGate(l) == [] && InFlush(l) == Single(l);
      assert q + OfKind(Single(l), isAsync) + [] == q + OfKind(Single(l), isAsync);
    } else {
      BeforeIsSingle(l);
      assert q + [] + OfKind(Single(l), isAsync) == q + OfKind(Single(l), isAsync);
    }
  }

  lemma BeforeIsSingle(l: Lane)
    requires Places(l) <= 1 && l.flushing.None?
    ensures BeforeGate(l) == Single(l) && InFlush(l) == []
  {
  }

  /** Forwarding a doorbell that has just left its place. */
  lemma ForwardHolds(l: Lane, d: Doorbell, preAcked: bool, id: nat, inFlight: nat, isAsync: bool)
    requires Places(l) == 0 && (l.queue != [] ==> l.busy)
    ensures (var e := Forward(l, d, preAcked, id, inFlight);
             SentBells(e.send, isAsync) + Held(e.lane, isAsync)
             == (if isAsync then BellsOf(l.queue) else []) + OfKind([BellOf(d)], isAsync))
  {
    var e := Forward(l, d, preAcked, id, inFlight);
    OfKindOne(BellOf(d), isAsync);
    assert InFlush(e.lane) == [] && BeforeGate(e.lane) == [];
    assert BellsOf(l.queue + [d]) == BellsOf(l.queue) + [BellOf(d)];
  }

  lemma RingConserves(cfg: Config, v: nat, l: Lane, m: Mail, id: nat, inFlight: nat, isAsync: bool)
    requires LaneOk(l) && l.mail == Some(m) && m.request.Ring?
    ensures (var e := RingBell(cfg, v, l.(mail := None), m.request.value, m.mark, id, inFlight);
             e.fatal.None? ==> Conserves(l, e, isAsync))
  {
    var k, value := l.(mail := None), m.request.value;
    HeldOf(l, isAsync);
    if Gates(cfg, v) {
      HeldOf(RingBell(cfg, v, k, value, m.mark, id, inFlight).lane, isAsync);
    } else {
      ForwardHolds(k, Doorbell(value, false, 0, m.mark, false, 0, 0), false, id, inFlight, isAsync);
    }
  }

  lemma SubmitConserves(cfg: Config, v: nat, l: Lane, m: Mail, inFlight: nat, isAsync: bool)
    requires LaneOk(l) && l.mail == Some(m) && m.request.AsyncWrite? && m.request.off == 0
    ensures (var e := Submit(cfg, v, l.(mail := None), m.request.value, m.mark, inFlight);
             e.fatal.None? ==> Conserves(l, e, isAsync))
  {
    var e := Submit(cfg, v, l.(mail := None), m.request.value, m.mark, inFlight);
    HeldOf(l, isAsync);
    if e.fatal.None? {
      assert Single(e.lane) == Single(l) && e.lane.queue == l.queue && Places(e.lane) <= 1;
      HeldOf(e.lane, isAsync);
    }
  }

  /** Taking a request out of the mailbox. */
  lemma HandleConserves(cfg: Config, v: nat, l: Lane, m: Mail, id: nat, inFlight: nat, isAsync: bool)
    requires LaneOk(l) && l.mail == Some(m)
    ensures (var e := Handle(cfg, v, l.(mail := None), m, id, inFlight); e.fatal.None? ==> Conserves(l, e, isAsync))
  {
    var e := Handle(cfg, v, l.(mail := None), m, id, inFlight);
    if m.request.Ring? {
      RingConserves(cfg, v, l, m, id, inFlight, isAsync);
    } else if m.request.AsyncWrite? && m.request.off == 0 {
      SubmitConserves(cfg, v, l, m, inFlight, isAsync);
    } else {
      HeldOf(l, isAsync);
      HeldOf(e.lane, isAsync);
      OfKindOne(Bell(0, false, 0), isAsync);
    }
  }

  lemma GateConserves(cfg: Config, l: Lane, id: nat, at: nat, inFlight: nat, isAsync: bool)
    requires LaneOk(l) && l.armed.Some?
    ensures (var e := IssueDoorbellFlushes(cfg, l, id, at, inFlight); e.fatal.None? ==> Conserves(l, e, isAsync))
  {
    if IssueDoorbellFlushes(cfg, l, id, at, inFlight).fatal.None? {
      SendFlushesConserves(l, PacketLines(cfg, l.armed.value.value), id, at, inFlight, isAsync);
    }
  }

  lemma SendFlushesConserves(l: Lane, lines: seq<nat>, id: nat, at: nat, inFlight: nat, isAsync: bool)
    requires LaneOk(l) && l.armed.Some?
    ensures Conserves(l, SendFlushes(l, lines, id, at, inFlight), isAsync)
  {
    HeldOf(l, isAsync);
    if lines == [] {
      ForwardHolds(l.(armed := None), l.armed.value.(lo := at, hi := at), false, id, inFlight, isAsync);
    } else {
      HeldOf(SendFlushes(l, lines, id, at, inFlight).lane, isAsync);
    }
  }

  lemma FlushConserves(l: Lane, flush: nat, id: nat, inFlight: nat, isAsync: bool)
    requires LaneOk(l) && l.flushing.Some?
    ensures (var e := FlushAnswered(l, flush, id, inFlight); e.fatal.None? ==> Conserves(l, e, isAsync))
  {
    var e, ctx := FlushAnswered(l, flush, id, inFlight), l.flushing.value;
    HeldOf(l, isAsync);
    if ctx.remaining <= 1 {
      ForwardHolds(l.(flushIds := l.flushIds - {flush}, flushing := None), ctx.bell, false, id, inFlight, isAsync);
    } else {
      HeldOf(e.lane, isAsync);
    }
  }

  /** A completion sends the oldest queued doorbell, wherever the guest is. */
  lemma AsyncConserves(l: Lane, id: nat, inFlight: nat, isAsync: bool)
    requires LaneOk(l)
    ensures Conserves(l, AsyncAnswered(l, id, inFlight), isAsync)
  {
    if l.queue != [] {
      assert l.queue[0].isAsync;
      var e := AsyncAnswered(l, id, inFlight);
      assert e.send == Some(SentBell(l.queue[0])) && e.lane.queue == l.queue[1..];
      FirstOut(l, e, isAsync);
    }
  }

  lemma FirstOut(l: Lane, e: Effect, isAsync: bool)
    requires l.queue != [] && l.queue[0].isAsync && e.send == Some(SentBell(l.queue[0])) && e.lane.queue == l.queue[1..]
    requires e.lane.flushing == l.flushing && e.lane.armed == l.armed && e.lane.mail == l.mail
    ensures Conserves(l, e, isAsync)
  {
    assert BellsOf(l.queue) == [BellOf(l.queue[0])] + BellsOf(l.queue[1..]);
    Regroup([BellOf(l.queue[0])], BellsOf(l.queue[1..]), OfKind(InFlush(l), isAsync), OfKind(BeforeGate(l), isAsync));
  }

  lemma Regroup(a: seq<Bell>, b: seq<Bell>, c: seq<Bell>, d: seq<Bell>)
    ensures a + (b + c + d) == (a + b) + c + d
  {
  }

  // ---------------------------------------------------------------- steps of the port

  lemma Assoc(a: seq<Bell>, b: seq<Bell>, c: seq<Bell>)
    ensures a + (b + c) == (a + b) + c
  {
  }

  lemma DeviceSnoc(log: seq<Log>, e: Log, u: nat, isAsync: bool)
    ensures AtDevice(log + [e], u, isAsync)
         == AtDevice(log, u, isAsync) + if e.vcpu == u then SentBells(Some(e.what), isAsync) else []
  {
    assert (log + [e])[..|log|] == log;
  }

  /** The bells at the device after an effect of lane v. */
  lemma DeviceGets(base: Port, v: nat, e: Effect, u: nat, isAsync: bool)
    requires v < |base.lanes|
    ensures AtDevice(Apply(base, v, e).deviceLog, u, isAsync)
         == AtDevice(base.deviceLog, u, isAsync) + if u == v then SentBells(e.send, isAsync) else []
  {
    if e.send.Some? {
      DeviceSnoc(base.deviceLog, Log(v, e.send.value), u, isAsync);
    } else {
      assert AtDevice(base.deviceLog, u, isAsync) + [] == AtDevice(base.deviceLog, u, isAsync);
    }
  }

  lemma ApplyAccounts(p: Port, base: Port, v: nat, e: Effect, u: nat, isAsync: bool, published: seq<Bell>)
    requires |base.lanes| == |p.lanes| && v < |p.lanes| && u < |p.lanes| && base.deviceLog == p.deviceLog
    requires u != v ==> base.lanes[u] == p.lanes[u]
    requires Conserves(p.lanes[v], e, isAsync) && Accounted(p, u, isAsync, published)
    ensures Accounted(Apply(base, v, e), u, isAsync, published)
  {
    DeviceGets(base, v, e, u, isAsync);
    var log := AtDevice(p.deviceLog, u, isAsync);
    if u == v {
      Assoc(log, SentBells(e.send, isAsync), Held(e.lane, isAsync));
    } else {
      assert log + [] == log;
    }
  }

  /** A lane whose guest is not waiting holds only its queue; a published request comes behind. */
  lemma PublishHolds(l: Lane, m: Mail, isAsync: bool)
    requires LaneOk(l) && !l.waiting
    ensures Held(l.(waiting := true, mail := Some(m)), isAsync) == Held(l, isAsync) + OfKind(BellsIn(m), isAsync)
  {
    HeldOf(l, isAsync);
    HeldOf(l.(waiting := true, mail := Some(m)), isAsync);
  }

  lemma PublishAccounts(cfg: Config, p: Port, v: nat, m: Mail, u: nat, isAsync: bool, published: seq<Bell>)
    requires PortOk(p) && Enabled(p, Publish(v, m)) && u < |p.lanes| && Accounted(p, u, isAsync, published)
    ensures Accounted(Next(cfg, p, Publish(v, m)), u, isAsync, published + PublishedBy(Publish(v, m), u))
  {
    var log := AtDevice(p.deviceLog, u, isAsync);
    OfKindAppend(published, PublishedBy(Publish(v, m), u), isAsync);
    assert LaneOk(p.lanes[u]);
    if u == v {
      PublishHolds(p.lanes[v], m, isAsync);
      Assoc(log, Held(p.lanes[v], isAsync), OfKind(BellsIn(m), isAsync));
    } else {
      OfKindOne(Bell(0, false, 0), isAsync);
      assert OfKind(published, isAsync) + [] == OfKind(published, isAsync);
    }
  }

  lemma StepAccounts(cfg: Config, p: Port, step: Step, u: nat, isAsync: bool, published: seq<Bell>)
    requires PortOk(p) && Enabled(p, step) && Next(cfg, p, step).fatal.None? && u < |p.lanes|
    requires Accounted(p, u, isAsync, published)
    ensures Accounted(Next(cfg, p, step), u, isAsync, published + PublishedBy(step, u))
  {
    if !step.Publish? { assert published + PublishedBy(step, u) == published; }
    match step
    case Publish(v, m) => PublishAccounts(cfg, p, v, m, u, isAsync, published);
    case TakeMail(v) => TakeAccounts(cfg, p, v, u, isAsync, published);
    case OpenGate(v) => GateAccounts(cfg, p, v, u, isAsync, published);
    case FlushReply(id) => FlushReplyAccounts(cfg, p, id, u, isAsync, published);
    case DeviceReply(id, value) => DeviceReplyAccounts(cfg, p, id, value, u, isAsync, published);
    case ElsewhereReply(v, value) => ElsewhereAccounts(cfg, p, v, value, u, isAsync, published);
  }

  lemma TakeAccounts(cfg: Config, p: Port, v: nat, u: nat, isAsync: bool, published: seq<Bell>)
    requires PortOk(p) && Enabled(p, TakeMail(v)) && Next(cfg, p, TakeMail(v)).fatal.None? && u < |p.lanes|
    requires Accounted(p, u, isAsync, published)
    ensures Accounted(Next(cfg, p, TakeMail(v)), u, isAsync, published)
  {
    assert LaneOk(p.lanes[v]);
    var q, m := Opened(p, v), p.lanes[v].mail.value;
    TakeIsApply(cfg, p, v);
    HandleConserves(cfg, v, p.lanes[v], m, |p.deviceLog|, p.inFlight, isAsync);
    ApplyAccounts(p, q, v, Handle(cfg, v, q.lanes[v], m, |q.deviceLog|, q.inFlight), u, isAsync, published);
  }

  lemma GateAccounts(cfg: Config, p: Port, v: nat, u: nat, isAsync: bool, published: seq<Bell>)
    requires PortOk(p) && Enabled(p, OpenGate(v)) && Next(cfg, p, OpenGate(v)).fatal.None? && u < |p.lanes|
    requires Accounted(p, u, isAsync, published)
    ensures Accounted(Next(cfg, p, OpenGate(v)), u, isAsync, published)
  {
    assert LaneOk(p.lanes[v]);
    var e := IssueDoorbellFlushes(cfg, p.lanes[v], |p.deviceLog|, |p.flushLog|, p.inFlight);
    GateConserves(cfg, p.lanes[v], |p.deviceLog|, |p.flushLog|, p.inFlight, isAsync);
    ApplyAccounts(p, p, v, e, u, isAsync, published);
  }

  lemma ElsewhereAccounts(cfg: Config, p: Port, v: nat, value: nat, u: nat, isAsync: bool, published: seq<Bell>)
    requires PortOk(p) && Enabled(p, ElsewhereReply(v, value)) && u < |p.lanes| && Accounted(p, u, isAsync, published)
    ensures Accounted(Next(cfg, p, ElsewhereReply(v, value)), u, isAsync, published)
  {
    ElsewhereConserves(p.lanes[v], value, p.inFlight, isAsync);
    ApplyAccounts(p, p, v, Post(Quiet(p.lanes[v].(elsewhere := false), p.inFlight), value), u, isAsync, published);
  }

  lemma ElsewhereConserves(l: Lane, value: nat, inFlight: nat, isAsync: bool)
    ensures Conserves(l, Post(Quiet(l.(elsewhere := false), inFlight), value), isAsync)
  {
  }

  lemma FlushReplyAccounts(cfg: Config, p: Port, id: nat, u: nat, isAsync: bool, published: seq<Bell>)
    requires PortOk(p) && Enabled(p, FlushReply(id)) && u < |p.lanes| && Accounted(p, u, isAsync, published)
    ensures Accounted(Next(cfg, p, FlushReply(id)), u, isAsync, published)
  {
    var v := p.flushOwner[id];
    assert FlushOk(p, id) && LaneOk(p.lanes[v]);
    FlushAnsweredKeeps(cfg, p.lanes[v], id, |p.deviceLog|, |p.flushLog|, p.inFlight);
    FlushConserves(p.lanes[v], id, |p.deviceLog|, p.inFlight, isAsync);
    ApplyAccounts(p, DropFlush(p, id), v, FlushAnswered(p.lanes[v], id, |p.deviceLog|, p.inFlight), u, isAsync,
                  published);
  }

  lemma DeviceReplyAccounts(cfg: Config, p: Port, id: nat, value: nat, u: nat, isAsync: bool, published: seq<Bell>)
    requires PortOk(p) && Enabled(p, DeviceReply(id, value)) && u < |p.lanes| && Accounted(p, u, isAsync, published)
    ensures Accounted(Next(cfg, p, DeviceReply(id, value)), u, isAsync, published)
  {
    var v := p.pending[id].vcpu;
    assert LaneOk(p.lanes[v]);
    if p.pending[id].isAsync {
      AsyncConserves(p.lanes[v], |p.deviceLog|, p.inFlight, isAsync);
      ApplyAccounts(p, DropDevice(p, id), v, AsyncAnswered(p.lanes[v], |p.deviceLog|, p.inFlight), u, isAsync,
                    published);
    } else {
      SyncConserves(p.lanes[v], ReplyValue(p.deviceLog, id, value), p.inFlight, isAsync);
      ApplyAccounts(p, DropDevice(p, id), v, SyncAnswered(p.lanes[v], ReplyValue(p.deviceLog, id, value), p.inFlight),
                    u, isAsync, published);
    }
  }

  lemma SyncConserves(l: Lane, value: nat, inFlight: nat, isAsync: bool)
    ensures Conserves(l, SyncAnswered(l, value, inFlight), isAsync)
  {
  }

  // ---------------------------------------------------------------- whole runs

  lemma {:induction false} RunAccounts(cfg: Config, p: Port, steps: seq<Step>, u: nat, isAsync: bool,
                                       published: seq<Bell>)
    requires PortOk(p) && Runs(cfg, p, steps) && After(cfg, p, steps).fatal.None? && u < |p.lanes|
    requires Accounted(p, u, isAsync, published)
    ensures u < |After(cfg, p, steps).lanes|
    ensures Accounted(After(cfg, p, steps), u, isAsync, published + Published(steps, u))
    decreases |steps|
  {
    if steps == [] {
      assert published + [] == published;
    } else {
      var q := Next(cfg, p, steps[0]);
      FatalStops(cfg, q, steps[1..]);
      StepKeeps(cfg, p, steps[0]);
      StepAccounts(cfg, p, steps[0], u, isAsync, published);
      RunAccounts(cfg, q, steps[1..], u, isAsync, published + PublishedBy(steps[0], u));
      Assoc(published, PublishedBy(steps[0], u), Published(steps[1..], u));
    }
  }

  lemma FatalStops(cfg: Config, p: Port, steps: seq<Step>)
    requires Runs(cfg, p, steps) && After(cfg, p, steps).fatal.None?
    ensures p.fatal.None?
  {
  }

  lemma InitAccounts(p: Port, u: nat, isAsync: bool)
    requires Init(p) && u < |p.lanes|
    ensures PortOk(p) && Accounted(p, u, isAsync, [])
  {
    InitOk(p);
    assert IdleLane(p.lanes[u]) && LaneOk(p.lanes[u]);
    HeldOf(p.lanes[u], isAsync);
  }

  /** In every run of the port, for every vCPU and either kind of doorbell: those published, in order and with the
      packet addresses and ring positions they were published with, are those at the device, in the same order, and
      then those still queued, in flush, armed or in the mailbox. So none is lost, changed, repeated or overtaken by
      one of its kind. */
  lemma BellsAreThePublished(cfg: Config, p: Port, steps: seq<Step>, v: nat, isAsync: bool)
    requires Init(p) && Runs(cfg, p, steps) && After(cfg, p, steps).fatal.None? && v < |p.lanes|
    ensures v < |After(cfg, p, steps).lanes|
    ensures Accounted(After(cfg, p, steps), v, isAsync, Published(steps, v))
  {
    InitAccounts(p, v, isAsync);
    RunAccounts(cfg, p, steps, v, isAsync, []);
    assert [] + Published(steps, v) == Published(steps, v);
  }

  // ---------------------------------------------------------------- the lines flushed

  /** The lines of a published doorbell that have to be flushed: its packet's, if it waits for the flush at all. */
  function LinesOfBell(cfg: Config, v: nat, b: Bell): seq<nat> {
    if b.isAsync || Gates(cfg, v) then PacketLines(cfg, b.value) else []
  }

  function LinesFor(cfg: Config, v: nat, bells: seq<Bell>): seq<nat> {
    if bells == [] then [] else LinesFor(cfg, v, bells[..|bells| - 1]) + LinesOfBell(cfg, v, bells[|bells| - 1])
  }

  /** The lines flushed for vCPU v, in order. */
  function FlushedLines(log: seq<Flush>, v: nat): seq<nat> {
    if log == [] then []
    else FlushedLines(log[..|log| - 1], v) + (if log[|log| - 1].vcpu == v then [log[|log| - 1].line] else [])
  }

  lemma {:induction false} FlushedMore(log: seq<Flush>, v: nat, lines: seq<nat>, u: nat)
    ensures FlushedLines(log + Flushes(v, lines), u) == FlushedLines(log, u) + if u == v then lines else []
    decreases |lines|
  {
    var all := log + Flushes(v, lines);
    if lines == [] {
      assert all == log;
      assert FlushedLines(log, u) + [] == FlushedLines(log, u);
    } else {
      var front := lines[..|lines| - 1];
      assert Flushes(v, lines) == Flushes(v, front) + [Flush(v, lines[|lines| - 1])];
      assert all[..|all| - 1] == log + Flushes(v, front) && all[|all| - 1] == Flush(v, lines[|lines| - 1]);
      FlushedMore(log, v, front, u);
      if u == v { SnocLine(FlushedLines(log, u), front, lines[|lines| - 1], lines); }
    }
  }

  lemma SnocLine(a: seq<nat>, front: seq<nat>, x: nat, lines: seq<nat>)
    requires lines == front + [x]
    ensures a + front + [x] == a + lines
  {
  }

  /** The published doorbells that are through the gate, and those before it; an armed one is of the kind that
      waits. */
  predicate Flushed(cfg: Config, p: Port, v: nat, past: seq<Bell>)
    requires v < |p.lanes|
  {
    && LinesFor(cfg, v, past) == FlushedLines(p.flushLog, v)
    && (p.lanes[v].armed.Some? ==> p.lanes[v].armed.value.isAsync || Gates(cfg, v))
  }

  /** The doorbells published last are those before the gate, and the lines flushed are those of all the others. */
  predicate FlushLaw(cfg: Config, p: Port, v: nat, published: seq<Bell>)
    requires v < |p.lanes|
  {
    var ahead := |BeforeGate(p.lanes[v])|;
    && ahead <= |published| && published[|published| - ahead..] == BeforeGate(p.lanes[v])
    && Flushed(cfg, p, v, published[..|published| - ahead])
  }

  lemma LinesSnoc(cfg: Config, v: nat, past: seq<Bell>, b: Bell)
    ensures LinesFor(cfg, v, past + [b]) == LinesFor(cfg, v, past) + LinesOfBell(cfg, v, b)
  {
    assert (past + [b])[..|past|] == past;
  }

  /** A step that flushes nothing and leaves alone what is before the gate. */
  lemma QuietFlush(cfg: Config, p: Port, r: Port, u: nat, published: seq<Bell>)
    requires u < |p.lanes| == |r.lanes| && FlushLaw(cfg, p, u, published)
    requires FlushedLines(r.flushLog, u) == FlushedLines(p.flushLog, u)
    requires r.lanes[u].armed == p.lanes[u].armed && r.lanes[u].mail == p.lanes[u].mail
    ensures FlushLaw(cfg, r, u, published)
  {
    SameBefore(p.lanes[u], r.lanes[u]);
  }

  lemma SameBefore(l: Lane, k: Lane)
    requires k.armed == l.armed && k.mail == l.mail
    ensures BeforeGate(k) == BeforeGate(l)
  {
  }

  lemma PublishFlush(cfg: Config, p: Port, v: nat, m: Mail, u: nat, published: seq<Bell>)
    requires PortOk(p) && Enabled(p, Publish(v, m)) && u < |p.lanes| && FlushLaw(cfg, p, u, published)
    ensures FlushLaw(cfg, Next(cfg, p, Publish(v, m)), u, published + PublishedBy(Publish(v, m), u))
  {
    assert LaneOk(p.lanes[u]);
    if u == v {
      var r := Next(cfg, p, Publish(v, m));
      BeforeIsSingle(p.lanes[v]);
      BeforeIsSingle(r.lanes[v]);
      MoreAhead(cfg, p, r, v, published, BellsIn(m));
    } else {
      assert published + [] == published;
    }
  }

  lemma MoreAhead(cfg: Config, p: Port, r: Port, v: nat, published: seq<Bell>, more: seq<Bell>)
    requires v < |p.lanes| == |r.lanes| && FlushLaw(cfg, p, v, published) && BeforeGate(p.lanes[v]) == []
    requires BeforeGate(r.lanes[v]) == more && r.flushLog == p.flushLog && r.lanes[v].armed == p.lanes[v].armed
    ensures FlushLaw(cfg, r, v, published + more)
  {
    SplitAt(published, more);
    SplitAt(published, []);
    assert published + [] == published;
  }

  lemma SplitAt(a: seq<Bell>, b: seq<Bell>)
    ensures (a + b)[..|a + b| - |b|] == a && (a + b)[|a + b| - |b|..] == b
  {
  }

  /** Handling a request flushes nothing; a doorbell it lets through has no lines. */
  lemma TakeFlush(cfg: Config, p: Port, v: nat, u: nat, published: seq<Bell>)
    requires PortOk(p) && Enabled(p, TakeMail(v)) && Next(cfg, p, TakeMail(v)).fatal.None? && u < |p.lanes|
    requires FlushLaw(cfg, p, u, published)
    ensures FlushLaw(cfg, Next(cfg, p, TakeMail(v)), u, published)
  {
    var l, q, m := p.lanes[v], Opened(p, v), p.lanes[v].mail.value;
    assert LaneOk(l);
    TakeIsApply(cfg, p, v);
    var e := Handle(cfg, v, q.lanes[v], m, |q.deviceLog|, q.inFlight);
    HandleMoves(cfg, v, q.lanes[v], m, |q.deviceLog|, q.inFlight);
    FlushedMore(q.flushLog, v, e.lines, u);
    assert FlushedLines(p.flushLog, u) + [] == FlushedLines(p.flushLog, u);
    HandleBefore(cfg, v, l, m, |q.deviceLog|, q.inFlight);
    if u == v { TakenFlush(cfg, p, Next(cfg, p, TakeMail(v)), v, m, published); }
  }

  /** What handling a request leaves before the gate: the doorbell it took, or nothing, if it had none that waits. */
  lemma HandleBefore(cfg: Config, v: nat, l: Lane, m: Mail, dev: nat, n: nat)
    requires LaneOk(l) && l.mail == Some(m)
    ensures BeforeGate(l) == BellsIn(m)
    ensures (var e := Handle(cfg, v, l.(mail := None), m, dev, n);
             e.fatal.None? ==>
               && (e.lane.armed.Some? ==> e.lane.armed.value.isAsync || Gates(cfg, v))
               && (BeforeGate(e.lane) == BellsIn(m)
                   || (BeforeGate(e.lane) == [] && |BellsIn(m)| == 1 && LinesOfBell(cfg, v, BellsIn(m)[0]) == [])))
  {
  }

  lemma TakenFlush(cfg: Config, p: Port, r: Port, v: nat, m: Mail, published: seq<Bell>)
    requires v < |p.lanes| == |r.lanes| && FlushLaw(cfg, p, v, published) && BeforeGate(p.lanes[v]) == BellsIn(m)
    requires FlushedLines(r.flushLog, v) == FlushedLines(p.flushLog, v)
    requires r.lanes[v].armed.Some? ==> r.lanes[v].armed.value.isAsync || Gates(cfg, v)
    requires BeforeGate(r.lanes[v]) == BellsIn(m)
             || (BeforeGate(r.lanes[v]) == [] && |BellsIn(m)| == 1 && LinesOfBell(cfg, v, BellsIn(m)[0]) == [])
    ensures FlushLaw(cfg, r, v, published)
  {
    if BeforeGate(r.lanes[v]) != BellsIn(m) {
      var past, b := published[..|published| - 1], BellsIn(m)[0];
      LastOne(published, b);
      LinesSnoc(cfg, v, past, b);
      assert LinesFor(cfg, v, past) + [] == LinesFor(cfg, v, past);
    }
  }

  /** Opening the gate flushes exactly the lines of the doorbell it lets through. */
  lemma GateFlush(cfg: Config, p: Port, v: nat, u: nat, published: seq<Bell>)
    requires PortOk(p) && Enabled(p, OpenGate(v)) && Next(cfg, p, OpenGate(v)).fatal.None? && u < |p.lanes|
    requires FlushLaw(cfg, p, u, published)
    ensures FlushLaw(cfg, Next(cfg, p, OpenGate(v)), u, published)
  {
    var l := p.lanes[v];
    assert LaneOk(l);
    var e := IssueDoorbellFlushes(cfg, l, |p.deviceLog|, |p.flushLog|, p.inFlight);
    GateMoves(cfg, l, |p.deviceLog|, |p.flushLog|, p.inFlight);
    FlushedMore(p.flushLog, v, e.lines, u);
    if u == v {
      BeforeIsSingle(l);
      assert e.lane.armed.None? && e.lane.mail.None?;
      Passed(cfg, p, Next(cfg, p, OpenGate(v)), v, BellOf(l.armed.value), published);
    } else {
      assert FlushedLines(p.flushLog, u) + [] == FlushedLines(p.flushLog, u);
      QuietFlush(cfg, p, Next(cfg, p, OpenGate(v)), u, published);
    }
  }

  lemma Passed(cfg: Config, p: Port, r: Port, v: nat, b: Bell, published: seq<Bell>)
    requires v < |p.lanes| == |r.lanes| && FlushLaw(cfg, p, v, published) && BeforeGate(p.lanes[v]) == [b]
    requires BeforeGate(r.lanes[v]) == [] && r.lanes[v].armed.None?
    requires FlushedLines(r.flushLog, v) == FlushedLines(p.flushLog, v) + LinesOfBell(cfg, v, b)
    ensures FlushLaw(cfg, r, v, published)
  {
    var past := published[..|published| - 1];
    LastOne(published, b);
    LinesSnoc(cfg, v, past, b);
  }

  lemma LastOne(s: seq<Bell>, b: Bell)
    requires s != [] && s[|s| - 1..] == [b]
    ensures s == s[..|s| - 1] + [b] && s[..|s|] == s && s[|s|..] == []
  {
  }

  /** An effect that flushes nothing and leaves armed and mail alone. */
  lemma EffectFlush(cfg: Config, p: Port, base: Port, v: nat, e: Effect, u: nat, published: seq<Bell>)
    requires |base.lanes| == |p.lanes| && v < |p.lanes| && u < |p.lanes| && base.flushLog == p.flushLog && e.lines == []
    requires u != v ==> base.lanes[u] == p.lanes[u]
    requires e.lane.armed == p.lanes[v].armed && e.lane.mail == p.lanes[v].mail && FlushLaw(cfg, p, u, published)
    ensures FlushLaw(cfg, Apply(base, v, e), u, published)
  {
    assert Apply(base, v, e).flushLog == p.flushLog;
    QuietFlush(cfg, p, Apply(base, v, e), u, published);
  }

  lemma StepFlush(cfg: Config, p: Port, step: Step, u: nat, published: seq<Bell>)
    requires PortOk(p) && Enabled(p, step) && Next(cfg, p, step).fatal.None? && u < |p.lanes|
    requires FlushLaw(cfg, p, u, published)
    ensures FlushLaw(cfg, Next(cfg, p, step), u, published + PublishedBy(step, u))
  {
    if !step.Publish? { assert published + PublishedBy(step, u) == published; }
    match step
    case Publish(v, m) => PublishFlush(cfg, p, v, m, u, published);
    case TakeMail(v) => TakeFlush(cfg, p, v, u, published);
    case OpenGate(v) => GateFlush(cfg, p, v, u, published);
    case FlushReply(id) => FlushReplyFlush(cfg, p, id, u, published);
    case DeviceReply(id, value) => DeviceReplyFlush(cfg, p, id, value, u, published);
    case ElsewhereReply(v, value) =>
      EffectFlush(cfg, p, p, v, Post(Quiet(p.lanes[v].(elsewhere := false), p.inFlight), value), u, published);
  }

  lemma FlushReplyFlush(cfg: Config, p: Port, id: nat, u: nat, published: seq<Bell>)
    requires PortOk(p) && Enabled(p, FlushReply(id)) && u < |p.lanes| && FlushLaw(cfg, p, u, published)
    ensures FlushLaw(cfg, Next(cfg, p, FlushReply(id)), u, published)
  {
    var v := p.flushOwner[id];
    assert FlushOk(p, id) && LaneOk(p.lanes[v]);
    FlushMoves(p.lanes[v], id, |p.deviceLog|, p.inFlight);
    EffectFlush(cfg, p, DropFlush(p, id), v, FlushAnswered(p.lanes[v], id, |p.deviceLog|, p.inFlight), u, published);
  }

  lemma DeviceReplyFlush(cfg: Config, p: Port, id: nat, value: nat, u: nat, published: seq<Bell>)
    requires PortOk(p) && Enabled(p, DeviceReply(id, value)) && u < |p.lanes| && FlushLaw(cfg, p, u, published)
    ensures FlushLaw(cfg, Next(cfg, p, DeviceReply(id, value)), u, published)
  {
    var v := p.pending[id].vcpu;
    AsyncMoves(p.lanes[v], |p.deviceLog|, p.inFlight);
    if p.pending[id].isAsync {
      EffectFlush(cfg, p, DropDevice(p, id), v, AsyncAnswered(p.lanes[v], |p.deviceLog|, p.inFlight), u, published);
    } else {
      EffectFlush(cfg, p, DropDevice(p, id), v,
                  SyncAnswered(p.lanes[v], ReplyValue(p.deviceLog, id, value), p.inFlight), u, published);
    }
  }

  lemma {:induction false} RunFlush(cfg: Config, p: Port, steps: seq<Step>, u: nat, published: seq<Bell>)
    requires PortOk(p) && Runs(cfg, p, steps) && After(cfg, p, steps).fatal.None? && u < |p.lanes|
    requires FlushLaw(cfg, p, u, published)
    ensures u < |After(cfg, p, steps).lanes| && FlushLaw(cfg, After(cfg, p, steps), u, published + Published(steps, u))
    decreases |steps|
  {
    if steps == [] {
      assert published + [] == published;
    } else {
      var q := Next(cfg, p, steps[0]);
      FatalStops(cfg, q, steps[1..]);
      StepKeeps(cfg, p, steps[0]);
      StepFlush(cfg, p, steps[0], u, published);
      RunFlush(cfg, q, steps[1..], u, published + PublishedBy(steps[0], u));
      Assoc(published, PublishedBy(steps[0], u), Published(steps[1..], u));
    }
  }

  /** In every run of the port: the lines flushed for a vCPU are the packet lines of the doorbells it published, in
      order and once each, of all but the one, if any, that has not passed the gate; a synchronous doorbell has lines
      only if flushing is on and its vCPU has a cache interface. */
  lemma FlushedAreThePackets(cfg: Config, p: Port, steps: seq<Step>, v: nat)
    requires Init(p) && Runs(cfg, p, steps) && After(cfg, p, steps).fatal.None? && v < |p.lanes|
    ensures v < |After(cfg, p, steps).lanes|
    ensures FlushLaw(cfg, After(cfg, p, steps), v, Published(steps, v))
  {
    InitOk(p);
    assert IdleLane(p.lanes[v]) && LaneOk(p.lanes[v]);
    BeforeIsSingle(p.lanes[v]);
    assert FlushLaw(cfg, p, v, []);
    RunFlush(cfg, p, steps, v, []);
    assert [] + Published(steps, v) == Published(steps, v);
  }

  // ---------------------------------------------------------------- one doorbell at the device

  lemma {:induction false} LoggedIsAtDevice(log: seq<Log>, i: nat)
    requires i < |log| && log[i].what.SentBell?
    ensures BellOf(log[i].what.bell) in AtDevice(log, log[i].vcpu, log[i].what.bell.isAsync)
    decreases |log|
  {
    if i < |log| - 1 { LoggedIsAtDevice(log[..|log| - 1], i); }
  }

  lemma {:induction false} KindIsFrom(bells: seq<Bell>, isAsync: bool, b: Bell)
    requires b in OfKind(bells, isAsync)
    ensures b in bells
    decreases |bells|
  {
    if b != bells[|bells| - 1] { KindIsFrom(bells[..|bells| - 1], isAsync, b); }
  }

  /** A doorbell at the device, synchronous or not, carries the packet address of a doorbell that its own vCPU
      published. */
  lemma DeviceBellPublished(cfg: Config, p: Port, steps: seq<Step>, i: nat)
    requires Init(p) && Runs(cfg, p, steps) && After(cfg, p, steps).fatal.None?
    requires i < |After(cfg, p, steps).deviceLog| && After(cfg, p, steps).deviceLog[i].what.SentBell?
    requires After(cfg, p, steps).deviceLog[i].vcpu < |p.lanes|
    ensures (var e := After(cfg, p, steps).deviceLog[i]; BellOf(e.what.bell) in Published(steps, e.vcpu))
  {
    var t := After(cfg, p, steps);
    var v, d := t.deviceLog[i].vcpu, t.deviceLog[i].what.bell;
    BellsAreThePublished(cfg, p, steps, v, d.isAsync);
    LoggedIsAtDevice(t.deviceLog, i);
    KindIsFrom(Published(steps, v), d.isAsync, BellOf(d));
  }
}
