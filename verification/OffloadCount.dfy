/** The in-flight counter of the async engine, which is 32 bits wide: it counts the posted operations and stays within
    the depth in every run if and only if the depth is below the largest 32-bit value. */
module OffloadCount {
  import opened FlushRange
  import opened AcceleratorPort
  import opened Offload

  /** The global counter is the async vCPU's own; nobody else has anything posted. */
  predicate Counted(p: Port, v: nat)
    requires v < |p.lanes|
  {
    p.lanes[v].submitted - p.lanes[v].completed == if p.asyncVcpu == Some(v) then p.inFlight else 0
  }

  /** In flight = submitted - completed, and within the depth. */
  predicate Law(cfg: Config, p: Port) {
    && p.inFlight <= cfg.depth && (p.asyncVcpu.None? ==> p.inFlight == 0)
    && forall v: nat {:trigger Counted(p, v)} | v < |p.lanes| :: Counted(p, v)
  }

  // ---------------------------------------------------------------- steps keep the law while the sum fits

  lemma ApplyCounts(cfg: Config, p: Port, v: nat, e: Effect)
    requires v < |p.lanes| && Law(cfg, p) && Counts(cfg, p.lanes[v], p.inFlight, e)
    requires e.lane.submitted != p.lanes[v].submitted ==> p.asyncVcpu == Some(v) && p.inFlight + 1 < WORD32
    ensures Law(cfg, Apply(p, v, e))
  {
    var r := Apply(p, v, e);
    forall u: nat | u < |r.lanes| ensures Counted(r, u) { assert Counted(p, u); }
  }

  /** The law does not look at anything but the two counters and the owner. */
  lemma SameCounters(cfg: Config, p: Port, q: Port)
    requires Law(cfg, p) && |q.lanes| == |p.lanes| && q.inFlight == p.inFlight && q.asyncVcpu == p.asyncVcpu
    requires forall v {:trigger q.lanes[v]} | 0 <= v < |p.lanes| ::
               q.lanes[v].submitted == p.lanes[v].submitted && q.lanes[v].completed == p.lanes[v].completed
    ensures Law(cfg, q)
  {
    forall v: nat | v < |q.lanes| ensures Counted(q, v) {
      assert Counted(p, v) && q.lanes[v].submitted == p.lanes[v].submitted;
    }
  }

  lemma TakeCounts(cfg: Config, p: Port, v: nat)
    requires PortOk(p) && Law(cfg, p) && p.inFlight + 1 < WORD32 && Enabled(p, TakeMail(v))
             && TakeNext(cfg, p, v).fatal.None?
    ensures Law(cfg, TakeNext(cfg, p, v))
  {
    var m, q := p.lanes[v].mail.value, Opened(p, v);
    TakeIsApply(cfg, p, v);
    LaneFacts(p, v);
    forall u: nat | u < |q.lanes| ensures Counted(q, u) { assert Counted(p, u); LaneFacts(p, u); }
    HandleCounts(cfg, v, q.lanes[v], m, |q.deviceLog|, q.inFlight);
    ApplyCounts(cfg, q, v, Handle(cfg, v, q.lanes[v], m, |q.deviceLog|, q.inFlight));
  }

  lemma AsyncReplyCounts(cfg: Config, p: Port, id: nat, value: nat)
    requires PortOk(p) && Law(cfg, p) && Enabled(p, DeviceReply(id, value)) && p.pending[id].isAsync
    ensures Law(cfg, Next(cfg, p, DeviceReply(id, value)))
  {
    var v, r := p.pending[id].vcpu, Next(cfg, p, DeviceReply(id, value));
    DropDeviceTables(p, id);
    assert LaneOk(p.lanes[v]);
    LaneFacts(p, v);
    AsyncAnsweredKeeps(p.lanes[v], |p.deviceLog|, |p.flushLog|, p.inFlight);
    assert Counted(p, v);
    forall u: nat | u < |r.lanes| ensures Counted(r, u) { assert Counted(p, u); }
  }

  lemma StepCounts(cfg: Config, p: Port, step: Step)
    requires PortOk(p) && Law(cfg, p) && Enabled(p, step) && Next(cfg, p, step).fatal.None?
    requires step.TakeMail? ==> p.inFlight + 1 < WORD32
    ensures Law(cfg, Next(cfg, p, step))
  {
    match step
    case Publish(v, m) => SameCounters(cfg, p, Next(cfg, p, step));
    case TakeMail(v) => TakeCounts(cfg, p, v);
    case OpenGate(v) =>
      assert LaneOk(p.lanes[v]);
      ProcessKeeps(cfg, p.lanes[v], |p.deviceLog|, |p.flushLog|, p.inFlight);
      ApplyCounts(cfg, p, v, IssueDoorbellFlushes(cfg, p.lanes[v], |p.deviceLog|, |p.flushLog|, p.inFlight));
    case FlushReply(id) => FlushReplyCounts(cfg, p, id);
    case DeviceReply(id, value) =>
      if p.pending[id].isAsync { AsyncReplyCounts(cfg, p, id, value); } else { SyncReplyCounts(cfg, p, id, value); }
    case ElsewhereReply(v, value) =>
      assert LaneOk(p.lanes[v]);
      ElsewhereKeeps(cfg, p.lanes[v], value, |p.deviceLog|, |p.flushLog|, p.inFlight);
      ApplyCounts(cfg, p, v, Post(Quiet(p.lanes[v].(elsewhere := false), p.inFlight), value));
  }

  lemma FlushReplyCounts(cfg: Config, p: Port, id: nat)
    requires PortOk(p) && Law(cfg, p) && Enabled(p, FlushReply(id))
    ensures Law(cfg, Next(cfg, p, FlushReply(id)))
  {
    var v := p.flushOwner[id];
    assert LaneOk(p.lanes[v]);
    DropFlushTables(p, id);
    SameCounters(cfg, p, DropFlush(p, id));
    FlushAnsweredKeeps(cfg, p.lanes[v], id, |p.deviceLog|, |p.flushLog|, p.inFlight);
    ApplyCounts(cfg, DropFlush(p, id), v, FlushAnswered(p.lanes[v], id, |p.deviceLog|, p.inFlight));
  }

  lemma SyncReplyCounts(cfg: Config, p: Port, id: nat, value: nat)
    requires PortOk(p) && Law(cfg, p) && Enabled(p, DeviceReply(id, value)) && !p.pending[id].isAsync
    ensures Law(cfg, Next(cfg, p, DeviceReply(id, value)))
  {
    var v := p.pending[id].vcpu;
    assert LaneOk(p.lanes[v]);
    DropDeviceTables(p, id);
    SameCounters(cfg, p, DropDevice(p, id));
    SyncAnsweredKeeps(cfg, p.lanes[v], ReplyValue(p.deviceLog, id, value), |p.deviceLog|, |p.flushLog|, p.inFlight);
    ApplyCounts(cfg, DropDevice(p, id), v, SyncAnswered(p.lanes[v], ReplyValue(p.deviceLog, id, value), p.inFlight));
  }

  lemma InitCounts(cfg: Config, p: Port)
    requires Init(p)
    ensures PortOk(p) && Law(cfg, p)
  {
    InitOk(p);
    forall v: nat | v < |p.lanes| ensures Counted(p, v) { assert IdleLane(p.lanes[v]); }
  }

  /** Below the largest depth, in every run. */
  lemma {:induction false} RunCounts(cfg: Config, p: Port, steps: seq<Step>)
    requires ConfigOk(cfg) && cfg.depth < WORD32 - 1 && Runs(cfg, p, steps)
    requires p.fatal.None? ==> PortOk(p) && Law(cfg, p)
    ensures After(cfg, p, steps).fatal.None? ==> PortOk(After(cfg, p, steps)) && Law(cfg, After(cfg, p, steps))
    decreases |steps|
  {
    if steps != [] {
      StepKeeps(cfg, p, steps[0]);
      if Next(cfg, p, steps[0]).fatal.None? { StepCounts(cfg, p, steps[0]); }
      RunCounts(cfg, Next(cfg, p, steps[0]), steps[1..]);
    }
  }

  /** What the async registers tell the guest that uses the engine: STATUS is the number of posted operations not
      completed, wherever they are, and TICKET minus COMPLETED is the same number. Reading changes nothing but the
      wait. */
  lemma RegistersAgree(cfg: Config, p: Port, v: nat, off: nat)
    requires PortOk(p) && Law(cfg, p) && v < |p.lanes| && p.asyncVcpu == Some(v) && p.lanes[v].waiting
    ensures (var l := p.lanes[v];
             var read := (o: nat) => Handle(cfg, v, l, Mail(AsyncRead(o), 0), |p.deviceLog|, p.inFlight).reply;
             && read(0x08) == Some(Bit(ArmedAsync(l)) + Bit(FlushingAsync(l)) + Bit(l.busy) + |l.queue|)
             && read(0x10) == Some(l.completed) && read(0x20) == Some(l.submitted)
             && read(0x20).value - read(0x10).value == read(0x08).value
             && (off !in {0x08, 0x10, 0x20, 0x28} ==> read(off) == Some(0)))
    ensures Handle(cfg, v, p.lanes[v], Mail(AsyncRead(off), 0), |p.deviceLog|, p.inFlight).lane
              == p.lanes[v].(waiting := false)
  {
    LaneFacts(p, v);
    assert Counted(p, v);
  }

  // ---------------------------------------------------------------- filling the engine

  /** A packet address that vCPU 0 can submit. */
  predicate Usable(cfg: Config, value: nat) {
    && cfg.doorbellAddr != 0 && cfg.hasMem(0)
    && (var range := Compute(value, FlushBytes(cfg), cfg.line); range.Accepted? && range.range.lineCount < WORD32)
  }

  /** vCPU 0 is running and may use the engine, which counts correctly. */
  ghost predicate Ready(cfg: Config, p: Port) {
    && PortOk(p) && Law(cfg, p) && p.fatal.None? && |p.lanes| > 0 && !p.lanes[0].waiting
    && (p.asyncVcpu.None? || p.asyncVcpu == Some(0))
  }

  lemma {:induction false} Append(cfg: Config, p: Port, a: seq<Step>, b: seq<Step>)
    requires Runs(cfg, p, a) && Runs(cfg, After(cfg, p, a), b)
    ensures Runs(cfg, p, a + b) && After(cfg, p, a + b) == After(cfg, After(cfg, p, a), b)
    decreases |a|
  {
    if a == [] {
      assert a + b == b;
    } else {
      assert (a + b)[0] == a[0] && (a + b)[1..] == a[1..] + b;
      Append(cfg, Next(cfg, p, a[0]), a[1..], b);
    }
  }

  function SubmitSteps(value: nat): seq<Step> { [Publish(0, Mail(AsyncWrite(0, value), 0)), TakeMail(0)] }

  lemma SubmitRuns(cfg: Config, p: Port, value: nat)
    requires Ready(cfg, p)
    ensures Runs(cfg, p, SubmitSteps(value))
    ensures (var a := Next(cfg, p, Publish(0, Mail(AsyncWrite(0, value), 0)));
             Enabled(a, TakeMail(0)) && After(cfg, p, SubmitSteps(value)) == Next(cfg, a, TakeMail(0)))
  {
    var first := Publish(0, Mail(AsyncWrite(0, value), 0));
    Cons(cfg, Next(cfg, p, first), TakeMail(0), []);
    Cons(cfg, p, first, [TakeMail(0)] + []);
    assert SubmitSteps(value) == [first] + ([TakeMail(0)] + []);
  }

  lemma Cons(cfg: Config, p: Port, step: Step, rest: seq<Step>)
    requires Enabled(p, step) && Runs(cfg, Next(cfg, p, step), rest)
    ensures Runs(cfg, p, [step] + rest) && After(cfg, p, [step] + rest) == After(cfg, Next(cfg, p, step), rest)
  {
    assert ([step] + rest)[1..] == rest;
  }

  /** A SUBMIT that the depth check lets through arms a doorbell and counts one more, modulo 2^32. */
  lemma SubmitAccepted(cfg: Config, p: Port, value: nat)
    requires Ready(cfg, p) && Usable(cfg, value) && !RefusesDepth(cfg, p.inFlight)
    ensures Runs(cfg, p, SubmitSteps(value))
    ensures (var q := After(cfg, p, SubmitSteps(value));
             && q.fatal.None? && PortOk(q) && |q.lanes| == |p.lanes| && q.asyncVcpu == Some(0)
             && q.inFlight == (p.inFlight + 1) % WORD32
             && q.lanes[0].submitted == p.lanes[0].submitted + 1 && q.lanes[0].completed == p.lanes[0].completed
             && ArmedAsync(q.lanes[0]) && q.lanes[0].armed.value.value == value && q.lanes[0].waiting)
    ensures p.inFlight + 1 < WORD32 ==> Law(cfg, After(cfg, p, SubmitSteps(value)))
  {
    SubmitRuns(cfg, p, value);
    var m := Mail(AsyncWrite(0, value), 0);
    var a := Next(cfg, p, Publish(0, m));
    assert LaneOk(p.lanes[0]);
    StepKeeps(cfg, p, Publish(0, m));
    StepCounts(cfg, p, Publish(0, m));
    TakeIsApply(cfg, a, 0);
    StepKeeps(cfg, a, TakeMail(0));
    if p.inFlight + 1 < WORD32 { StepCounts(cfg, a, TakeMail(0)); }
  }

  /** Answering every flush of vCPU 0's async doorbell lets the guest go on; the counter does not move. */
  lemma {:induction false} FlushAll(cfg: Config, p: Port) returns (steps: seq<Step>)
    requires PortOk(p) && Law(cfg, p) && p.fatal.None? && |p.lanes| > 0 && p.asyncVcpu == Some(0)
             && FlushingAsync(p.lanes[0])
    ensures Runs(cfg, p, steps) && Ready(cfg, After(cfg, p, steps)) && After(cfg, p, steps).inFlight == p.inFlight
    decreases |p.lanes[0].flushIds|
  {
    var l := p.lanes[0];
    assert LaneOk(l) && LaneWired(p, 0);
    var id :| id in l.flushIds;
    var q := Next(cfg, p, FlushReply(id));
    FlushReplyKeeps(cfg, p, id);
    StepCounts(cfg, p, FlushReply(id));
    FlushMoves(l, id, |p.deviceLog|, p.inFlight);
    FlushLeaves(cfg, p, id);
    var rest := [];
    if FlushingAsync(q.lanes[0]) { rest := FlushAll(cfg, q); }
    Cons(cfg, p, FlushReply(id), rest);
    steps := [FlushReply(id)] + rest;
  }

  lemma FlushLeaves(cfg: Config, p: Port, id: nat)
    requires PortOk(p) && |p.lanes| > 0 && FlushingAsync(p.lanes[0]) && Enabled(p, FlushReply(id))
             && p.flushOwner[id] == 0
    requires id in p.lanes[0].flushIds
    ensures (var q := Next(cfg, p, FlushReply(id));
             && q.inFlight == p.inFlight && q.asyncVcpu == p.asyncVcpu
             && (if p.lanes[0].flushing.value.remaining == 1 then !q.lanes[0].waiting
                 else FlushingAsync(q.lanes[0]) && |q.lanes[0].flushIds| < |p.lanes[0].flushIds|))
  {
    assert LaneOk(p.lanes[0]);
    FlushAnsweredKeeps(cfg, p.lanes[0], id, |p.deviceLog|, |p.flushLog|, p.inFlight);
  }

  /** Opening the gate of an armed async doorbell forwards it at once or starts its flushes. */
  lemma GateLeaves(cfg: Config, p: Port, value: nat)
    requires PortOk(p) && p.fatal.None? && |p.lanes| > 0 && ArmedAsync(p.lanes[0])
             && p.lanes[0].armed.value.value == value && Usable(cfg, value)
    ensures (var q := Next(cfg, p, OpenGate(0));
             && q.fatal.None? && q.inFlight == p.inFlight && q.asyncVcpu == p.asyncVcpu
             && (FlushingAsync(q.lanes[0]) || !q.lanes[0].waiting))
  {
    assert LaneOk(p.lanes[0]);
    var outcome := Compute(value, FlushBytes(cfg), cfg.line);
    GateEffect(p.lanes[0], Lines(outcome.range.firstLine, cfg.line, outcome.range.lineCount), |p.deviceLog|,
               |p.flushLog|, p.inFlight);
  }

  lemma GateEffect(l: Lane, lines: seq<nat>, id: nat, at: nat, inFlight: nat)
    requires LaneOk(l) && ArmedAsync(l)
    ensures (var e := SendFlushes(l, lines, id, at, inFlight);
             e.fatal.None? && e.inFlight == inFlight && (FlushingAsync(e.lane) || !e.lane.waiting))
  {
  }

  /** From an armed async doorbell of vCPU 0 to the guest running again. */
  lemma PassGate(cfg: Config, q: Port, value: nat) returns (steps: seq<Step>)
    requires PortOk(q) && Law(cfg, q) && q.fatal.None? && |q.lanes| > 0 && q.asyncVcpu == Some(0)
    requires ArmedAsync(q.lanes[0]) && q.lanes[0].armed.value.value == value && Usable(cfg, value)
    ensures Runs(cfg, q, steps) && Ready(cfg, After(cfg, q, steps)) && After(cfg, q, steps).inFlight == q.inFlight
  {
    var r := Next(cfg, q, OpenGate(0));
    GateLeaves(cfg, q, value);
    StepKeeps(cfg, q, OpenGate(0));
    StepCounts(cfg, q, OpenGate(0));
    var rest := [];
    if FlushingAsync(r.lanes[0]) { rest := FlushAll(cfg, r); }
    Cons(cfg, q, OpenGate(0), rest);
    steps := [OpenGate(0)] + rest;
  }

  /** One more posted operation, with no answer from the device. */
  lemma OneMore(cfg: Config, p: Port, value: nat) returns (steps: seq<Step>)
    requires Ready(cfg, p) && Usable(cfg, value) && p.inFlight < cfg.depth && p.inFlight + 1 < WORD32
    ensures Runs(cfg, p, steps) && Ready(cfg, After(cfg, p, steps)) && After(cfg, p, steps).inFlight == p.inFlight + 1
  {
    var first := Arm(cfg, p, value);
    var tail := PassGate(cfg, After(cfg, p, first), value);
    Append(cfg, p, first, tail);
    steps := first + tail;
  }

  lemma Arm(cfg: Config, p: Port, value: nat) returns (steps: seq<Step>)
    requires Ready(cfg, p) && Usable(cfg, value) && p.inFlight < cfg.depth && p.inFlight + 1 < WORD32
    ensures Runs(cfg, p, steps)
    ensures (var q := After(cfg, p, steps);
             && PortOk(q) && Law(cfg, q) && q.fatal.None? && |q.lanes| > 0 && q.asyncVcpu == Some(0)
             && ArmedAsync(q.lanes[0]) && q.lanes[0].armed.value.value == value && q.inFlight == p.inFlight + 1)
  {
    SubmitAccepted(cfg, p, value);
    steps := SubmitSteps(value);
  }

  /** n submits without an answer put n operations in flight, for every n up to the depth. */
  lemma {:induction false} FillTo(cfg: Config, p: Port, value: nat, n: nat) returns (steps: seq<Step>)
    requires Ready(cfg, p) && p.inFlight == 0 && ConfigOk(cfg) && Usable(cfg, value) && n <= cfg.depth
    ensures Runs(cfg, p, steps) && Ready(cfg, After(cfg, p, steps)) && After(cfg, p, steps).inFlight == n
    decreases n
  {
    steps := [];
    if n > 0 {
      var before := FillTo(cfg, p, value, n - 1);
      var more := OneMore(cfg, After(cfg, p, before), value);
      Append(cfg, p, before, more);
      steps := before + more;
    }
  }

  /** At the largest depth a run of submits reaches a counter that reads zero with 2^32 operations out. */
  lemma DepthWraps(cfg: Config, p: Port, value: nat) returns (steps: seq<Step>)
    requires ConfigOk(cfg) && cfg.depth == WORD32 - 1 && Usable(cfg, value) && Init(p) && |p.lanes| > 0
    ensures Runs(cfg, p, steps)
    ensures (var t := After(cfg, p, steps);
             t.fatal.None? && |t.lanes| > 0 && t.inFlight == 0 && t.lanes[0].submitted - t.lanes[0].completed == WORD32
                 && !Law(cfg, t))
  {
    InitCounts(cfg, p);
    assert IdleLane(p.lanes[0]);
    var fill := FillTo(cfg, p, value, WORD32 - 1);
    var q := After(cfg, p, fill);
    assert Counted(q, 0);
    SubmitAccepted(cfg, q, value);
    Append(cfg, p, fill, SubmitSteps(value));
    steps := fill + SubmitSteps(value);
    assert !Counted(After(cfg, p, steps), 0);
  }

  /** The law in every run. */
  ghost predicate AlwaysCounted(cfg: Config, p: Port) {
    forall steps: seq<Step> {:trigger Runs(cfg, p, steps)} | Runs(cfg, p, steps) ::
        After(cfg, p, steps).fatal.None? ==> Law(cfg, After(cfg, p, steps))
  }

  /** In flight = submitted - completed, within the depth, in every run, if and only if the depth is below 2^32 - 1:
      for every configuration in which some packet can be submitted at all. */
  lemma CountedIff(cfg: Config, p: Port, value: nat)
    requires ConfigOk(cfg) && Usable(cfg, value) && Init(p) && |p.lanes| > 0
    ensures AlwaysCounted(cfg, p) <==> cfg.depth < WORD32 - 1
  {
    if cfg.depth < WORD32 - 1 {
      InitCounts(cfg, p);
      forall steps: seq<Step> | Runs(cfg, p, steps)
        ensures After(cfg, p, steps).fatal.None? ==> Law(cfg, After(cfg, p, steps))
      {
        RunCounts(cfg, p, steps);
      }
    } else {
      var steps := DepthWraps(cfg, p, value);
      assert Runs(cfg, p, steps);
    }
  }
}
