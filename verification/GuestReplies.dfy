/** What the guests read back from the accelerator port (src/quetz_balar_accelerator_port.cc): every mailbox call is
    answered once, and with which value. */
module GuestReplies {
  import opened FlushRange
  import opened AcceleratorPort
  import opened Offload

  /** The value of an engine register of vCPU v. */
  function Register(p: Port, v: nat, off: nat): nat
    requires v < |p.lanes|
  {
    match off
    case 0x08 => p.inFlight
    case 0x10 => p.lanes[v].completed
    case 0x20 => p.lanes[v].submitted
    case 0x28 => p.lanes[v].result
    case _ => 0
  }

  /** The response a step posts, if any. A read of the device gets the device's data and a doorbell zero; a call for
      another part of the simulator gets its answer; a register read gets the register; a SUBMIT gets zero once its
      packet is flushed, and any other write to the engine gets zero at once. */
  function ReplyOf(cfg: Config, p: Port, step: Step): seq<Reply>
    requires Enabled(p, step)
  {
    match step
    case Publish(_, _) => []
    case TakeMail(v) =>
      (match p.lanes[v].mail.value.request
       case AsyncRead(off) => [Reply(v, Register(p, v, off))]
       case AsyncWrite(off, _) => if off != 0 then [Reply(v, 0)] else []
       case _ => [])
    case OpenGate(v) =>
      var d := p.lanes[v].armed.value;
      if d.isAsync && PacketLines(cfg, d.value) == [] then [Reply(v, 0)] else []
    case FlushReply(id) =>
      var v := p.flushOwner[id];
      var f := p.lanes[v].flushing;
      if f.Some? && f.value.bell.isAsync && f.value.remaining <= 1 then [Reply(v, 0)] else []
    case DeviceReply(id, value) =>
      if p.pending[id].isAsync then []
      else [Reply(p.pending[id].vcpu, if id < |p.deviceLog| && p.deviceLog[id].what.SentRead? then value else 0)]
    case ElsewhereReply(v, value) => [Reply(v, value)]
  }

  function ReplySeq(v: nat, reply: Option<nat>): seq<Reply> { if reply.Some? then [Reply(v, reply.value)] else [] }

  /** Every step posts exactly that, to the vCPU whose call it is. */
  lemma StepReplies(cfg: Config, p: Port, step: Step)
    requires PortOk(p) && Enabled(p, step) && Next(cfg, p, step).fatal.None?
    ensures Next(cfg, p, step).replies == p.replies + ReplyOf(cfg, p, step)
  {
    match step
    case Publish(v, m) =>
    case TakeMail(v) => TakeReplies(cfg, p, v);
    case OpenGate(v) => GateReplies(cfg, p, v);
    case FlushReply(id) => FlushReplies(cfg, p, id);
    case DeviceReply(id, value) => DeviceReplies(cfg, p, id, value);
    case ElsewhereReply(v, value) =>
  }

  lemma TakeReplies(cfg: Config, p: Port, v: nat)
    requires PortOk(p) && Enabled(p, TakeMail(v)) && Next(cfg, p, TakeMail(v)).fatal.None?
    ensures Next(cfg, p, TakeMail(v)).replies == p.replies + ReplyOf(cfg, p, TakeMail(v))
  {
    assert LaneOk(p.lanes[v]);
    var q, m := Opened(p, v), p.lanes[v].mail.value;
    TakeIsApply(cfg, p, v);
    HandleAnswers(cfg, v, q.lanes[v], m, |q.deviceLog|, q.inFlight);
    var e := Handle(cfg, v, q.lanes[v], m, |q.deviceLog|, q.inFlight);
    assert Apply(q, v, e).replies == p.replies + ReplySeq(v, e.reply);
  }

  /** Handling a request answers the guest at once if it only touches the engine's registers. */
  lemma HandleAnswers(cfg: Config, v: nat, l: Lane, m: Mail, dev: nat, n: nat)
    requires l.waiting
    ensures (var e := Handle(cfg, v, l, m, dev, n);
             e.fatal.None? ==>
               && Answers(l, e)
               && e.reply == match m.request
                             case AsyncRead(off) => Some(ReadRegister(l, off, n))
                             case AsyncWrite(off, _) => if off != 0 then Some(0) else None
                             case _ => None)
  {
  }

  lemma GateReplies(cfg: Config, p: Port, v: nat)
    requires PortOk(p) && Enabled(p, OpenGate(v)) && Next(cfg, p, OpenGate(v)).fatal.None?
    ensures Next(cfg, p, OpenGate(v)).replies == p.replies + ReplyOf(cfg, p, OpenGate(v))
  {
    assert LaneOk(p.lanes[v]);
  }

  lemma FlushReplies(cfg: Config, p: Port, id: nat)
    requires PortOk(p) && Enabled(p, FlushReply(id)) && Next(cfg, p, FlushReply(id)).fatal.None?
    ensures Next(cfg, p, FlushReply(id)).replies == p.replies + ReplyOf(cfg, p, FlushReply(id))
  {
    assert FlushOk(p, id) && LaneOk(p.lanes[p.flushOwner[id]]);
  }

  lemma DeviceReplies(cfg: Config, p: Port, id: nat, value: nat)
    requires PortOk(p) && Enabled(p, DeviceReply(id, value)) && Next(cfg, p, DeviceReply(id, value)).fatal.None?
    ensures Next(cfg, p, DeviceReply(id, value)).replies == p.replies + ReplyOf(cfg, p, DeviceReply(id, value))
  {
    assert LaneOk(p.lanes[p.pending[id].vcpu]);
  }

  // ---------------------------------------------------------------- every call once

  /** The responses posted to vCPU v. */
  function RepliesTo(replies: seq<Reply>, v: nat): nat {
    if replies == [] then 0
    else RepliesTo(replies[..|replies| - 1], v) + Bit(replies[|replies| - 1].vcpu == v)
  }

  /** The calls vCPU v made in a run. */
  function Calls(steps: seq<Step>, v: nat): nat {
    if steps == [] then 0 else Bit(steps[0].Publish? && steps[0].v == v) + Calls(steps[1..], v)
  }

  predicate Balanced(p: Port, v: nat, calls: nat)
    requires v < |p.lanes|
  {
    calls == RepliesTo(p.replies, v) + Bit(p.lanes[v].waiting)
  }

  lemma RepliesSnoc(replies: seq<Reply>, r: Reply, v: nat)
    ensures RepliesTo(replies + [r], v) == RepliesTo(replies, v) + Bit(r.vcpu == v)
  {
    assert (replies + [r])[..|replies|] == replies;
  }

  /** An effect ends the wait of its lane exactly if it posts a response. */
  predicate Answers(l: Lane, e: Effect) {
    if e.reply.Some? then l.waiting && !e.lane.waiting else e.lane.waiting == l.waiting
  }

  lemma ApplyBalanced(p: Port, base: Port, v: nat, e: Effect, u: nat, calls: nat)
    requires |base.lanes| == |p.lanes| && v < |p.lanes| && u < |p.lanes| && base.replies == p.replies
    requires u != v ==> base.lanes[u] == p.lanes[u]
    requires Answers(p.lanes[v], e) && Balanced(p, u, calls)
    ensures Balanced(Apply(base, v, e), u, calls)
  {
    if e.reply.Some? { RepliesSnoc(p.replies, Reply(v, e.reply.value), u); }
  }

  lemma StepBalanced(cfg: Config, p: Port, step: Step, u: nat, calls: nat)
    requires PortOk(p) && Enabled(p, step) && Next(cfg, p, step).fatal.None? && u < |p.lanes| && Balanced(p, u, calls)
    ensures Balanced(Next(cfg, p, step), u, calls + Bit(step.Publish? && step.v == u))
  {
    match step
    case Publish(v, m) =>
    case TakeMail(v) => TakeBalanced(cfg, p, v, u, calls);
    case OpenGate(v) => GateBalanced(cfg, p, v, u, calls);
    case FlushReply(id) => FlushBalanced(cfg, p, id, u, calls);
    case DeviceReply(id, value) => DeviceBalanced(cfg, p, id, value, u, calls);
    case ElsewhereReply(v, value) =>
      assert LaneOk(p.lanes[v]);
      ApplyBalanced(p, p, v, Post(Quiet(p.lanes[v].(elsewhere := false), p.inFlight), value), u, calls);
  }

  lemma TakeBalanced(cfg: Config, p: Port, v: nat, u: nat, calls: nat)
    requires PortOk(p) && Enabled(p, TakeMail(v)) && Next(cfg, p, TakeMail(v)).fatal.None? && u < |p.lanes|
    requires Balanced(p, u, calls)
    ensures Balanced(Next(cfg, p, TakeMail(v)), u, calls)
  {
    assert LaneOk(p.lanes[v]);
    var q, m := Opened(p, v), p.lanes[v].mail.value;
    TakeIsApply(cfg, p, v);
    HandleAnswers(cfg, v, q.lanes[v], m, |q.deviceLog|, q.inFlight);
    ApplyBalanced(p, q, v, Handle(cfg, v, q.lanes[v], m, |q.deviceLog|, q.inFlight), u, calls);
  }

  lemma GateBalanced(cfg: Config, p: Port, v: nat, u: nat, calls: nat)
    requires PortOk(p) && Enabled(p, OpenGate(v)) && Next(cfg, p, OpenGate(v)).fatal.None? && u < |p.lanes|
    requires Balanced(p, u, calls)
    ensures Balanced(Next(cfg, p, OpenGate(v)), u, calls)
  {
    assert LaneOk(p.lanes[v]);
    ApplyBalanced(p, p, v, IssueDoorbellFlushes(cfg, p.lanes[v], |p.deviceLog|, |p.flushLog|, p.inFlight), u, calls);
  }

  lemma FlushBalanced(cfg: Config, p: Port, id: nat, u: nat, calls: nat)
    requires PortOk(p) && Enabled(p, FlushReply(id)) && Next(cfg, p, FlushReply(id)).fatal.None? && u < |p.lanes|
    requires Balanced(p, u, calls)
    ensures Balanced(Next(cfg, p, FlushReply(id)), u, calls)
  {
    var v := p.flushOwner[id];
    assert FlushOk(p, id) && LaneOk(p.lanes[v]);
    ApplyBalanced(p, DropFlush(p, id), v, FlushAnswered(p.lanes[v], id, |p.deviceLog|, p.inFlight), u, calls);
  }

  lemma DeviceBalanced(cfg: Config, p: Port, id: nat, value: nat, u: nat, calls: nat)
    requires PortOk(p) && Enabled(p, DeviceReply(id, value)) && Next(cfg, p, DeviceReply(id, value)).fatal.None?
    requires u < |p.lanes| && Balanced(p, u, calls)
    ensures Balanced(Next(cfg, p, DeviceReply(id, value)), u, calls)
  {
    var v := p.pending[id].vcpu;
    assert LaneOk(p.lanes[v]);
    if p.pending[id].isAsync {
      ApplyBalanced(p, DropDevice(p, id), v, AsyncAnswered(p.lanes[v], |p.deviceLog|, p.inFlight), u, calls);
    } else {
      ApplyBalanced(p, DropDevice(p, id), v, SyncAnswered(p.lanes[v], ReplyValue(p.deviceLog, id, value), p.inFlight),
                    u, calls);
    }
  }

  lemma {:induction false} RunBalanced(cfg: Config, p: Port, steps: seq<Step>, u: nat, calls: nat)
    requires PortOk(p) && Runs(cfg, p, steps) && After(cfg, p, steps).fatal.None? && u < |p.lanes|
             && Balanced(p, u, calls)
    ensures u < |After(cfg, p, steps).lanes| && Balanced(After(cfg, p, steps), u, calls + Calls(steps, u))
    decreases |steps|
  {
    if steps != [] {
      var q := Next(cfg, p, steps[0]);
      StillGoing(cfg, q, steps[1..]);
      StepKeeps(cfg, p, steps[0]);
      StepBalanced(cfg, p, steps[0], u, calls);
      RunBalanced(cfg, q, steps[1..], u, calls + Bit(steps[0].Publish? && steps[0].v == u));
    }
  }

  lemma StillGoing(cfg: Config, p: Port, steps: seq<Step>)
    requires Runs(cfg, p, steps) && After(cfg, p, steps).fatal.None?
    ensures p.fatal.None?
  {
  }

  /** In every run of the port every mailbox call of every vCPU has been answered exactly once, but for the one its
      guest may be waiting in; and a guest makes its next call only after that, so the answers are to the calls in
      order. */
  lemma CallsAnsweredOnce(cfg: Config, p: Port, steps: seq<Step>, v: nat)
    requires Init(p) && Runs(cfg, p, steps) && After(cfg, p, steps).fatal.None? && v < |p.lanes|
    ensures (var t := After(cfg, p, steps);
             v < |t.lanes| && Calls(steps, v) == RepliesTo(t.replies, v) + Bit(t.lanes[v].waiting))
  {
    InitOk(p);
    assert IdleLane(p.lanes[v]);
    RunBalanced(cfg, p, steps, v, 0);
  }

  // ---------------------------------------------------------------- what stops a run

  /** The refusals: a second vCPU touches the engine; a SUBMIT comes without a doorbell address or cache interface, or
      with the depth used up; a packet's lines cannot be computed or counted. */
  predicate Refused(cfg: Config, p: Port, step: Step)
    requires Enabled(p, step)
  {
    match step
    case TakeMail(v) =>
      var r := p.lanes[v].mail.value.request;
      || ((r.AsyncRead? || r.AsyncWrite?) && p.asyncVcpu.Some? && p.asyncVcpu.value != v)
      || (r.AsyncWrite? && r.off == 0
          && (cfg.doorbellAddr == 0 || !cfg.hasMem(v) || (p.inFlight + 1) % 0x1_0000_0000 > cfg.depth))
    case OpenGate(v) =>
      var packet := Compute(p.lanes[v].armed.value.value, if cfg.flushEnabled then cfg.flushBytes else 0, cfg.line);
      packet.Refused? || packet.range.lineCount >= 0x1_0000_0000
    case _ => false
  }

  /** A step stops the run if and only if it is refused. */
  lemma StopsIff(cfg: Config, p: Port, step: Step)
    requires PortOk(p) && Enabled(p, step)
    ensures Next(cfg, p, step).fatal.Some? <==> Refused(cfg, p, step)
  {
    match step
    case Publish(v, m) =>
    case TakeMail(v) => assert LaneOk(p.lanes[v]);
    case OpenGate(v) => assert LaneOk(p.lanes[v]);
    case FlushReply(id) => FlushReplyKeeps(cfg, p, id);
    case DeviceReply(id, value) => if p.pending[id].isAsync { AsyncReplyKeeps(cfg, p, id, value); }
                                   else { SyncReplyKeeps(cfg, p, id, value); }
    case ElsewhereReply(v, value) => assert LaneOk(p.lanes[v]);
  }
}
