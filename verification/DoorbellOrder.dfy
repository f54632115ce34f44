/** Cores and accelerator port together, in the order of QuetzCPU::tick (src/quetzcpu.cc): poll every mailbox, tick
    every core, let the port open gates; guests, memory and the device act at any point in between. */
module DoorbellOrder {
  import opened Trace
  import opened MemoryIssue
  import P = Pipeline
  import opened A = AcceleratorPort
  import O = Offload

  datatype Setup = Setup(core: P.Config, port: A.Config)

  /** Where the tick is. */
  datatype Phase = Polling(next: nat) | Ticking(next: nat) | Processing

  datatype Sys = Sys(cores: seq<P.Core>, port: O.Port, phase: Phase)

  datatype Step =
    | Put(v: nat, cmd: Command)             // a running guest puts a command on its ring
    | Publish(v: nat, request: A.Request)   // ... or publishes a mailbox request and waits
    | Poll
    | TickCore
    | OpenGate(v: nat)
    | EndTick
    | MemReply(v: nat, id: nat)
    | PortReply(reply: O.Step)

  predicate IsReply(r: O.Step) { r.FlushReply? || r.DeviceReply? || r.ElsewhereReply? }

  predicate Sized(s: Sys) {
    && |s.cores| == |s.port.lanes| > 0
    && (s.phase.Polling? || s.phase.Ticking? ==> s.phase.next < |s.cores|)
  }

  predicate Enabled(s: Sys, step: Step) {
    && Sized(s) && s.port.fatal.None? && (forall v | 0 <= v < |s.cores| :: !s.cores[v].dead)
    && match step {
         case Put(v, cmd) => v < |s.cores| && !s.port.lanes[v].waiting && P.AllOk(ExpandOne(cmd))
         case Publish(v, _) => v < |s.cores| && !s.port.lanes[v].waiting
         case Poll => s.phase.Polling?
         case TickCore => s.phase.Ticking?
         case OpenGate(v) => s.phase.Processing? && v < |s.cores| && s.port.lanes[v].armed.Some?
             && P.IsDrained(s.cores[v])
         case EndTick => s.phase.Processing?
         case MemReply(v, id) => v < |s.cores| && Outstanding(s.cores[v].link, id)
         case PortReply(r) => IsReply(r) && O.Enabled(s.port, r)
       }
  }

  predicate Outstanding(l: Link, id: nat) { MemoryIssue.Outstanding(l, id) }

  function Next(cfg: Setup, s: Sys, step: Step): Sys
    requires P.ConfigOk(cfg.core) && Enabled(s, step)
  {
    var n := |s.cores|;
    match step
    case Put(v, cmd) => s.(cores := s.cores[v := P.Put(s.cores[v], cmd)])
    case Publish(v, request) =>
      s.(port := O.Next(cfg.port, s.port, O.Publish(v, Mail(request, |P.Streamed(s.cores[v])|))))
    case Poll =>
      var v := s.phase.next;
      s.(port := if s.port.lanes[v].mail.Some? then O.Next(cfg.port, s.port, O.TakeMail(v)) else s.port,
         phase := if v + 1 < n then Polling(v + 1) else Ticking(0))
    case TickCore =>
      var v := s.phase.next;
      s.(cores := s.cores[v := P.Tick(cfg.core, s.cores[v])], phase := if v + 1 < n then Ticking(v + 1) else Processing)
    case OpenGate(v) => s.(port := O.Next(cfg.port, s.port, O.OpenGate(v)))
    case EndTick => s.(phase := Polling(0))
    case MemReply(v, id) => s.(cores := s.cores[v := P.Answer(s.cores[v], id)])
    case PortReply(r) => s.(port := O.Next(cfg.port, s.port, r))
  }

  // ---------------------------------------------------------------- what a doorbell waits for

  /** The requests of the first `mark` commands the vCPU put on its ring are the first requests sent, all of them,
      and every one has been answered. */
  ghost predicate Done(cfg: P.Config, c: P.Core, mark: nat) {
    && mark <= |P.Streamed(c)|
    && (var reqs := P.Flat(cfg, P.Streamed(c)[..mark]);
        reqs <= c.link.sent && forall id: nat | id < |reqs| :: id in c.link.answered)
  }

  ghost predicate Drained(cfg: P.Config, c: P.Core, mark: nat) { c.halted || Done(cfg, c, mark) }

  predicate FlushSent(cfg: A.Config, p: O.Port, v: nat, d: Doorbell) {
    && d.lo <= d.hi <= |p.flushLog|
    && p.flushLog[d.lo..d.hi] == O.Flushes(v, PacketLines(cfg, d.value))
  }

  /** Exactly the packet's lines were flushed for it, and every flush has been answered. */
  predicate FlushDone(cfg: A.Config, p: O.Port, v: nat, d: Doorbell) {
    FlushSent(cfg, p, v, d) && forall id | d.lo <= id < d.hi :: id !in p.flushOwner
  }

  ghost predicate Ready(cfg: Setup, s: Sys, v: nat, d: Doorbell)
    requires v < |s.cores|
  {
    d.gated && Drained(cfg.core, s.cores[v], d.mark) && FlushDone(cfg.port, s.port, v, d)
  }

  // ---------------------------------------------------------------- the invariant

  /** Lane v's core has ticked since the mailboxes were polled. */
  predicate Ticked(phase: Phase, v: nat) {
    match phase
    case Polling(_) => false
    case Ticking(u) => v < u
    case Processing => true
  }

  /** The core's drain test can be trusted. */
  predicate Sound(c: P.Core) { c.q == [] && !c.hitCap && !c.halted && !c.dead ==> c.backlog == [] }

  ghost predicate LaneReady(cfg: Setup, s: Sys, v: nat)
    requires v < |s.cores| && v < |s.port.lanes|
  {
    var l, c := s.port.lanes[v], s.cores[v];
    && (l.mail.Some? ==> l.mail.value.mark == |P.Streamed(c)|)
    && (l.armed.Some? ==>
          l.armed.value.gated && l.armed.value.mark == |P.Streamed(c)| && (Ticked(s.phase, v) ==> Sound(c)))
    && (l.flushing.Some? ==>
          var d := l.flushing.value.bell;
          d.gated && Drained(cfg.core, c, d.mark) && FlushSent(cfg.port, s.port, v, d))
    && (forall i {:trigger Ready(cfg, s, v, l.queue[i])} | 0 <= i < |l.queue| :: Ready(cfg, s, v, l.queue[i]))
  }

  ghost predicate LogReady(cfg: Setup, s: Sys, i: nat)
    requires i < |s.port.deviceLog|
  {
    var e := s.port.deviceLog[i];
    && e.vcpu < |s.cores|
    && (e.what.SentBell? ==>
          if e.what.bell.gated then Ready(cfg, s, e.vcpu, e.what.bell)
          else !e.what.bell.isAsync && !Gates(cfg.port, e.vcpu))
  }

  ghost predicate CoresOk(cfg: Setup, s: Sys) {
    forall v: nat {:trigger s.cores[v]} | v < |s.cores| :: P.CoreOk(cfg.core, s.cores[v])
  }

  ghost predicate OrderOk(cfg: Setup, s: Sys) {
    && Sized(s) && CoresOk(cfg, s) && O.PortOk(s.port)
    && (forall v: nat {:trigger LaneReady(cfg, s, v)} | v < |s.cores| :: LaneReady(cfg, s, v))
    && (forall i: nat {:trigger LogReady(cfg, s, i)} | i < |s.port.deviceLog| :: LogReady(cfg, s, i))
  }

  /** Until a refusal stops the run, everything holds; and what stops it is never a fault of the port. */
  ghost predicate Inv(cfg: Setup, s: Sys) { if s.port.fatal.None? then OrderOk(cfg, s) else !PortFault(s.port.fatal) }

  predicate SetupOk(cfg: Setup) { P.ConfigOk(cfg.core) }

  // ---------------------------------------------------------------- what stays true of a doorbell

  /** A core only ever adds to its stream, its requests and its answers. */
  predicate Grows(c: P.Core, d: P.Core) {
    P.Streamed(c) <= P.Streamed(d) && c.link.sent <= d.link.sent && c.link.answered <= d.link.answered
        && (c.halted ==> d.halted)
  }

  lemma DrainedKept(cfg: P.Config, c: P.Core, d: P.Core, mark: nat)
    requires Drained(cfg, c, mark) && Grows(c, d)
    ensures Drained(cfg, d, mark)
  {
    if !c.halted { assert P.Streamed(d)[..mark] == P.Streamed(c)[..mark]; }
  }

  /** The port only appends to its flush log, and new flushes have new ids. */
  predicate Extends(p: O.Port, r: O.Port) {
    p.flushLog <= r.flushLog && forall id | id in r.flushOwner :: id in p.flushOwner || id >= |p.flushLog|
  }

  lemma FlushKept(cfg: A.Config, p: O.Port, r: O.Port, v: nat, d: Doorbell)
    requires Extends(p, r)
    ensures FlushSent(cfg, p, v, d) ==> FlushSent(cfg, r, v, d)
    ensures FlushDone(cfg, p, v, d) ==> FlushDone(cfg, r, v, d)
  {
    if FlushSent(cfg, p, v, d) { assert r.flushLog[d.lo..d.hi] == p.flushLog[d.lo..d.hi]; }
  }

  /** Everything that holds of lane v and of the log survives when cores grow and the port extends. */
  lemma ReadyKept(cfg: Setup, s: Sys, t: Sys, v: nat, d: Doorbell)
    requires v < |s.cores| && v < |t.cores| && Ready(cfg, s, v, d) && Grows(s.cores[v], t.cores[v])
             && Extends(s.port, t.port)
    ensures Ready(cfg, t, v, d)
  {
    DrainedKept(cfg.core, s.cores[v], t.cores[v], d.mark);
    FlushKept(cfg.port, s.port, t.port, v, d);
  }

  predicate AllGrow(s: Sys, t: Sys) {
    |t.cores| == |s.cores| && (forall v: nat {:trigger t.cores[v]} | v < |s.cores| :: Grows(s.cores[v], t.cores[v]))
  }

  lemma LogKept(cfg: Setup, s: Sys, t: Sys, i: nat)
    requires OrderOk(cfg, s) && AllGrow(s, t) && Extends(s.port, t.port)
    requires i < |s.port.deviceLog| && i < |t.port.deviceLog| && t.port.deviceLog[i] == s.port.deviceLog[i]
    ensures LogReady(cfg, t, i)
  {
    assert LogReady(cfg, s, i);
    var e := s.port.deviceLog[i];
    assert Grows(s.cores[e.vcpu], t.cores[e.vcpu]);
    if e.what.SentBell? && e.what.bell.gated { ReadyKept(cfg, s, t, e.vcpu, e.what.bell); }
  }

  /** A lane the step does not touch. */
  lemma LaneKept(cfg: Setup, s: Sys, t: Sys, v: nat)
    requires OrderOk(cfg, s) && AllGrow(s, t) && Extends(s.port, t.port)
    requires v < |s.cores| && |t.port.lanes| == |s.port.lanes| && t.port.lanes[v] == s.port.lanes[v]
    requires s.port.lanes[v].waiting ==> P.Streamed(t.cores[v]) == P.Streamed(s.cores[v])
    requires s.port.lanes[v].armed.Some? && Ticked(t.phase, v) ==> Sound(t.cores[v])
    ensures LaneReady(cfg, t, v)
  {
    assert LaneReady(cfg, s, v) && LaneOk(s.port.lanes[v]) && Grows(s.cores[v], t.cores[v]);
    var l := s.port.lanes[v];
    QueueKept(cfg, s, t, v);
    if l.flushing.Some? {
      DrainedKept(cfg.core, s.cores[v], t.cores[v], l.flushing.value.bell.mark);
      FlushKept(cfg.port, s.port, t.port, v, l.flushing.value.bell);
    }
  }

  lemma QueueKept(cfg: Setup, s: Sys, t: Sys, v: nat)
    requires OrderOk(cfg, s) && AllGrow(s, t) && Extends(s.port, t.port) && v < |s.cores|
    ensures forall d {:trigger Ready(cfg, t, v, d)} | d in s.port.lanes[v].queue :: Ready(cfg, t, v, d)
  {
    var l := s.port.lanes[v];
    assert LaneReady(cfg, s, v) && Grows(s.cores[v], t.cores[v]);
    forall d | d in l.queue ensures Ready(cfg, t, v, d) {
      var i :| 0 <= i < |l.queue| && l.queue[i] == d;
      assert Ready(cfg, s, v, l.queue[i]);
      ReadyKept(cfg, s, t, v, d);
    }
  }

  // ---------------------------------------------------------------- steps of a core

  /** A step that changes one core and leaves the port alone. */
  lemma CoreStepKeeps(cfg: Setup, s: Sys, t: Sys, v: nat)
    requires OrderOk(cfg, s) && s.port.fatal.None? && v < |s.cores|
    requires t.port == s.port && Sized(t) && |t.cores| == |s.cores| && t.cores == s.cores[v := t.cores[v]]
    requires P.CoreOk(cfg.core, t.cores[v]) && Grows(s.cores[v], t.cores[v])
    requires s.port.lanes[v].waiting ==> P.Streamed(t.cores[v]) == P.Streamed(s.cores[v])
    requires forall u: nat {:trigger Ticked(t.phase, u)} | u < |s.cores| && s.port.lanes[u].armed.Some?
               && Ticked(t.phase, u) :: Sound(t.cores[u])
    ensures Inv(cfg, t)
  {
    forall u: nat | u < |s.cores| ensures Grows(s.cores[u], t.cores[u]) && P.CoreOk(cfg.core, t.cores[u]) {
      if u != v { assert t.cores[u] == s.cores[u] && P.CoreOk(cfg.core, s.cores[u]); }
    }
    assert AllGrow(s, t);
    forall u: nat | u < |t.cores| ensures LaneReady(cfg, t, u) {
      assert t.port.lanes[u].armed.Some? && Ticked(t.phase, u) ==> Sound(t.cores[u]);
      LaneKept(cfg, s, t, u);
    }
    forall i: nat | i < |t.port.deviceLog| ensures LogReady(cfg, t, i) { LogKept(cfg, s, t, i); }
  }

  lemma SoundNow(cfg: Setup, s: Sys, u: nat)
    requires OrderOk(cfg, s) && u < |s.cores| && s.port.lanes[u].armed.Some? && Ticked(s.phase, u)
    ensures Sound(s.cores[u]) && s.port.lanes[u].waiting
  {
    assert LaneReady(cfg, s, u) && LaneOk(s.port.lanes[u]);
  }

  lemma PutKeeps(cfg: Setup, s: Sys, v: nat, cmd: Command)
    requires SetupOk(cfg) && OrderOk(cfg, s) && Enabled(s, Put(v, cmd))
    ensures Inv(cfg, Next(cfg, s, Put(v, cmd)))
  {
    var t := Next(cfg, s, Put(v, cmd));
    assert P.CoreOk(cfg.core, s.cores[v]);
    P.PutKeeps(cfg.core, s.cores[v], cmd);
    forall u: nat | u < |s.cores| && s.port.lanes[u].armed.Some? && Ticked(t.phase, u) ensures Sound(t.cores[u]) {
      SoundNow(cfg, s, u);
    }
    CoreStepKeeps(cfg, s, t, v);
  }

  lemma MemReplyKeeps(cfg: Setup, s: Sys, v: nat, id: nat)
    requires SetupOk(cfg) && OrderOk(cfg, s) && Enabled(s, MemReply(v, id))
    ensures Inv(cfg, Next(cfg, s, MemReply(v, id)))
  {
    var t := Next(cfg, s, MemReply(v, id));
    assert P.CoreOk(cfg.core, s.cores[v]);
    P.AnswerKeeps(cfg.core, s.cores[v], id);
    forall u: nat | u < |s.cores| && s.port.lanes[u].armed.Some? && Ticked(t.phase, u) ensures Sound(t.cores[u]) {
      SoundNow(cfg, s, u);
    }
    CoreStepKeeps(cfg, s, t, v);
  }

  /** The tick makes the drain test sound again, because the poll came before it. */
  lemma TickCoreKeeps(cfg: Setup, s: Sys)
    requires SetupOk(cfg) && OrderOk(cfg, s) && Enabled(s, TickCore)
    ensures Inv(cfg, Next(cfg, s, TickCore))
  {
    var t, v := Next(cfg, s, TickCore), s.phase.next;
    assert P.CoreOk(cfg.core, s.cores[v]);
    P.TickKeeps(cfg.core, s.cores[v]);
    if !s.cores[v].halted { P.DrainSound(cfg.core, s.cores[v]); }
    forall u: nat | u < |s.cores| && s.port.lanes[u].armed.Some? && Ticked(t.phase, u) ensures Sound(t.cores[u]) {
      if u != v { SoundNow(cfg, s, u); }
    }
    CoreStepKeeps(cfg, s, t, v);
  }

  lemma EndTickKeeps(cfg: Setup, s: Sys)
    requires SetupOk(cfg) && OrderOk(cfg, s) && Enabled(s, EndTick)
    ensures Inv(cfg, Next(cfg, s, EndTick))
  {
    var t := Next(cfg, s, EndTick);
    assert P.CoreOk(cfg.core, s.cores[0]);
    CoreStepKeeps(cfg, s, t, 0);
  }

  // ---------------------------------------------------------------- steps of the port

  /** A step of the port for lane v. */
  lemma PortStepKeeps(cfg: Setup, s: Sys, t: Sys, v: nat)
    requires OrderOk(cfg, s) && v < |s.cores| && t.cores == s.cores && Sized(t) && O.PortOk(t.port)
    requires Extends(s.port, t.port) && t.port.lanes == s.port.lanes[v := t.port.lanes[v]]
    requires PhaseOk(s, t)
    requires |s.port.deviceLog| <= |t.port.deviceLog| <= |s.port.deviceLog| + 1 && s.port.deviceLog <= t.port.deviceLog
    requires LaneReady(cfg, t, v)
    requires |s.port.deviceLog| < |t.port.deviceLog| ==> LogReady(cfg, t, |s.port.deviceLog|)
    ensures OrderOk(cfg, t)
  {
    assert AllGrow(s, t);
    forall u: nat | u < |t.cores| ensures P.CoreOk(cfg.core, t.cores[u]) { assert P.CoreOk(cfg.core, s.cores[u]); }
    forall u: nat | u < |t.cores| ensures LaneReady(cfg, t, u) {
      if u != v {
        if s.port.lanes[u].armed.Some? && Ticked(t.phase, u) { SoundNow(cfg, s, u); }
        LaneKept(cfg, s, t, u);
      }
    }
    forall i: nat | i < |t.port.deviceLog| ensures LogReady(cfg, t, i) {
      if i < |s.port.deviceLog| { LogKept(cfg, s, t, i); }
    }
  }

  lemma ApplyExtends(p: O.Port, v: nat, e: Effect)
    requires v < |p.lanes|
    ensures Extends(p, O.Apply(p, v, e))
  {
  }

  /** A core that passes the drain test after its tick has sent and been answered everything put on its ring. */
  lemma GateDrained(cfg: P.Config, c: P.Core)
    requires P.CoreOk(cfg, c) && P.IsDrained(c) && Sound(c) && !c.dead
    ensures Drained(cfg, c, |P.Streamed(c)|)
  {
    AllAnswered(|c.link.sent|, c.link.answered);
    if !c.halted {
      assert P.Streamed(c) == c.popped;
      assert P.Streamed(c)[..|P.Streamed(c)|] == c.popped;
    }
  }

  /** The new lane and the new device request, when every bell they hold is ready. */
  lemma BellsReady(cfg: Setup, t: Sys, v: nat, l: Lane, e: Effect, d: Doorbell)
    requires v < |t.cores| && v < |t.port.lanes| && t.port.lanes[v] == e.lane && Moves(l, e, d)
    requires forall x {:trigger Ready(cfg, t, v, x)} | x in l.queue :: Ready(cfg, t, v, x)
    requires e.lane.queue != l.queue ==> Ready(cfg, t, v, d)
    ensures forall i {:trigger Ready(cfg, t, v, e.lane.queue[i])} | 0 <= i < |e.lane.queue| ::
        Ready(cfg, t, v, e.lane.queue[i])
  {
    forall i | 0 <= i < |e.lane.queue| ensures Ready(cfg, t, v, e.lane.queue[i]) {
      assert e.lane.queue[i] == d || e.lane.queue[i] in l.queue;
    }
  }

  lemma ExtendsTrans(p: O.Port, q: O.Port, r: O.Port)
    requires Extends(p, q) && Extends(q, r)
    ensures Extends(p, r)
  {
    forall id | id in r.flushOwner ensures id in p.flushOwner || id >= |p.flushLog| {}
  }

  /** An effect that moves no new doorbell: the queue keeps old bells, and what goes to the device is a read, a bell
      that needs no gate, or an old queued one. */
  predicate OldBells(cfg: Setup, v: nat, l: Lane, e: Effect) {
    && e.lane.flushing == l.flushing && e.lines == []
    && (forall i {:trigger e.lane.queue[i]} | 0 <= i < |e.lane.queue| :: e.lane.queue[i] in l.queue)
    && (e.send.Some? && e.send.value.SentBell? ==>
          var d := e.send.value.bell;
          (!d.gated && !d.isAsync && !Gates(cfg.port, v)) || d in l.queue)
  }

  predicate SlotsOk(s: Sys, t: Sys, v: nat, l: Lane)
    requires v < |s.cores| && v < |s.port.lanes|
  {
    && (l.mail.None? || l.mail == s.port.lanes[v].mail)
    && (l.armed == s.port.lanes[v].armed
        || (!Ticked(t.phase, v) && l.armed.Some? && l.armed.value.gated
            && l.armed.value.mark == |P.Streamed(s.cores[v])|))
  }

  predicate PhaseOk(s: Sys, t: Sys) {
    forall u: nat {:trigger Ticked(t.phase, u)} | u < |s.cores| && Ticked(t.phase, u) :: Ticked(s.phase, u)
  }

  lemma EffectLane(cfg: Setup, s: Sys, t: Sys, v: nat, e: Effect)
    requires OrderOk(cfg, s) && v < |s.cores| && t.cores == s.cores && Extends(s.port, t.port) && PhaseOk(s, t)
    requires |t.port.lanes| == |s.port.lanes| && t.port.lanes[v] == e.lane
    requires OldBells(cfg, v, s.port.lanes[v], e) && SlotsOk(s, t, v, e.lane)
    ensures LaneReady(cfg, t, v)
  {
    var l := s.port.lanes[v];
    assert LaneReady(cfg, s, v);
    QueueKept(cfg, s, t, v);
    forall i | 0 <= i < |e.lane.queue| ensures Ready(cfg, t, v, e.lane.queue[i]) { assert e.lane.queue[i] in l.queue; }
    if l.flushing.Some? { FlushKept(cfg.port, s.port, t.port, v, l.flushing.value.bell); }
    if l.armed.Some? && Ticked(t.phase, v) { SoundNow(cfg, s, v); }
  }

  lemma EffectApplied(cfg: Setup, s: Sys, t: Sys, v: nat, base: O.Port, e: Effect)
    requires OrderOk(cfg, s) && v < |s.cores| && Sized(t) && t.cores == s.cores && O.PortOk(t.port) && PhaseOk(s, t)
    requires |base.lanes| == |s.port.lanes| && Extends(s.port, base) && base.deviceLog == s.port.deviceLog
    requires t.port == O.Apply(base, v, e) && t.port.lanes == s.port.lanes[v := e.lane]
    requires OldBells(cfg, v, s.port.lanes[v], e) && SlotsOk(s, t, v, e.lane)
    ensures OrderOk(cfg, t)
  {
    ApplyExtends(base, v, e);
    ExtendsTrans(s.port, base, t.port);
    EffectLane(cfg, s, t, v, e);
    QueueKept(cfg, s, t, v);
    if e.send.Some? && e.send.value.SentBell? {
      var d := e.send.value.bell;
      assert d in s.port.lanes[v].queue ==> Ready(cfg, t, v, d);
    }
    PortStepKeeps(cfg, s, t, v);
  }

  lemma PublishKeeps(cfg: Setup, s: Sys, v: nat, request: A.Request)
    requires SetupOk(cfg) && OrderOk(cfg, s) && Enabled(s, Publish(v, request))
    ensures Inv(cfg, Next(cfg, s, Publish(v, request)))
  {
    var t := Next(cfg, s, Publish(v, request));
    O.StepKeeps(cfg.port, s.port, O.Publish(v, Mail(request, |P.Streamed(s.cores[v])|)));
    assert LaneReady(cfg, s, v) && LaneOk(s.port.lanes[v]);
    QueueKept(cfg, s, t, v);
    PortStepKeeps(cfg, s, t, v);
  }

  lemma PollKeeps(cfg: Setup, s: Sys)
    requires SetupOk(cfg) && OrderOk(cfg, s) && Enabled(s, Poll)
    ensures Inv(cfg, Next(cfg, s, Poll))
  {
    var t, v := Next(cfg, s, Poll), s.phase.next;
    assert LaneReady(cfg, s, v) && LaneOk(s.port.lanes[v]);
    if s.port.lanes[v].mail.Some? {
      O.StepKeeps(cfg.port, s.port, O.TakeMail(v));
      if t.port.fatal.None? { PollTaken(cfg, s, t, v); }
    } else {
      QueueKept(cfg, s, t, v);
      LaneKept(cfg, s, t, v);
      PortStepKeeps(cfg, s, t, v);
    }
  }

  lemma PollTaken(cfg: Setup, s: Sys, t: Sys, v: nat)
    requires SetupOk(cfg) && OrderOk(cfg, s) && Enabled(s, Poll) && v == s.phase.next && s.port.lanes[v].mail.Some?
    requires t == Next(cfg, s, Poll) && t.port.fatal.None? && O.PortOk(t.port)
    ensures OrderOk(cfg, t)
  {
    assert LaneReady(cfg, s, v) && LaneOk(s.port.lanes[v]);
    var m, q := s.port.lanes[v].mail.value, O.Opened(s.port, v);
    O.TakeIsApply(cfg.port, s.port, v);
    var e := Handle(cfg.port, v, q.lanes[v], m, |q.deviceLog|, q.inFlight);
    HandleMoves(cfg.port, v, q.lanes[v], m, |q.deviceLog|, q.inFlight);
    assert t.port.lanes == s.port.lanes[v := e.lane];
    EffectApplied(cfg, s, t, v, q, e);
  }

  lemma GateKeeps(cfg: Setup, s: Sys, v: nat)
    requires SetupOk(cfg) && OrderOk(cfg, s) && Enabled(s, OpenGate(v))
    ensures Inv(cfg, Next(cfg, s, OpenGate(v)))
  {
    var t := Next(cfg, s, OpenGate(v));
    O.StepKeeps(cfg.port, s.port, O.OpenGate(v));
    if t.port.fatal.None? { GateOpened(cfg, s, t, v); }
  }

  /** An armed doorbell whose core passes the drain test has everything before it sent and answered. */
  lemma ArmedDrained(cfg: Setup, s: Sys, v: nat)
    requires OrderOk(cfg, s) && Enabled(s, OpenGate(v))
    ensures s.port.lanes[v].armed.value.gated && Drained(cfg.core, s.cores[v], s.port.lanes[v].armed.value.mark)
  {
    assert LaneReady(cfg, s, v) && P.CoreOk(cfg.core, s.cores[v]);
    GateDrained(cfg.core, s.cores[v]);
  }

  lemma GateOpened(cfg: Setup, s: Sys, t: Sys, v: nat)
    requires SetupOk(cfg) && OrderOk(cfg, s) && Enabled(s, OpenGate(v))
    requires t == Next(cfg, s, OpenGate(v)) && t.port.fatal.None? && O.PortOk(t.port)
    ensures OrderOk(cfg, t)
  {
    ArmedDrained(cfg, s, v);
    var l, at, dev := s.port.lanes[v], |s.port.flushLog|, |s.port.deviceLog|;
    var e := IssueDoorbellFlushes(cfg.port, l, dev, at, s.port.inFlight);
    GateMoves(cfg.port, l, dev, at, s.port.inFlight);
    var d := l.armed.value.(lo := at, hi := at + |e.lines|);
    GateApplied(cfg, s, t, v, e, d);
  }

  lemma GateApplied(cfg: Setup, s: Sys, t: Sys, v: nat, e: Effect, d: Doorbell)
    requires OrderOk(cfg, s) && v < |s.cores| && s.port.lanes[v].armed.Some?
             && Moves(s.port.lanes[v].(armed := None), e, d)
    requires t == s.(port := O.Apply(s.port, v, e)) && O.PortOk(t.port)
    requires d.gated && Drained(cfg.core, s.cores[v], d.mark) && e.lines == PacketLines(cfg.port, d.value)
    requires d.lo == |s.port.flushLog| && d.hi == d.lo + |e.lines|
    requires if e.lines == [] then e.lane.flushing == s.port.lanes[v].flushing
             else e.send.None? && e.lane.queue == s.port.lanes[v].queue
                  && e.lane.flushing == Some(FlushCtx(|e.lines|, d))
    ensures OrderOk(cfg, t)
  {
    var l := s.port.lanes[v];
    assert LaneReady(cfg, s, v) && LaneOk(l);
    ApplyExtends(s.port, v, e);
    assert t.port.flushLog[d.lo..d.hi] == O.Flushes(v, e.lines);
    assert FlushSent(cfg.port, t.port, v, d);
    QueueKept(cfg, s, t, v);
    BellsReady(cfg, t, v, l.(armed := None), e, d);
    PortStepKeeps(cfg, s, t, v);
  }

  lemma FlushReplyKeeps(cfg: Setup, s: Sys, id: nat)
    requires SetupOk(cfg) && OrderOk(cfg, s) && Enabled(s, PortReply(O.FlushReply(id)))
    ensures Inv(cfg, Next(cfg, s, PortReply(O.FlushReply(id))))
  {
    var t, v := Next(cfg, s, PortReply(O.FlushReply(id))), s.port.flushOwner[id];
    O.FlushReplyKeeps(cfg.port, s.port, id);
    O.DropFlushTables(s.port, id);
    assert LaneOk(s.port.lanes[v]);
    var l := s.port.lanes[v];
    FlushMoves(l, id, |s.port.deviceLog|, s.port.inFlight);
    FlushApplied(cfg, s, t, v, O.DropFlush(s.port, id), FlushAnswered(l, id, |s.port.deviceLog|, s.port.inFlight));
  }

  lemma FlushApplied(cfg: Setup, s: Sys, t: Sys, v: nat, base: O.Port, e: Effect)
    requires OrderOk(cfg, s) && v < |s.cores| && s.port.lanes[v].flushing.Some?
    requires Moves(s.port.lanes[v], e, s.port.lanes[v].flushing.value.bell) && e.lines == []
    requires |base.lanes| == |s.port.lanes| && Extends(s.port, base) && base.deviceLog == s.port.deviceLog
    requires t == s.(port := O.Apply(base, v, e)) && O.PortOk(t.port) && t.port.lanes == s.port.lanes[v := e.lane]
    requires base.flushLog == s.port.flushLog
    requires e.lane.flushing.None? ||
             (e.lane.queue == s.port.lanes[v].queue && e.send.None?
              && e.lane.flushing.value.bell == s.port.lanes[v].flushing.value.bell)
    ensures OrderOk(cfg, t)
  {
    var l := s.port.lanes[v];
    var d := l.flushing.value.bell;
    assert LaneReady(cfg, s, v) && LaneOk(l);
    ApplyExtends(base, v, e);
    FlushKept(cfg.port, s.port, t.port, v, d);
    if e.lane.flushing.None? { AllFlushed(cfg, t, v, d); }
    QueueKept(cfg, s, t, v);
    BellsReady(cfg, t, v, l, e, d);
    PortStepKeeps(cfg, s, t, v);
  }

  /** When a lane's flush context is gone, every flush of its doorbell has been answered. */
  lemma AllFlushed(cfg: Setup, t: Sys, v: nat, d: Doorbell)
    requires O.PortOk(t.port) && v < |t.port.lanes| && t.port.lanes[v].flushing.None?
             && FlushSent(cfg.port, t.port, v, d)
    ensures FlushDone(cfg.port, t.port, v, d)
  {
    assert LaneOk(t.port.lanes[v]);
    forall id | d.lo <= id < d.hi ensures id !in t.port.flushOwner {
      assert t.port.flushLog[d.lo..d.hi][id - d.lo].vcpu == v;
      assert id in t.port.flushOwner ==> O.FlushOk(t.port, id);
    }
  }

  lemma AsyncReplyKeeps(cfg: Setup, s: Sys, id: nat, value: nat)
    requires SetupOk(cfg) && OrderOk(cfg, s) && Enabled(s, PortReply(O.DeviceReply(id, value)))
             && s.port.pending[id].isAsync
    ensures Inv(cfg, Next(cfg, s, PortReply(O.DeviceReply(id, value))))
  {
    var t, v := Next(cfg, s, PortReply(O.DeviceReply(id, value))), s.port.pending[id].vcpu;
    O.AsyncReplyKeeps(cfg.port, s.port, id, value);
    AsyncMoves(s.port.lanes[v], |s.port.deviceLog|, s.port.inFlight);
    EffectApplied(cfg, s, t, v, O.DropDevice(s.port, id),
                  AsyncAnswered(s.port.lanes[v], |s.port.deviceLog|, s.port.inFlight));
  }

  lemma SyncReplyKeeps(cfg: Setup, s: Sys, id: nat, value: nat)
    requires SetupOk(cfg) && OrderOk(cfg, s) && Enabled(s, PortReply(O.DeviceReply(id, value)))
             && !s.port.pending[id].isAsync
    ensures Inv(cfg, Next(cfg, s, PortReply(O.DeviceReply(id, value))))
  {
    var t, v := Next(cfg, s, PortReply(O.DeviceReply(id, value))), s.port.pending[id].vcpu;
    O.SyncReplyKeeps(cfg.port, s.port, id, value);
    EffectApplied(cfg, s, t, v, O.DropDevice(s.port, id),
                  SyncAnswered(s.port.lanes[v], O.ReplyValue(s.port.deviceLog, id, value), s.port.inFlight));
  }

  lemma ElsewhereReplyKeeps(cfg: Setup, s: Sys, v: nat, value: nat)
    requires SetupOk(cfg) && OrderOk(cfg, s) && Enabled(s, PortReply(O.ElsewhereReply(v, value)))
    ensures Inv(cfg, Next(cfg, s, PortReply(O.ElsewhereReply(v, value))))
  {
    var t := Next(cfg, s, PortReply(O.ElsewhereReply(v, value)));
    O.ElsewhereReplyKeeps(cfg.port, s.port, v, value);
    assert LaneOk(s.port.lanes[v]);
    EffectApplied(cfg, s, t, v, s.port, Post(Quiet(s.port.lanes[v].(elsewhere := false), s.port.inFlight), value));
  }

  lemma StepKeeps(cfg: Setup, s: Sys, step: Step)
    requires SetupOk(cfg) && OrderOk(cfg, s) && Enabled(s, step)
    ensures Inv(cfg, Next(cfg, s, step))
  {
    match step
    case Put(v, cmd) => PutKeeps(cfg, s, v, cmd);
    case Publish(v, request) => PublishKeeps(cfg, s, v, request);
    case Poll => PollKeeps(cfg, s);
    case TickCore => TickCoreKeeps(cfg, s);
    case OpenGate(v) => GateKeeps(cfg, s, v);
    case EndTick => EndTickKeeps(cfg, s);
    case MemReply(v, id) => MemReplyKeeps(cfg, s, v, id);
    case PortReply(r) =>
      if r.FlushReply? { FlushReplyKeeps(cfg, s, r.id); }
      else if r.DeviceReply? {
        if s.port.pending[r.id].isAsync {
          AsyncReplyKeeps(cfg, s, r.id, r.value);
        } else {
          SyncReplyKeeps(cfg, s, r.id, r.value);
        }
      }
      else { ElsewhereReplyKeeps(cfg, s, r.v, r.value); }
  }

  // ---------------------------------------------------------------- whole runs

  predicate Init(s: Sys) {
    && Sized(s) && s.phase == Polling(0) && O.Init(s.port)
    && forall v {:trigger s.cores[v]} | 0 <= v < |s.cores| :: P.Fresh(s.cores[v])
  }

  lemma InitOk(cfg: Setup, s: Sys)
    requires SetupOk(cfg) && Init(s)
    ensures Inv(cfg, s)
  {
    O.InitOk(s.port);
    forall v: nat | v < |s.cores| ensures P.CoreOk(cfg.core, s.cores[v]) && LaneReady(cfg, s, v) {
      assert P.Fresh(s.cores[v]);
      assert O.IdleLane(s.port.lanes[v]);
    }
  }

  predicate Runs(cfg: Setup, s: Sys, steps: seq<Step>)
    requires P.ConfigOk(cfg.core)
    decreases |steps|
  {
    steps == [] || (Enabled(s, steps[0]) && Runs(cfg, Next(cfg, s, steps[0]), steps[1..]))
  }

  function After(cfg: Setup, s: Sys, steps: seq<Step>): Sys
    requires P.ConfigOk(cfg.core) && Runs(cfg, s, steps)
    decreases |steps|
  {
    if steps == [] then s else After(cfg, Next(cfg, s, steps[0]), steps[1..])
  }

  lemma {:induction false} RunKeeps(cfg: Setup, s: Sys, steps: seq<Step>)
    requires SetupOk(cfg) && Inv(cfg, s) && Runs(cfg, s, steps)
    ensures Inv(cfg, After(cfg, s, steps))
    decreases |steps|
  {
    if steps != [] {
      StepKeeps(cfg, s, steps[0]);
      RunKeeps(cfg, Next(cfg, s, steps[0]), steps[1..]);
    }
  }

  /** What must have happened before a doorbell of vCPU v may be at the device. */
  ghost predicate InOrder(cfg: Setup, s: Sys, v: nat, d: Doorbell)
    requires v < |s.cores|
  {
    && (s.cores[v].halted || Done(cfg.core, s.cores[v], d.mark))
    && FlushDone(cfg.port, s.port, v, d)
  }

  /** End-to-end doorbell order. In every interleaving of guests, ticks, memory and device, as soon as a doorbell is
      at the device, every command its vCPU had put on the ring when it rang has had all its requests sent and
      answered (unless the core has halted) and exactly its packet's lines have been flushed and the flushes answered.
      This covers every async doorbell, and every synchronous one when flushing is on and the vCPU has a cache
      interface. No run ends in a nested doorbell, an unexpected flush response or an unexpected guest response. */
  lemma DoorbellReachesDeviceInOrder(cfg: Setup, s: Sys, steps: seq<Step>)
    requires SetupOk(cfg) && Init(s) && Runs(cfg, s, steps)
    ensures (var t := After(cfg, s, steps);
             && !PortFault(t.port.fatal)
             && (t.port.fatal.None? ==>
                   forall i {:trigger t.port.deviceLog[i]} | 0 <= i < |t.port.deviceLog|
                         && t.port.deviceLog[i].what.SentBell? ::
                     var v, d := t.port.deviceLog[i].vcpu, t.port.deviceLog[i].what.bell;
                     v < |t.cores| && (d.isAsync || Gates(cfg.port, v) ==> InOrder(cfg, t, v, d))))
  {
    InitOk(cfg, s);
    RunKeeps(cfg, s, steps);
    var t := After(cfg, s, steps);
    if t.port.fatal.None? {
      forall i | 0 <= i < |t.port.deviceLog| && t.port.deviceLog[i].what.SentBell?
        ensures (var v, d := t.port.deviceLog[i].vcpu, t.port.deviceLog[i].what.bell;
                 v < |t.cores| && (d.isAsync || Gates(cfg.port, v) ==> InOrder(cfg, t, v, d)))
      {
        assert LogReady(cfg, t, i);
      }
    }
  }
}
