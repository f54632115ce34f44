/** All lanes of the accelerator port together: the tables that route responses back to their lane, the single
    async engine, and what every run of the port keeps. */
module Offload {
  import opened AcceleratorPort

  datatype Owner = Owner(vcpu: nat, isAsync: bool)
  datatype Flush = Flush(vcpu: nat, line: nat)
  datatype Log = Log(vcpu: nat, what: Sent)
  datatype Reply = Reply(vcpu: nat, value: nat)

  /** `flushLog` and `deviceLog` list what was sent: the id of a request is its index; `replies` lists the responses
      posted to guests. */
  datatype Port = Port(lanes: seq<Lane>, pending: map<nat, Owner>, flushOwner: map<nat, nat>, flushLog: seq<Flush>,
                       deviceLog: seq<Log>, replies: seq<Reply>, inFlight: nat, asyncVcpu: Option<nat>,
                       fatal: Option<Fatal>)

  datatype Step =
    | Publish(v: nat, mail: Mail)
    | TakeMail(v: nat)
    | OpenGate(v: nat)
    | FlushReply(id: nat)
    | DeviceReply(id: nat, value: nat)
    | ElsewhereReply(v: nat, value: nat)

  function Flushes(v: nat, lines: seq<nat>): (r: seq<Flush>)
    ensures |r| == |lines| && forall i {:trigger r[i]} | 0 <= i < |r| :: r[i] == Flush(v, lines[i])
  {
    seq(|lines|, i requires 0 <= i < |lines| => Flush(v, lines[i]))
  }

  function IsAsyncSend(s: Sent): bool { s.SentBell? && s.bell.isAsync }

  /** Carries out an effect for lane v. */
  function Apply(p: Port, v: nat, e: Effect): (r: Port)
    requires v < |p.lanes|
    ensures |r.lanes| == |p.lanes|
  {
    p.(lanes := p.lanes[v := e.lane],
       pending := if e.send.None? then p.pending else p.pending[|p.deviceLog| := Owner(v, IsAsyncSend(e.send.value))],
       flushOwner := p.flushOwner + map id | id in Ids(|p.flushLog|, |e.lines|) :: v,
       flushLog := p.flushLog + Flushes(v, e.lines),
       deviceLog := if e.send.None? then p.deviceLog else p.deviceLog + [Log(v, e.send.value)],
       replies := if e.reply.None? then p.replies else p.replies + [Reply(v, e.reply.value)],
       inFlight := e.inFlight, fatal := e.fatal)
  }

  predicate Enabled(p: Port, step: Step) {
    && p.fatal.None?
    && match step {
         case Publish(v, _) => v < |p.lanes| && !p.lanes[v].waiting
         case TakeMail(v) => v < |p.lanes| && p.lanes[v].mail.Some?
         case OpenGate(v) => v < |p.lanes| && p.lanes[v].armed.Some?
         case FlushReply(id) => id in p.flushOwner && p.flushOwner[id] < |p.lanes|
         case DeviceReply(id, _) => id in p.pending && p.pending[id].vcpu < |p.lanes|
         case ElsewhereReply(v, _) => v < |p.lanes| && p.lanes[v].elsewhere
       }
  }

  function TakeNext(cfg: Config, p: Port, v: nat): Port
    requires v < |p.lanes| && p.lanes[v].mail.Some?
  {
    var m := p.lanes[v].mail.value;
    if IsAsync(m.request) && p.asyncVcpu.Some? && p.asyncVcpu.value != v then p.(fatal := Some(SecondVcpu))
    else
      var q := if IsAsync(m.request) then p.(asyncVcpu := Some(v)) else p;
      Apply(q, v, Handle(cfg, v, p.lanes[v].(mail := None), m, |p.deviceLog|, p.inFlight))
  }

  function DropFlush(p: Port, id: nat): Port
    requires id in p.flushOwner && p.flushOwner[id] < |p.lanes|
  {
    var v := p.flushOwner[id];
    p.(flushOwner := p.flushOwner - {id}, lanes := p.lanes[v := p.lanes[v].(flushIds := p.lanes[v].flushIds - {id})])
  }

  function DropDevice(p: Port, id: nat): Port
    requires id in p.pending && p.pending[id].vcpu < |p.lanes|
  {
    var v := p.pending[id].vcpu;
    p.(pending := p.pending - {id},
       lanes := p.lanes[v := if p.pending[id].isAsync then p.lanes[v].(asyncId := None)
                             else p.lanes[v].(syncId := None)])
  }

  /** What a device response means to the guest: the data of a read, and zero for a write. */
  function ReplyValue(log: seq<Log>, id: nat, value: nat): nat {
    if id < |log| && log[id].what.SentRead? then value else 0
  }

  function Next(cfg: Config, p: Port, step: Step): (r: Port)
    requires Enabled(p, step)
    ensures |r.lanes| == |p.lanes|
  {
    match step
    case Publish(v, m) => p.(lanes := p.lanes[v := p.lanes[v].(waiting := true, mail := Some(m))])
    case TakeMail(v) => TakeNext(cfg, p, v)
    case OpenGate(v) => Apply(p, v, IssueDoorbellFlushes(cfg, p.lanes[v], |p.deviceLog|, |p.flushLog|, p.inFlight))
    case FlushReply(id) =>
      var v := p.flushOwner[id];
      Apply(DropFlush(p, id), v, FlushAnswered(p.lanes[v], id, |p.deviceLog|, p.inFlight))
    case DeviceReply(id, value) =>
      var v := p.pending[id].vcpu;
      Apply(DropDevice(p, id), v,
            if p.pending[id].isAsync then AsyncAnswered(p.lanes[v], |p.deviceLog|, p.inFlight)
            else SyncAnswered(p.lanes[v], ReplyValue(p.deviceLog, id, value), p.inFlight))
    case ElsewhereReply(v, value) =>
      Apply(p, v, Post(Quiet(p.lanes[v].(elsewhere := false), p.inFlight), value))
  }

  // ---------------------------------------------------------------- the tables agree with the lanes

  predicate PendingOk(p: Port, id: nat)
    requires id in p.pending
  {
    var o := p.pending[id];
    && id < |p.deviceLog| && o.vcpu < |p.lanes|
    && (if o.isAsync then p.lanes[o.vcpu].asyncId else p.lanes[o.vcpu].syncId) == Some(id)
  }

  predicate FlushOk(p: Port, id: nat)
    requires id in p.flushOwner
  {
    var v := p.flushOwner[id];
    id < |p.flushLog| && v < |p.lanes| && id in p.lanes[v].flushIds && p.flushLog[id].vcpu == v
  }

  predicate LaneWired(p: Port, v: nat)
    requires v < |p.lanes|
  {
    var l := p.lanes[v];
    && (l.syncId.Some? ==> l.syncId.value in p.pending && p.pending[l.syncId.value] == Owner(v, false))
    && (l.asyncId.Some? ==> l.asyncId.value in p.pending && p.pending[l.asyncId.value] == Owner(v, true))
    && (forall id | id in l.flushIds :: id in p.flushOwner && p.flushOwner[id] == v)
  }

  ghost predicate TablesOk(p: Port) {
    && (forall id {:trigger PendingOk(p, id)} | id in p.pending :: PendingOk(p, id))
    && (forall id {:trigger FlushOk(p, id)} | id in p.flushOwner :: FlushOk(p, id))
    && (forall v: nat {:trigger LaneWired(p, v)} | v < |p.lanes| :: LaneWired(p, v))
  }

  lemma ApplyTables(p: Port, v: nat, e: Effect)
    requires v < |p.lanes| && TablesOk(p) && Wired(p.lanes[v], e, |p.deviceLog|, |p.flushLog|)
    ensures TablesOk(Apply(p, v, e))
  {
    var r := Apply(p, v, e);
    forall id | id in r.pending ensures PendingOk(r, id) { if id in p.pending { assert PendingOk(p, id); } }
    forall id | id in r.flushOwner ensures FlushOk(r, id) { ApplyFlushOk(p, v, e, id); }
    forall u: nat | u < |r.lanes| ensures LaneWired(r, u) { ApplyLaneWired(p, v, e, u); }
  }

  lemma ApplyFlushOk(p: Port, v: nat, e: Effect, id: nat)
    requires v < |p.lanes| && TablesOk(p) && Wired(p.lanes[v], e, |p.deviceLog|, |p.flushLog|)
             && id in Apply(p, v, e).flushOwner
    ensures FlushOk(Apply(p, v, e), id)
  {
    var added := Ids(|p.flushLog|, |e.lines|);
    if id !in added { assert FlushOk(p, id); }
  }

  lemma ApplyLaneWired(p: Port, v: nat, e: Effect, u: nat)
    requires v < |p.lanes| && TablesOk(p) && Wired(p.lanes[v], e, |p.deviceLog|, |p.flushLog|) && u < |p.lanes|
    ensures LaneWired(Apply(p, v, e), u)
  {
    var r := Apply(p, v, e);
    assert LaneWired(p, u);
    var l := p.lanes[u];
    if l.syncId.Some? { assert PendingOk(p, l.syncId.value); }
    if l.asyncId.Some? { assert PendingOk(p, l.asyncId.value); }
    forall id | id in r.lanes[u].flushIds ensures id in r.flushOwner && r.flushOwner[id] == u {
      if id in l.flushIds { assert FlushOk(p, id); }
    }
  }

  lemma DropFlushTables(p: Port, id: nat)
    requires TablesOk(p) && id in p.flushOwner && p.flushOwner[id] < |p.lanes|
    ensures TablesOk(DropFlush(p, id)) && id in p.lanes[p.flushOwner[id]].flushIds
  {
    var r := DropFlush(p, id);
    assert FlushOk(p, id);
    forall x | x in r.pending ensures PendingOk(r, x) { assert PendingOk(p, x); }
    forall x | x in r.flushOwner ensures FlushOk(r, x) { assert FlushOk(p, x); }
    forall u: nat | u < |r.lanes| ensures LaneWired(r, u) { assert LaneWired(p, u); }
  }

  lemma DropDeviceTables(p: Port, id: nat)
    requires TablesOk(p) && id in p.pending && p.pending[id].vcpu < |p.lanes|
    ensures TablesOk(DropDevice(p, id))
    ensures (var l := p.lanes[p.pending[id].vcpu]; (if p.pending[id].isAsync then l.asyncId else l.syncId) == Some(id))
  {
    var r := DropDevice(p, id);
    assert PendingOk(p, id);
    forall x | x in r.pending ensures PendingOk(r, x) { assert PendingOk(p, x); }
    forall x | x in r.flushOwner ensures FlushOk(r, x) { assert FlushOk(p, x); }
    forall u: nat | u < |r.lanes| ensures LaneWired(r, u) {
      assert LaneWired(p, u);
    }
  }

  // ---------------------------------------------------------------- the async engine

  predicate NoAsync(l: Lane) { l.submitted == 0 }

  /** One vCPU at most uses the engine. */
  ghost predicate OwnerOk(p: Port) {
    && (forall v: nat {:trigger NoAsync(p.lanes[v])} | v < |p.lanes| && p.asyncVcpu != Some(v) :: NoAsync(p.lanes[v]))
    && (p.asyncVcpu.Some? ==> p.asyncVcpu.value < |p.lanes|)
  }

  ghost predicate LanesOk(p: Port) { forall v: nat {:trigger p.lanes[v]} | v < |p.lanes| :: LaneOk(p.lanes[v]) }

  ghost predicate PortOk(p: Port) { LanesOk(p) && TablesOk(p) && OwnerOk(p) }

  /** A stopped port stopped for a refusal, not for a fault of its own. */
  ghost predicate Inv(p: Port) { if p.fatal.None? then PortOk(p) else !PortFault(p.fatal) }

  /** Applying a lane's effect to the whole port. `p` is the port with the answered request already dropped. */
  lemma ApplyKeeps(p: Port, v: nat, e: Effect)
    requires v < |p.lanes| && TablesOk(p) && OwnerOk(p)
    requires forall u: nat {:trigger p.lanes[u]} | u < |p.lanes| && u != v :: LaneOk(p.lanes[u])
    requires !PortFault(e.fatal)
    requires e.fatal.None? ==> LaneOk(e.lane) && Wired(p.lanes[v], e, |p.deviceLog|, |p.flushLog|)
    requires e.fatal.None? && e.lane.submitted != p.lanes[v].submitted ==> p.asyncVcpu == Some(v)
    ensures Inv(Apply(p, v, e))
  {
    if e.fatal.None? {
      ApplyTables(p, v, e);
      var r := Apply(p, v, e);
      forall u: nat | u < |r.lanes| ensures LaneOk(r.lanes[u]) { if u != v { assert LaneOk(p.lanes[u]); } }
      forall u: nat | u < |r.lanes| && r.asyncVcpu != Some(u) ensures NoAsync(r.lanes[u]) {
        assert NoAsync(p.lanes[u]);
      }
    }
  }

  /** The port just before a lane's mail is handled: the mail is out of the slot, the engine claimed. */
  function Opened(p: Port, v: nat): Port
    requires v < |p.lanes| && p.lanes[v].mail.Some?
  {
    var l := p.lanes[v].(mail := None);
    p.(lanes := p.lanes[v := l], asyncVcpu := if IsAsync(p.lanes[v].mail.value.request) then Some(v) else p.asyncVcpu)
  }

  lemma OpenedOk(p: Port, v: nat)
    requires PortOk(p) && Enabled(p, TakeMail(v))
    requires IsAsync(p.lanes[v].mail.value.request) ==> p.asyncVcpu.None? || p.asyncVcpu == Some(v)
    ensures (var q := Opened(p, v);
             && TablesOk(q) && OwnerOk(q)
             && forall u: nat {:trigger q.lanes[u]} | u < |q.lanes| && u != v :: LaneOk(q.lanes[u]))
  {
    var q := Opened(p, v);
    assert LaneOk(p.lanes[v]);
    ClearedTables(p, p.(asyncVcpu := q.asyncVcpu), v, q.lanes[v]);
    if p.asyncVcpu != Some(v) { assert NoAsync(p.lanes[v]); }
    forall u: nat | u < |q.lanes| && q.asyncVcpu != Some(u) ensures NoAsync(q.lanes[u]) { assert NoAsync(p.lanes[u]); }
    forall u: nat | u < |q.lanes| && u != v ensures LaneOk(q.lanes[u]) { assert LaneOk(p.lanes[u]); }
  }

  lemma TakeIsApply(cfg: Config, p: Port, v: nat)
    requires v < |p.lanes| && p.lanes[v].mail.Some?
    requires IsAsync(p.lanes[v].mail.value.request) ==> p.asyncVcpu.None? || p.asyncVcpu == Some(v)
    ensures (var q := Opened(p, v);
             TakeNext(cfg, p, v) == Apply(q, v, Handle(cfg, v, q.lanes[v], p.lanes[v].mail.value, |q.deviceLog|,
                                                       q.inFlight)))
  {
    var m, q := p.lanes[v].mail.value, Opened(p, v);
    var e := Handle(cfg, v, q.lanes[v], m, |p.deviceLog|, p.inFlight);
    assert p.lanes[v := e.lane] == q.lanes[v := e.lane];
  }

  lemma TakeKeeps(cfg: Config, p: Port, v: nat)
    requires PortOk(p) && Enabled(p, TakeMail(v))
    ensures Inv(TakeNext(cfg, p, v))
  {
    var m, q := p.lanes[v].mail.value, Opened(p, v);
    if !(IsAsync(m.request) && p.asyncVcpu.Some? && p.asyncVcpu.value != v) {
      OpenedOk(p, v);
      TakeIsApply(cfg, p, v);
      assert LaneOk(p.lanes[v]);
      MailTaken(p.lanes[v]);
      HandleCounts(cfg, v, q.lanes[v], m, |q.deviceLog|, q.inFlight);
      HandleKeeps(cfg, v, q.lanes[v], m, |q.deviceLog|, |q.flushLog|, q.inFlight);
      ApplyKeeps(q, v, Handle(cfg, v, q.lanes[v], m, |q.deviceLog|, q.inFlight));
    }
  }

  /** The tables do not look at mail, wait flags or the async owner. */
  lemma ClearedTables(p: Port, q: Port, v: nat, l: Lane)
    requires TablesOk(p) && v < |p.lanes| && q == p.(asyncVcpu := q.asyncVcpu)
    requires l.syncId == p.lanes[v].syncId && l.asyncId == p.lanes[v].asyncId && l.flushIds == p.lanes[v].flushIds
    ensures TablesOk(q.(lanes := q.lanes[v := l]))
  {
    var r := q.(lanes := q.lanes[v := l]);
    forall x | x in r.pending ensures PendingOk(r, x) { assert PendingOk(p, x); }
    forall x | x in r.flushOwner ensures FlushOk(r, x) { assert FlushOk(p, x); }
    forall u: nat | u < |r.lanes| ensures LaneWired(r, u) { assert LaneWired(p, u); }
  }

  lemma PublishKeeps(cfg: Config, p: Port, v: nat, m: Mail)
    requires PortOk(p) && Enabled(p, Publish(v, m))
    ensures Inv(Next(cfg, p, Publish(v, m)))
  {
    var l := p.lanes[v].(waiting := true, mail := Some(m));
    var r := Next(cfg, p, Publish(v, m));
    assert LaneOk(p.lanes[v]);
    ClearedTables(p, p, v, l);
    assert r == p.(lanes := p.lanes[v := l]);
    forall u: nat | u < |r.lanes| ensures LaneOk(r.lanes[u]) { if u != v { assert LaneOk(p.lanes[u]); } }
    forall u: nat | u < |r.lanes| && r.asyncVcpu != Some(u) ensures NoAsync(r.lanes[u]) { assert NoAsync(p.lanes[u]); }
  }

  lemma GateKeeps(cfg: Config, p: Port, v: nat)
    requires PortOk(p) && Enabled(p, OpenGate(v))
    ensures Inv(Next(cfg, p, OpenGate(v)))
  {
    assert LaneOk(p.lanes[v]);
    ProcessKeeps(cfg, p.lanes[v], |p.deviceLog|, |p.flushLog|, p.inFlight);
    ApplyKeeps(p, v, IssueDoorbellFlushes(cfg, p.lanes[v], |p.deviceLog|, |p.flushLog|, p.inFlight));
  }

  lemma FlushReplyKeeps(cfg: Config, p: Port, id: nat)
    requires PortOk(p) && Enabled(p, FlushReply(id))
    ensures Inv(Next(cfg, p, FlushReply(id))) && Next(cfg, p, FlushReply(id)).fatal.None?
  {
    var v := p.flushOwner[id];
    assert LaneOk(p.lanes[v]);
    DropFlushTables(p, id);
    var base := DropFlush(p, id);
    FlushAnsweredKeeps(cfg, p.lanes[v], id, |p.deviceLog|, |p.flushLog|, p.inFlight);
    forall u: nat | u < |base.lanes| && base.asyncVcpu != Some(u) ensures NoAsync(base.lanes[u]) {
      assert NoAsync(p.lanes[u]);
    }
    ApplyKeeps(base, v, FlushAnswered(p.lanes[v], id, |p.deviceLog|, p.inFlight));
  }

  lemma SyncReplyKeeps(cfg: Config, p: Port, id: nat, value: nat)
    requires PortOk(p) && Enabled(p, DeviceReply(id, value)) && !p.pending[id].isAsync
    ensures Inv(Next(cfg, p, DeviceReply(id, value))) && Next(cfg, p, DeviceReply(id, value)).fatal.None?
  {
    var v := p.pending[id].vcpu;
    assert LaneOk(p.lanes[v]);
    DropDeviceTables(p, id);
    var base := DropDevice(p, id);
    SyncAnsweredKeeps(cfg, p.lanes[v], ReplyValue(p.deviceLog, id, value), |p.deviceLog|, |p.flushLog|, p.inFlight);
    forall u: nat | u < |base.lanes| && base.asyncVcpu != Some(u) ensures NoAsync(base.lanes[u]) {
      assert NoAsync(p.lanes[u]);
    }
    ApplyKeeps(base, v, SyncAnswered(p.lanes[v], ReplyValue(p.deviceLog, id, value), p.inFlight));
  }

  lemma AsyncReplyKeeps(cfg: Config, p: Port, id: nat, value: nat)
    requires PortOk(p) && Enabled(p, DeviceReply(id, value)) && p.pending[id].isAsync
    ensures Inv(Next(cfg, p, DeviceReply(id, value))) && Next(cfg, p, DeviceReply(id, value)).fatal.None?
  {
    var v := p.pending[id].vcpu;
    assert LaneOk(p.lanes[v]);
    DropDeviceTables(p, id);
    var base := DropDevice(p, id);
    AsyncAnsweredKeeps(p.lanes[v], |p.deviceLog|, |p.flushLog|, p.inFlight);
    forall u: nat | u < |base.lanes| && base.asyncVcpu != Some(u) ensures NoAsync(base.lanes[u]) {
      assert NoAsync(p.lanes[u]);
    }
    ApplyKeeps(base, v, AsyncAnswered(p.lanes[v], |p.deviceLog|, p.inFlight));
  }

  lemma ElsewhereReplyKeeps(cfg: Config, p: Port, v: nat, value: nat)
    requires PortOk(p) && Enabled(p, ElsewhereReply(v, value))
    ensures Inv(Next(cfg, p, ElsewhereReply(v, value)))
  {
    assert LaneOk(p.lanes[v]);
    ElsewhereKeeps(cfg, p.lanes[v], value, |p.deviceLog|, |p.flushLog|, p.inFlight);
    ApplyKeeps(p, v, Post(Quiet(p.lanes[v].(elsewhere := false), p.inFlight), value));
  }

  lemma StepKeeps(cfg: Config, p: Port, step: Step)
    requires PortOk(p) && Enabled(p, step)
    ensures Inv(Next(cfg, p, step))
  {
    match step
    case Publish(v, m) => PublishKeeps(cfg, p, v, m);
    case TakeMail(v) => TakeKeeps(cfg, p, v);
    case OpenGate(v) => GateKeeps(cfg, p, v);
    case FlushReply(id) => FlushReplyKeeps(cfg, p, id);
    case DeviceReply(id, value) =>
      if p.pending[id].isAsync { AsyncReplyKeeps(cfg, p, id, value); } else { SyncReplyKeeps(cfg, p, id, value); }
    case ElsewhereReply(v, value) => ElsewhereReplyKeeps(cfg, p, v, value);
  }

  // ---------------------------------------------------------------- whole runs

  predicate Init(p: Port) {
    && p.pending == map[] && p.flushOwner == map[] && p.flushLog == [] && p.deviceLog == [] && p.replies == []
    && p.inFlight == 0 && p.asyncVcpu.None? && p.fatal.None?
    && forall v {:trigger IdleLane(p.lanes[v])} | 0 <= v < |p.lanes| :: IdleLane(p.lanes[v])
  }

  predicate IdleLane(l: Lane) {
    && !l.waiting && l.mail.None? && !l.elsewhere && l.armed.None? && l.flushing.None? && l.flushIds == {}
    && l.syncId.None? && l.asyncId.None? && !l.busy && |l.queue| == 0
    && l.submitted == l.completed == 0 && |l.sent| == 0 && l.acked == 0
  }

  lemma IdleLaneOk(l: Lane)
    requires IdleLane(l)
    ensures LaneOk(l) && NoAsync(l)
  {
  }

  lemma InitOk(p: Port)
    requires Init(p)
    ensures PortOk(p)
  {
    forall v: nat | v < |p.lanes| ensures LaneWired(p, v) && NoAsync(p.lanes[v]) && LaneOk(p.lanes[v]) {
      assert IdleLane(p.lanes[v]);
      IdleLaneOk(p.lanes[v]);
    }
  }

  predicate Runs(cfg: Config, p: Port, steps: seq<Step>)
    decreases |steps|
  {
    steps == [] || (Enabled(p, steps[0]) && Runs(cfg, Next(cfg, p, steps[0]), steps[1..]))
  }

  function After(cfg: Config, p: Port, steps: seq<Step>): Port
    requires Runs(cfg, p, steps)
    decreases |steps|
  {
    if steps == [] then p else After(cfg, Next(cfg, p, steps[0]), steps[1..])
  }

  lemma {:induction false} RunKeeps(cfg: Config, p: Port, steps: seq<Step>)
    requires Inv(p) && Runs(cfg, p, steps)
    ensures Inv(After(cfg, p, steps))
    decreases |steps|
  {
    if steps != [] {
      StepKeeps(cfg, p, steps[0]);
      RunKeeps(cfg, Next(cfg, p, steps[0]), steps[1..]);
    }
  }

  /** What a lane's posted operations look like at any time. */
  predicate Conserved(l: Lane) {
    && l.submitted - l.completed == Bit(ArmedAsync(l)) + Bit(FlushingAsync(l)) + Bit(l.busy) + |l.queue|
    && (l.queue != [] ==> l.busy)
    && |l.sent| == l.completed + Bit(l.busy) && SentInOrder(l.sent)
    && l.acked == l.submitted - Bit(ArmedAsync(l)) - Bit(FlushingAsync(l))
  }

  lemma LaneFacts(p: Port, v: nat)
    requires PortOk(p) && v < |p.lanes|
    ensures Conserved(p.lanes[v]) && (p.asyncVcpu != Some(v) ==> NoAsync(p.lanes[v]))
  {
    assert LaneOk(p.lanes[v]);
    if p.asyncVcpu != Some(v) { assert NoAsync(p.lanes[v]); }
  }

  /** In every run of the port, whatever the depth, whatever the guests ask and in whatever order flushes and the
      device answer: no nested doorbell, no unexpected flush response and no response to a guest that is not waiting;
      and for each vCPU the posted operations are conserved (armed, flushing, running, queued), a queue means one is
      running, they reach the device one at a time in submit order, each submit is acknowledged once and only after
      its flush, and only the vCPU that owns the engine has any. */
  lemma OffloadSafety(cfg: Config, p: Port, steps: seq<Step>)
    requires Init(p) && Runs(cfg, p, steps)
    ensures (var t := After(cfg, p, steps);
             && !PortFault(t.fatal)
             && (t.fatal.None? ==>
                   forall v {:trigger Conserved(t.lanes[v])} | 0 <= v < |t.lanes| ::
                     Conserved(t.lanes[v]) && (t.asyncVcpu != Some(v) ==> NoAsync(t.lanes[v]))))
  {
    InitOk(p);
    RunKeeps(cfg, p, steps);
    var t := After(cfg, p, steps);
    if t.fatal.None? {
      forall v | 0 <= v < |t.lanes| ensures Conserved(t.lanes[v]) && (t.asyncVcpu != Some(v) ==> NoAsync(t.lanes[v])) {
        LaneFacts(t, v);
      }
    }
  }
}
