/** The accelerator port as an object: its tables and queues are updated in place, and its loops are those of the
    source, proved against Offload. */
module BalarPortObject {
  import opened AcceleratorPort
  import opened Offload

  /** What `process` does: every armed doorbell whose core is drained passes its gate, unless a refusal stops the
      run. */
  function ProcessFrom(cfg: Config, p: Port, drained: seq<bool>, v: nat): Port
    requires |drained| == |p.lanes|
    decreases |p.lanes| - v
  {
    if v >= |p.lanes| || p.fatal.Some? then p
    else if p.lanes[v].armed.Some? && drained[v] then ProcessFrom(cfg, Next(cfg, p, OpenGate(v)), drained, v + 1)
    else ProcessFrom(cfg, p, drained, v + 1)
  }

  /** The gates `process` opens, as steps. */
  function OpenedGates(cfg: Config, p: Port, drained: seq<bool>, v: nat): seq<Step>
    requires |drained| == |p.lanes|
    decreases |p.lanes| - v
  {
    if v >= |p.lanes| || p.fatal.Some? then []
    else if p.lanes[v].armed.Some? && drained[v]
         then [OpenGate(v)] + OpenedGates(cfg, Next(cfg, p, OpenGate(v)), drained, v + 1)
    else OpenedGates(cfg, p, drained, v + 1)
  }

  /** A call of `process` is a run of gate openings, so everything proved of runs holds of it. */
  lemma {:induction false} ProcessIsRun(cfg: Config, p: Port, drained: seq<bool>, v: nat)
    requires |drained| == |p.lanes|
    ensures (var steps := OpenedGates(cfg, p, drained, v);
             Runs(cfg, p, steps) && After(cfg, p, steps) == ProcessFrom(cfg, p, drained, v))
    decreases |p.lanes| - v
  {
    if v < |p.lanes| && p.fatal.None? {
      if p.lanes[v].armed.Some? && drained[v] {
        var q, rest := Next(cfg, p, OpenGate(v)), OpenedGates(cfg, Next(cfg, p, OpenGate(v)), drained, v + 1);
        ProcessIsRun(cfg, q, drained, v + 1);
        assert ([OpenGate(v)] + rest)[1..] == rest;
      } else {
        ProcessIsRun(cfg, p, drained, v + 1);
      }
    }
  }

  /** Opening a gate touches one lane, and that lane is not armed afterwards. */
  lemma GateOpensOnce(cfg: Config, p: Port, v: nat)
    requires Enabled(p, OpenGate(v))
    ensures (var q := Next(cfg, p, OpenGate(v));
             q.lanes[v].armed.None? && forall u {:trigger q.lanes[u]} | 0 <= u < |p.lanes| && u != v ::
                 q.lanes[u] == p.lanes[u])
  {
    GateMoves(cfg, p.lanes[v], |p.deviceLog|, |p.flushLog|, p.inFlight);
  }

  /** After `process`, unless stopped, a doorbell is still armed exactly if it was and its core is not drained. */
  lemma {:induction false} ProcessOpensDrained(cfg: Config, p: Port, drained: seq<bool>, v: nat, u: nat)
    requires |drained| == |p.lanes| && u < |p.lanes|
    ensures (var q := ProcessFrom(cfg, p, drained, v);
             && |q.lanes| == |p.lanes|
             && (q.fatal.None? ==> q.lanes[u].armed == if v <= u && drained[u] then None else p.lanes[u].armed)
             && (u < v ==> q.lanes[u] == p.lanes[u]))
    decreases |p.lanes| - v
  {
    if v < |p.lanes| && p.fatal.None? {
      if p.lanes[v].armed.Some? && drained[v] {
        GateOpensOnce(cfg, p, v);
        ProcessOpensDrained(cfg, Next(cfg, p, OpenGate(v)), drained, v + 1, u);
      } else {
        ProcessOpensDrained(cfg, p, drained, v + 1, u);
      }
    }
  }

  /** One flush more in the tables. */
  lemma OneMoreFlush(owner: map<nat, nat>, from: nat, n: nat, m: nat, v: nat)
    requires m == n + 1
    ensures owner + (map id | id in Ids(from, m) :: v) == (owner + map id | id in Ids(from, n) :: v)[from + n := v]
  {
  }

  class BalarAcceleratorPort {
    const cfg: Config
    var lanes: seq<Lane>
    var pending: map<nat, Owner>
    var flushOwner: map<nat, nat>
    var flushLog: seq<Flush>
    var deviceLog: seq<Log>
    var replies: seq<Reply>
    var inFlight: nat
    var asyncVcpu: Option<nat>
    var fatal: Option<Fatal>

    ghost function State(): Port reads this {
      Port(lanes, pending, flushOwner, flushLog, deviceLog, replies, inFlight, asyncVcpu, fatal)
    }

    ghost predicate Valid() reads this { Inv(State()) }

    constructor (config: Config, start: seq<Lane>)
      requires forall v {:trigger IdleLane(start[v])} | 0 <= v < |start| :: IdleLane(start[v])
      ensures Valid() && cfg == config && Init(State()) && lanes == start
    {
      cfg, lanes, pending, flushOwner, flushLog, deviceLog := config, start, map[], map[], [], [];
      replies, inFlight, asyncVcpu, fatal := [], 0, None, None;
      new;
      InitOk(State());
    }

    /** Sends one flush per line and records its owner. */
    method SendFlushAddrs(v: nat, lines: seq<nat>)
      modifies this`flushOwner, this`flushLog
      ensures flushLog == old(flushLog) + Flushes(v, lines)
      ensures flushOwner == old(flushOwner) + map id | id in Ids(|old(flushLog)|, |lines|) :: v
    {
      ghost var from, owner0 := |flushLog|, flushOwner;
      var i := 0;
      assert flushOwner == owner0 + map id | id in Ids(from, 0) :: v;
      while i < |lines|
        invariant 0 <= i <= |lines| && flushLog == old(flushLog) + Flushes(v, lines)[..i]
        invariant flushOwner == owner0 + map id | id in Ids(from, i) :: v
      {
        OneMoreFlush(owner0, from, i, i + 1, v);
        flushOwner := flushOwner[|flushLog| := v];
        flushLog := flushLog + [Flush(v, lines[i])];
        i := i + 1;
      }
    }

    method Carry(v: nat, e: Effect)
      requires v < |lanes|
      modifies this
      ensures State() == Apply(old(State()), v, e)
    {
      lanes := lanes[v := e.lane];
      if e.send.Some? {
        pending := pending[|deviceLog| := Owner(v, IsAsyncSend(e.send.value))];
        deviceLog := deviceLog + [Log(v, e.send.value)];
      }
      SendFlushAddrs(v, e.lines);
      if e.reply.Some? { replies := replies + [Reply(v, e.reply.value)]; }
      inFlight, fatal := e.inFlight, e.fatal;
    }

    /** A mailbox request of vCPU v is handled. */
    method HandleCommand(v: nat)
      requires Valid() && Enabled(State(), TakeMail(v))
      modifies this
      ensures Valid() && State() == Next(cfg, old(State()), TakeMail(v))
    {
      StepKeeps(cfg, State(), TakeMail(v));
      var m, l := lanes[v].mail.value, lanes[v].(mail := None);
      if IsAsync(m.request) {
        if asyncVcpu.Some? && asyncVcpu.value != v { fatal := Some(SecondVcpu); return; }
        asyncVcpu := Some(v);
      }
      var e := Handle(cfg, v, l, m, |deviceLog|, inFlight);
      Carry(v, e);
    }

    /** Opens every gate whose core is drained. */
    method Process(drained: seq<bool>)
      requires Valid() && |drained| == |lanes|
      modifies this
      ensures Valid() && State() == ProcessFrom(cfg, old(State()), drained, 0)
    {
      ghost var goal := ProcessFrom(cfg, State(), drained, 0);
      var v := 0;
      while v < |lanes| && fatal.None?
        invariant Valid() && 0 <= v <= |lanes| == |drained| && ProcessFrom(cfg, State(), drained, v) == goal
        decreases |lanes| - v
      {
        if lanes[v].armed.Some? && drained[v] {
          StepKeeps(cfg, State(), OpenGate(v));
          var e := IssueDoorbellFlushes(cfg, lanes[v], |deviceLog|, |flushLog|, inFlight);
          Carry(v, e);
        }
        v := v + 1;
      }
    }

    /** A response that belongs to the port: a flush, or a forwarded request. */
    method HandleFlushResponse(id: nat)
      requires Valid() && Enabled(State(), FlushReply(id))
      modifies this
      ensures Valid() && fatal.None? && State() == Next(cfg, old(State()), FlushReply(id))
    {
      FlushReplyKeeps(cfg, State(), id);
      var v := flushOwner[id];
      var e := FlushAnswered(lanes[v], id, |deviceLog|, inFlight);
      flushOwner := flushOwner - {id};
      lanes := lanes[v := lanes[v].(flushIds := lanes[v].flushIds - {id})];
      Carry(v, e);
    }

    method HandleDeviceResponse(id: nat, value: nat)
      requires Valid() && Enabled(State(), DeviceReply(id, value))
      modifies this
      ensures Valid() && State() == Next(cfg, old(State()), DeviceReply(id, value))
    {
      StepKeeps(cfg, State(), DeviceReply(id, value));
      var o, v := pending[id], pending[id].vcpu;
      var e := if o.isAsync then AsyncAnswered(lanes[v], |deviceLog|, inFlight)
               else SyncAnswered(lanes[v], ReplyValue(deviceLog, id, value), inFlight);
      pending := pending - {id};
      lanes := lanes[v := if o.isAsync then lanes[v].(asyncId := None) else lanes[v].(syncId := None)];
      Carry(v, e);
    }
  }
}
