/** The instruction trace: the plugin's run coalescing (src/qemu_plugin/plugin_state.cpp) on one side of the
    ring and the staging-queue refill (src/quetz_pipeline_input.cc) on the other. Program counters are left out. */
module Trace {

  const RUN_MAX: nat := 4096
  const CLASSES: nat := 8
  const DATA_BYTES: nat := 64

  datatype Kind = Nop | Read | Write | Exit | ComputeRun

  datatype Command = Command(kind: Kind, size: nat, addr: nat, cls: nat, data: seq<bv8>)

  /** A staged command with the stall cycles it still owes. */
  datatype Event = Event(cmd: Command, stall: nat)

  datatype Latency = Latency(exec: seq<nat>, compute: seq<nat>)

  predicate LatencyOk(lat: Latency) { |lat.exec| == CLASSES && |lat.compute| == CLASSES }

  /** One retired instruction, as the callbacks see it. `Sync` is an access to the mailbox or the window aperture,
      which never goes on the ring. */
  datatype Insn = Compute(cls: nat) | Memory(isStore: bool, size: nat, addr: nat, mcls: nat,
                                             data: seq<bv8>) | Sync | Leave

  function Repeat<T>(x: T, n: nat): (r: seq<T>)
    ensures |r| == n && forall i | 0 <= i < n :: r[i] == x
  {
    seq(n, _ => x)
  }

  function NopOf(cls: nat): Command { Command(Nop, 0, 0, cls, Repeat(0, DATA_BYTES)) }

  function RunOf(cls: nat, n: nat): Command { Command(ComputeRun, n, 0, cls, Repeat(0, DATA_BYTES)) }

  /** The payload field: at most 64 bytes, padded with zeros. */
  function Payload(data: seq<bv8>, size: nat): (r: seq<bv8>)
    ensures |r| == DATA_BYTES
    ensures forall i | 0 <= i < DATA_BYTES :: r[i] == if i < size && i < |data| then data[i] else 0
  {
    var n := if size < DATA_BYTES then size else DATA_BYTES;
    var kept := if |data| < n then data else data[..n];
    kept + Repeat(0, DATA_BYTES - |kept|)
  }

  function MemoryCommand(i: Insn): Command
    requires i.Memory?
  {
    Command(if i.isStore then Write else Read, i.size, i.addr, i.mcls,
            Payload(if i.isStore && i.size <= DATA_BYTES then i.data else [], i.size))
  }

  function ExitCommand(): Command { Command(Exit, 0, 0, 0, Repeat(0, DATA_BYTES)) }

  /** What one instruction would put on the ring without coalescing. */
  function Plain(i: Insn): seq<Command> {
    match i
    case Compute(cls) => [NopOf(cls)]
    case Memory(_, _, _, _, _) => [MemoryCommand(i)]
    case Sync => []
    case Leave => [ExitCommand()]
  }

  function PlainAll(stream: seq<Insn>): seq<Command> {
    if stream == [] then [] else PlainAll(stream[..|stream| - 1]) + Plain(stream[|stream| - 1])
  }

  // ---------------------------------------------------------------- expansion of a ring

  function ExpandOne(c: Command): seq<Command> {
    if c.kind.ComputeRun? then Repeat(c.(kind := Nop, size := 0), if c.size == 0 then 1 else c.size) else [c]
  }

  function Expand(ring: seq<Command>): seq<Command> {
    if ring == [] then [] else ExpandOne(ring[0]) + Expand(ring[1..])
  }

  lemma {:induction false} ExpandAppend(a: seq<Command>, b: seq<Command>)
    ensures Expand(a + b) == Expand(a) + Expand(b)
    decreases |a|
  {
    if a == [] {
      assert a + b == b;
    } else {
      assert (a + b)[0] == a[0] && (a + b)[1..] == a[1..] + b;
      ExpandAppend(a[1..], b);
    }
  }

  lemma ExpandSnoc(ring: seq<Command>, c: Command)
    ensures Expand(ring + [c]) == Expand(ring) + ExpandOne(c)
  {
    ExpandAppend(ring, [c]);
    assert Expand([c]) == ExpandOne(c) + Expand([]);
  }

  // ---------------------------------------------------------------- the plugin

  /** One vCPU's side of the plugin: what is on the ring and the run being gathered. */
  datatype Plugin = Plugin(ring: seq<Command>, cls: nat, count: nat)

  function FlushRun(p: Plugin): Plugin {
    if p.count == 0 then p else p.(ring := p.ring + [RunOf(p.cls, p.count)], count := 0)
  }

  function Accumulate(p: Plugin, cls: nat): Plugin {
    var q := if p.count > 0 && p.cls != cls then FlushRun(p) else p;
    var r := q.(cls := cls, count := q.count + 1);
    if r.count >= RUN_MAX then FlushRun(r) else r
  }

  function WriteCmd(p: Plugin, c: Command): Plugin { p.(ring := p.ring + [c]) }

  function Retire(p: Plugin, i: Insn): Plugin {
    match i
    case Compute(cls) => Accumulate(p, cls)
    case Memory(_, _, _, _, _) => WriteCmd(FlushRun(p), MemoryCommand(i))
    case Sync => FlushRun(p)
    case Leave => WriteCmd(FlushRun(p), ExitCommand())
  }

  function RetireAll(p: Plugin, stream: seq<Insn>): Plugin {
    if stream == [] then p else Retire(RetireAll(p, stream[..|stream| - 1]), stream[|stream| - 1])
  }

  /** Everything recorded so far: the ring expanded, then the run in progress. */
  function Recorded(p: Plugin): seq<Command> { Expand(p.ring) + Repeat(NopOf(p.cls), p.count) }

  lemma FlushRecords(p: Plugin)
    ensures Recorded(FlushRun(p)) == Recorded(p) == Expand(FlushRun(p).ring)
    ensures FlushRun(p).count == 0
  {
    if p.count > 0 {
      ExpandSnoc(p.ring, RunOf(p.cls, p.count));
      assert ExpandOne(RunOf(p.cls, p.count)) == Repeat(NopOf(p.cls), p.count);
    }
  }

  lemma WriteRecords(p: Plugin, c: Command)
    requires p.count == 0 && !c.kind.ComputeRun?
    ensures Recorded(WriteCmd(p, c)) == Recorded(p) + [c]
  {
    ExpandSnoc(p.ring, c);
  }

  /** Counting one more instruction of the same class. */
  lemma CountRecords(p: Plugin, cls: nat)
    requires p.count == 0 || p.cls == cls
    ensures Recorded(p.(cls := cls, count := p.count + 1)) == Recorded(p) + [NopOf(cls)]
  {
    var a, x := Expand(p.ring), NopOf(cls);
    assert Repeat(x, p.count + 1) == Repeat(NopOf(p.cls), p.count) + [x];
    assert a + (Repeat(NopOf(p.cls), p.count) + [x]) == a + Repeat(NopOf(p.cls), p.count) + [x];
  }

  lemma AccumulateRecords(p: Plugin, cls: nat)
    ensures Recorded(Accumulate(p, cls)) == Recorded(p) + [NopOf(cls)]
  {
    var q := if p.count > 0 && p.cls != cls then FlushRun(p) else p;
    FlushRecords(p);
    CountRecords(q, cls);
    FlushRecords(q.(cls := cls, count := q.count + 1));
  }

  /** A gathered run is shorter than the limit, and every run on the ring has between 1 and 4096 instructions. */
  predicate RunsBounded(p: Plugin) {
    p.count < RUN_MAX && forall c | c in p.ring && c.kind.ComputeRun? :: 1 <= c.size <= RUN_MAX
  }

  lemma RetireBounded(p: Plugin, i: Insn)
    requires RunsBounded(p)
    ensures RunsBounded(Retire(p, i))
  {
  }

  lemma RetireRecords(p: Plugin, i: Insn)
    ensures Recorded(Retire(p, i)) == Recorded(p) + Plain(i)
    ensures !i.Compute? ==> Retire(p, i).count == 0
  {
    FlushRecords(p);
    match i
    case Compute(cls) => AccumulateRecords(p, cls);
    case Memory(_, _, _, _, _) => WriteRecords(FlushRun(p), MemoryCommand(i));
    case Sync =>
    case Leave => WriteRecords(FlushRun(p), ExitCommand());
  }

  /** Coalescing loses, adds and reorders nothing: whatever instructions retire, the ring expanded plus the run
      in progress is the uncoalesced stream; and whenever the last instruction was not a compute one, so in
      particular at every mailbox access, the ring alone holds it all. */
  lemma {:induction false} CoalescingRoundTrip(p: Plugin, stream: seq<Insn>)
    requires p.ring == [] && p.count == 0
    ensures Recorded(RetireAll(p, stream)) == PlainAll(stream) && RunsBounded(RetireAll(p, stream))
    ensures stream == [] || !stream[|stream| - 1].Compute? ==> Expand(RetireAll(p, stream).ring) == PlainAll(stream)
    decreases |stream|
  {
    if stream != [] {
      CoalescingRoundTrip(p, stream[..|stream| - 1]);
      RetireRecords(RetireAll(p, stream[..|stream| - 1]), stream[|stream| - 1]);
      RetireBounded(RetireAll(p, stream[..|stream| - 1]), stream[|stream| - 1]);
    }
  }

  /** Two runs of the same class. */
  predicate SameClass(a: Command, b: Command) { a.kind.ComputeRun? && b.kind.ComputeRun? && a.cls == b.cls }

  /** A run is followed by another of its class only if it is full. */
  predicate Gathered(ring: seq<Command>) {
    forall k | 0 <= k < |ring| - 1 :: SameClass(ring[k], ring[k + 1]) ==> ring[k].size == RUN_MAX
  }

  /** So it is on the ring, and a run at its end that the next instruction could still have joined is full. */
  predicate GatheredSoFar(p: Plugin) {
    && Gathered(p.ring) && p.count < RUN_MAX
    && (p.ring != [] && p.ring[|p.ring| - 1].kind.ComputeRun? && (p.count == 0 || p.ring[|p.ring| - 1].cls == p.cls) ==>
          p.ring[|p.ring| - 1].size == RUN_MAX)
  }

  lemma GatheredSnoc(ring: seq<Command>, c: Command)
    requires Gathered(ring)
    requires ring != [] && SameClass(ring[|ring| - 1], c) ==> ring[|ring| - 1].size == RUN_MAX
    ensures Gathered(ring + [c])
  {
  }

  lemma AccumulateGathers(p: Plugin, cls: nat)
    requires GatheredSoFar(p)
    ensures GatheredSoFar(Accumulate(p, cls))
  {
    GatheredSnoc(p.ring, RunOf(p.cls, p.count));
    if p.count == 0 || p.cls == cls { GatheredSnoc(p.ring, RunOf(cls, p.count + 1)); }
  }

  lemma CommandGathers(p: Plugin, c: Command)
    requires GatheredSoFar(p) && !c.kind.ComputeRun?
    ensures GatheredSoFar(WriteCmd(FlushRun(p), c))
  {
    GatheredSnoc(p.ring, RunOf(p.cls, p.count));
    GatheredSnoc(FlushRun(p).ring, c);
  }

  /** Instructions are gathered as far as they can be: without a mailbox access in between, a run on the ring ends only
      with 4096 instructions or before an instruction of another kind or class. */
  lemma {:induction false} RunsMaximal(p: Plugin, stream: seq<Insn>)
    requires p.ring == [] && p.count == 0 && forall i | i in stream :: !i.Sync?
    ensures GatheredSoFar(RetireAll(p, stream))
    decreases |stream|
  {
    if stream != [] {
      var q, i := RetireAll(p, stream[..|stream| - 1]), stream[|stream| - 1];
      RunsMaximal(p, stream[..|stream| - 1]);
      match i
      case Compute(cls) => AccumulateGathers(q, cls);
      case Memory(_, _, _, _, _) => CommandGathers(q, MemoryCommand(i));
      case Sync =>
      case Leave => CommandGathers(q, ExitCommand());
    }
  }

  // ---------------------------------------------------------------- what the stream says

  /** A command that says what an instruction did. Only stores of at most 64 bytes carry data, padded with zeros. */
  predicate Describes(i: Insn, c: Command) {
    match i
    case Compute(cls) => c.kind.Nop? && c.cls == cls
    case Memory(isStore, size, addr, cls, data) =>
      && c.kind == (if isStore then Write else Read) && c.size == size && c.addr == addr && c.cls == cls
      && |c.data| == 64
      && forall k | 0 <= k < 64 :: c.data[k] == if isStore && size <= 64 && k < size && k < |data| then data[k] else 0
    case Sync => false
    case Leave => c.kind.Exit?
  }

  /** The instructions that leave a command. */
  function Traced(stream: seq<Insn>): seq<Insn> {
    if stream == [] then []
    else Traced(stream[..|stream| - 1]) + (if stream[|stream| - 1].Sync? then [] else [stream[|stream| - 1]])
  }

  predicate AllDescribed(insns: seq<Insn>, cmds: seq<Command>) {
    |cmds| == |insns| && forall k {:trigger Describes(insns[k], cmds[k])} | 0 <= k < |insns| ::
        Describes(insns[k], cmds[k])
  }

  lemma PlainDescribes(i: Insn)
    ensures AllDescribed(if i.Sync? then [] else [i], Plain(i))
  {
  }

  lemma {:induction false} PlainAllDescribes(stream: seq<Insn>)
    ensures AllDescribed(Traced(stream), PlainAll(stream))
    decreases |stream|
  {
    if stream != [] {
      PlainAllDescribes(stream[..|stream| - 1]);
      PlainDescribes(stream[|stream| - 1]);
    }
  }

  /** Whatever instructions retire, what is recorded is one command for each of them but the mailbox accesses, in
      order, and each says what its instruction did. */
  lemma StreamDescribed(p: Plugin, stream: seq<Insn>)
    requires p.ring == [] && p.count == 0
    ensures AllDescribed(Traced(stream), Recorded(RetireAll(p, stream)))
  {
    CoalescingRoundTrip(p, stream);
    PlainAllDescribes(stream);
  }

  /** The plugin's per-vCPU globals. */
  class TracePlugin {
    var ring: seq<Command>
    var cls: nat
    var count: nat

    function State(): Plugin reads this { Plugin(ring, cls, count) }

    constructor ()
      ensures State() == Plugin([], 0, 0)
    {
      ring, cls, count := [], 0, 0;
    }

    method Flush()
      modifies this
      ensures State() == FlushRun(old(State()))
      ensures count == 0 && Expand(ring) == old(Recorded(State()))
    {
      FlushRecords(State());
      if count == 0 { return; }
      ring := ring + [RunOf(cls, count)];
      count := 0;
    }

    method AccumulateCompute(c: nat)
      modifies this
      ensures State() == Accumulate(old(State()), c)
      ensures Recorded(State()) == old(Recorded(State())) + [NopOf(c)]
    {
      AccumulateRecords(State(), c);
      if count > 0 && cls != c { Flush(); }
      cls := c;
      count := count + 1;
      if count >= RUN_MAX { Flush(); }
    }

    method Write(c: Command)
      requires !c.kind.ComputeRun?
      modifies this
      ensures State() == WriteCmd(old(State()), c)
      ensures old(count) == 0 ==> Recorded(State()) == old(Recorded(State())) + [c]
    {
      if count == 0 { WriteRecords(State(), c); }
      ring := ring + [c];
    }

    /** The memory callback outside both apertures. */
    method HandleMemory(i: Insn)
      requires i.Memory?
      modifies this
      ensures Recorded(State()) == old(Recorded(State())) + Plain(i) && count == 0
    {
      FlushRecords(State());
      Flush();
      Write(MemoryCommand(i));
    }
  }

  // ---------------------------------------------------------------- refill

  /** The input stage: the ring it reads and the compute run it is part-way through. */
  datatype Input = Input(ring: seq<Command>, nop: Command, left: nat)

  /** Everything still to be staged, instruction by instruction. */
  function Backlog(i: Input): seq<Command> { Repeat(i.nop, i.left) + Expand(i.ring) }

  function Stall(lat: Latency, c: Command): nat
    requires LatencyOk(lat)
  {
    if c.cls < CLASSES then
      (if c.kind.Read? || c.kind.Write? then lat.exec[c.cls] else if c.kind.Nop? then lat.compute[c.cls] else 0)
    else 0
  }

  function Staged(lat: Latency, cmds: seq<Command>): (r: seq<Event>)
    requires LatencyOk(lat)
    ensures |r| == |cmds| && forall i | 0 <= i < |r| :: r[i] == Event(cmds[i], Stall(lat, cmds[i]))
  {
    seq(|cmds|, i requires 0 <= i < |cmds| => Event(cmds[i], Stall(lat, cmds[i])))
  }

  /** How many commands an uncoalesced refill with `room` free places takes: it stops at the end of the stream,
      when the room is used up, or just after an EXIT. */
  function Take(cmds: seq<Command>, room: nat): (n: nat)
    ensures n <= |cmds| && n <= room
  {
    if cmds == [] || room == 0 then 0
    else if cmds[0].kind.Exit? then 1
    else 1 + Take(cmds[1..], room - 1)
  }

  function Room(q: seq<Event>, cap: nat): nat { if |q| < cap then cap - |q| else 0 }

  /** What a refill leaves: the staging queue, the rest of the stream, and whether it stopped at an EXIT. */
  datatype Fill = Fill(q: seq<Event>, rest: seq<Command>, sawExit: bool)

  /** The refill of an uncoalesced stream, one command at a time. */
  function PlainRefill(lat: Latency, q: seq<Event>, cap: nat, stream: seq<Command>): Fill
    requires LatencyOk(lat)
    decreases |stream|
  {
    if |q| >= cap || stream == [] then Fill(q, stream, false)
    else
      var q' := q + [Event(stream[0], Stall(lat, stream[0]))];
      if stream[0].kind.Exit? then Fill(q', stream[1..], true) else PlainRefill(lat, q', cap, stream[1..])
  }

  /** It stages the prefix that Take counts. */
  lemma {:induction false} PlainRefillTakes(lat: Latency, q: seq<Event>, cap: nat, stream: seq<Command>)
    requires LatencyOk(lat)
    ensures TookPrefix(lat, q, stream, PlainRefill(lat, q, cap, stream), Take(stream, Room(q, cap)))
    decreases |stream|
  {
    if |q| < cap && stream != [] {
      var e := Event(stream[0], Stall(lat, stream[0]));
      if stream[0].kind.Exit? {
        StagedCons(lat, stream, 0);
      } else {
        PlainRefillTakes(lat, q + [e], cap, stream[1..]);
        TookOneMore(lat, q, stream, PlainRefill(lat, q + [e], cap, stream[1..]), Take(stream[1..], Room(q + [e], cap)));
      }
    }
  }

  predicate TookPrefix(lat: Latency, q: seq<Event>, stream: seq<Command>, f: Fill, n: nat) {
    && LatencyOk(lat) && n <= |stream|
    && f.q == q + Staged(lat, stream[..n]) && f.rest == stream[n..]
    && f.sawExit == (n > 0 && stream[n - 1].kind.Exit?)
  }

  lemma TookOneMore(lat: Latency, q: seq<Event>, stream: seq<Command>, f: Fill, m: nat)
    requires LatencyOk(lat) && stream != [] && !stream[0].kind.Exit?
    requires TookPrefix(lat, q + [Event(stream[0], Stall(lat, stream[0]))], stream[1..], f, m)
    ensures TookPrefix(lat, q, stream, f, m + 1)
  {
    var e := Event(stream[0], Stall(lat, stream[0]));
    StagedCons(lat, stream, m);
    assert q + [e] + Staged(lat, stream[1..][..m]) == q + ([e] + Staged(lat, stream[1..][..m]));
  }

  lemma StagedCons(lat: Latency, stream: seq<Command>, m: nat)
    requires LatencyOk(lat) && m < |stream|
    ensures Staged(lat, stream[..m + 1]) == [Event(stream[0], Stall(lat, stream[0]))] + Staged(lat, stream[1..][..m])
    ensures stream[1..][m..] == stream[m + 1..]
  {
    assert stream[..m + 1] == [stream[0]] + stream[1..][..m];
  }

  /** Staging j of the k instructions of a run does not change where the refill ends. */
  lemma {:induction false} PlainRun(lat: Latency, q: seq<Event>, cap: nat, x: Command, k: nat, j: nat,
                                    tail: seq<Command>)
    requires LatencyOk(lat) && x.kind.Nop? && j <= k && j <= Room(q, cap)
    ensures PlainRefill(lat, q, cap, Repeat(x, k) + tail) ==
            PlainRefill(lat, q + Staged(lat, Repeat(x, j)), cap, Repeat(x, k - j) + tail)
    decreases j
  {
    if j > 0 {
      var s, e := Repeat(x, k) + tail, Event(x, Stall(lat, x));
      assert s[0] == x && s[1..] == Repeat(x, k - 1) + tail;
      PlainRun(lat, q + [e], cap, x, k - 1, j - 1, tail);
      assert q + [e] + Staged(lat, Repeat(x, j - 1)) == q + Staged(lat, Repeat(x, j));
    } else {
      assert q + Staged(lat, Repeat(x, 0)) == q;
    }
  }

  class PipelineInput {
    var ring: seq<Command>
    var nop: Command
    var runStall: nat
    var left: nat
    const lat: Latency

    function State(): Input reads this { Input(ring, nop, left) }

    ghost predicate Valid() reads this {
      LatencyOk(lat) && (left > 0 ==> nop.kind.Nop? && runStall == Stall(lat, nop))
    }

    constructor (latency: Latency)
      requires LatencyOk(latency)
      ensures Valid() && lat == latency && Backlog(State()) == []
    {
      ring, nop, runStall, left, lat := [], NopOf(0), 0, 0, latency;
    }

    /** Stages as much of the current run as fits. */
    method DrainRun(q: seq<Event>, cap: nat) returns (r: seq<Event>)
      requires Valid()
      modifies this`left
      ensures Valid()
      ensures (var n := if old(left) < Room(q, cap) then old(left) else Room(q, cap);
               left == old(left) - n && r == q + Staged(lat, Repeat(nop, n)))
    {
      r := q;
      ghost var n := 0;
      while left > 0 && |r| < cap
        invariant Valid() && 0 <= n && left + n == old(left)
        invariant |r| == |q| + n && (n > 0 ==> |r| <= cap)
        invariant r == q + Staged(lat, Repeat(nop, n))
      {
        r := r + [Event(nop, runStall)];
        left := left - 1;
        n := n + 1;
        assert Staged(lat, Repeat(nop, n)) == Staged(lat, Repeat(nop, n - 1)) + [Event(nop, runStall)];
      }
    }

    method ReadCommandNB() returns (found: bool, cmd: Command)
      requires Valid() && left == 0
      modifies this`ring
      ensures found == (old(ring) != [])
      ensures found ==> |ring| < |old(ring)| && old(Backlog(State())) == ExpandOne(cmd) + Backlog(State())
      ensures !found ==> ring == old(ring) == [] && Backlog(State()) == []
    {
      if ring == [] { return false, NopOf(0); }
      found, cmd := true, ring[0];
      ring := ring[1..];
    }

    method BeginRun(cmd: Command)
      requires Valid() && left == 0 && cmd.kind.ComputeRun?
      modifies this`nop, this`runStall, this`left
      ensures Valid() && Backlog(State()) == ExpandOne(cmd) + old(Backlog(State()))
    {
      nop := cmd.(kind := Nop, size := 0);
      runStall := if cmd.cls < CLASSES then lat.compute[cmd.cls] else 0;
      left := if cmd.size != 0 then cmd.size else 1;
    }

    /** DrainRun does not change where the refill ends. */
    method ContinueRun(q: seq<Event>, cap: nat) returns (r: seq<Event>)
      requires Valid()
      modifies this`left
      ensures Valid() && (left > 0 ==> |r| >= cap)
      ensures PlainRefill(lat, r, cap, Backlog(State())) == PlainRefill(lat, q, cap, old(Backlog(State())))
    {
      ghost var k, tail := left, Expand(ring);
      r := DrainRun(q, cap);
      if k > 0 { PlainRun(lat, q, cap, nop, k, k - left, tail); } else { assert r == q; }
    }

    /** Refill on a coalesced ring with a run carried over does exactly what a refill of the uncoalesced stream
        does, for every queue and cap. */
    method Refill(q: seq<Event>, cap: nat) returns (r: seq<Event>, sawExit: bool)
      requires Valid()
      modifies this
      ensures Valid()
      ensures Fill(r, Backlog(State()), sawExit) == PlainRefill(lat, q, cap, old(Backlog(State())))
    {
      ghost var goal := PlainRefill(lat, q, cap, Backlog(State()));
      r := ContinueRun(q, cap);
      while |r| < cap && left == 0
        invariant Valid() && (left > 0 ==> |r| >= cap)
        invariant PlainRefill(lat, r, cap, Backlog(State())) == goal
        decreases |ring|
      {
        var found, cmd := ReadCommandNB();
        if !found { break; }
        if cmd.kind.ComputeRun? {
          BeginRun(cmd);
          r := ContinueRun(r, cap);
          continue;
        }
        ConsStep(lat, r, cap, cmd, Backlog(State()));
        r := r + [Event(cmd, Stall(lat, cmd))];
        if cmd.kind.Exit? { return r, true; }
      }
      sawExit := false;
    }
  }

  lemma ConsStep(lat: Latency, q: seq<Event>, cap: nat, c: Command, tail: seq<Command>)
    requires LatencyOk(lat) && |q| < cap
    ensures (var q' := q + [Event(c, Stall(lat, c))];
             PlainRefill(lat, q, cap, [c] + tail) == if c.kind.Exit? then Fill(q', tail, true)
                                                     else PlainRefill(lat, q', cap, tail))
  {
    assert ([c] + tail)[1..] == tail;
  }
}
