/** Runs of accesses, CPUSHL and control writes on one core's window cache: the flat-memory theorem. */
module CacheRuns {
  import opened WindowCache
  import opened CacheTransactions
  import opened CacheRefinement

  datatype Op =
    | ReadOp(address: nat, size: nat)
    | WriteOp(address: nat, data: seq<Byte>)
    | PushOp(instruction: bv16, operand: nat)
    | MovecOp(reg: nat, value: bv32)
    | ResetOp

  /** The commands an idle cache does not reject; a rejected one ends the simulation. */
  predicate Accepted(regions: seq<Region>, op: Op) {
    match op
    case ReadOp(address, size) => 0 < size <= 8 && Covered(regions, address, size)
    case WriteOp(address, data) => 0 < |data| <= 8 && Covered(regions, address, |data|)
    case PushOp(instruction, _) => PushAccepted(instruction)
    case MovecOp(reg, value) => MovecAccepted(reg, value)
    case ResetOp => true
  }

  predicate IdleCache(c: Cache) { Valid(c) && !c.active }

  /** The started transaction of a command, as the source's entry points produce it. */
  function Begin(c: Cache, op: Op): Result<Cache>
    requires |c.controls.acr| == 4
  {
    match op
    case ReadOp(address, size) => Access(c, address, size, false, [])
    case WriteOp(address, data) => Access(c, address, |data|, true, data)
    case PushOp(instruction, operand) => Push(c, instruction, operand)
    case MovecOp(reg, value) => Movec(c, reg, value)
    case ResetOp => Reset(c)
  }

  lemma BeginOk(c: Cache, op: Op)
    requires IdleCache(c)
    ensures Begin(c, op).Ok? <==> Accepted(c.regions, op)
    ensures Begin(c, op).Ok? ==> Begin(c, op).value.regions == c.regions
    ensures Begin(c, op).Ok? && op.ResetOp? ==> !Begin(c, op).value.active
    ensures Begin(c, op).Ok? ==> Valid(Begin(c, op).value) && (!op.ResetOp? ==> Running(Begin(c, op).value))
  {
    match op
    case ReadOp(address, size) => StartKeepsStructure(c, address, size, false, [], 0, 0, 0, 0);
    case WriteOp(address, data) => StartKeepsStructure(c, address, |data|, true, data, 0, 0, 0, 0);
    case PushOp(instruction, operand) => StartKeepsStructure(c, 0, 0, false, [], 0, 0, instruction, operand);
    case MovecOp(reg, value) => StartKeepsStructure(c, 0, 0, false, [], reg, value, 0, 0);
    case ResetOp => ConfigurationKeepsStructure(c, Region(0, 0));
  }

  /** One command run to its end against the backing memory. */
  function Exec(c: Cache, m: Memory, op: Op): (o: Outcome)
    requires IdleCache(c) && Accepted(c.regions, op)
    ensures IdleCache(o.cache) && o.cache.regions == c.regions
  {
    BeginOk(c, op);
    var d := Begin(c, op).value;
    if op.ResetOp? then Outcome(d, m, [], []) else Run(d, m)
  }

  /** The same command on one flat memory. */
  function FlatExec(flat: Memory, op: Op): (Memory, seq<Byte>)
    requires op.ReadOp? ==> op.address + op.size <= ADDRESS_SPACE
    requires op.WriteOp? ==> op.address + |op.data| <= ADDRESS_SPACE
  {
    match op
    case ReadOp(address, size) => (flat, flat[address..address + size])
    case WriteOp(address, data) => (Splice(flat, address, data), [])
    case _ => (flat, [])
  }

  lemma AcceptedInSpace(regions: seq<Region>, op: Op)
    requires RegionsOk(regions) && Accepted(regions, op)
    ensures op.ReadOp? ==> op.address + op.size <= ADDRESS_SPACE
    ensures op.WriteOp? ==> op.address + |op.data| <= ADDRESS_SPACE
  {
    match op
    case ReadOp(address, size) => CoveredBounds(regions, address, size);
    case WriteOp(address, data) => CoveredBounds(regions, address, |data|);
    case _ =>
  }

  /** The control writes that lose nothing: every resident line fits the new controls, or, when all lines are dropped,
      the dirty ones are in memory already. */
  predicate ControlSafe(c: Cache, m: Memory, op: Op)
    requires Valid(c)
  {
    match op
    case MovecOp(reg, value) =>
      MovecAccepted(reg, value) ==>
        if InvalidatesAll(reg, value) then forall s | 0 <= s < 2048 && c.lines[s].dirty :: InMemory(c.lines[s], m)
        else LinesCoherent(ControlsAfter(c.controls, reg, value), c.lines, m)
    case ResetOp => forall s | 0 <= s < 2048 :: !c.lines[s].dirty
    case _ => true
  }

  /** The cache over memory is coherent and looks like `flat`. */
  predicate Tracks(c: Cache, m: Memory, flat: Memory) {
    IdleCache(c) && Coherent(c, m) && Sees(HiddenBy(c.controls), c.regions, c.lines, m, flat)
  }

  predicate Refines(c: Cache, o: Outcome, flat: Memory, op: Op)
    requires op.ReadOp? ==> op.address + op.size <= ADDRESS_SPACE
    requires op.WriteOp? ==> op.address + |op.data| <= ADDRESS_SPACE
  {
    && Tracks(o.cache, o.memory, FlatExec(flat, op).0)
    && o.result == FlatExec(flat, op).1
    && o.cache.regions == c.regions
  }

  lemma ReadRefines(c: Cache, m: Memory, flat: Memory, op: Op)
    requires op.ReadOp? && Tracks(c, m, flat) && Accepted(c.regions, op)
    ensures op.address + op.size <= ADDRESS_SPACE && Refines(c, Exec(c, m, op), flat, op)
  {
    AcceptedInSpace(c.regions, op);
    ReadProgress(c, m, flat, op);
    BeginOk(c, op);
    RunRefines(Begin(c, op).value, m, flat);
  }

  lemma ReadProgress(c: Cache, m: Memory, flat: Memory, op: Op)
    requires op.ReadOp? && Tracks(c, m, flat) && Accepted(c.regions, op)
    ensures Begin(c, op).Ok? && Progress(Begin(c, op).value, m, flat)
  {
    AcceptedInSpace(c.regions, op);
    BeginOk(c, op);
  }

  lemma WriteRefines(c: Cache, m: Memory, flat: Memory, op: Op)
    requires op.WriteOp? && Tracks(c, m, flat) && Accepted(c.regions, op)
    ensures op.address + |op.data| <= ADDRESS_SPACE && Refines(c, Exec(c, m, op), flat, op)
  {
    AcceptedInSpace(c.regions, op);
    BeginOk(c, op);
    var d := Begin(c, op).value;
    assert FlatSoFar(d, flat) == flat;
    assert Progress(d, m, flat);
    RunRefines(d, m, flat);
  }

  // ---------------------------------------------------------------- CPUSHL

  /** The line of a slot after CPUSHL. */
  function PushedLine(l: Line, invalidate: bool): Line { l.(dirty := false, valid := l.valid && !invalidate) }

  function PushedMemory(m: Memory, l: Line): Memory
    requires l.dirty ==> l.address + |l.bytes| <= ADDRESS_SPACE
  {
    if l.dirty then Splice(m, l.address, l.bytes) else m
  }

  lemma DirtyBounds(c: Cache, slot: nat)
    requires Valid(c) && slot < 2048
    ensures |c.lines[slot].bytes| == 16
    ensures c.lines[slot].dirty ==>
              c.lines[slot].valid && c.lines[slot].address + 16 <= ADDRESS_SPACE && c.lines[slot].address % 16 == 0
  {
    assert SlotOk(c.regions, c.lines, slot);
    SlotBounds(c.regions, c.lines, slot);
  }

  /** The two half-steps of a started CPUSHL. */
  lemma RunPush(d: Cache, m: Memory)
    requires Running(d) && d.pushing
    ensures (var o, l := Run(d, m), d.lines[d.pendingSlot];
             DirtyBounds(d, d.pendingSlot);
             && o.cache.lines == d.lines[d.pendingSlot := PushedLine(l, d.invalidatePush)]
             && o.memory == PushedMemory(m, l) && o.result == [])
  {
    DirtyBounds(d, d.pendingSlot);
    if d.lines[d.pendingSlot].dirty {
      RunStep(d, m);
      var (e, m') := Answered(d, m, Next(d));
      assert Next(e) == Finish(e);
      RunDone(e, m');
    } else {
      RunDone(d, m);
      assert PushedLine(d.lines[d.pendingSlot], d.invalidatePush)
          == d.lines[d.pendingSlot].(valid := d.lines[d.pendingSlot].valid && !d.invalidatePush);
    }
  }

  /** CPUSHL with the data selector writes its slot back if dirty, cleans it, and touches nothing else;
      the enable bit and the mode of the line play no part. */
  lemma PushExact(c: Cache, m: Memory, instruction: bv16, operand: nat)
    requires IdleCache(c) && PushAccepted(instruction) && PushesData(instruction)
    ensures (var slot := PushSlot(operand);
             var o := Exec(c, m, PushOp(instruction, operand));
             DirtyBounds(c, slot);
             && o.cache.lines == c.lines[slot := PushedLine(c.lines[slot], c.controls.cacr & DDPI == 0)]
             && o.memory == PushedMemory(m, c.lines[slot])
             && o.cache.controls == c.controls && o.cache.regions == c.regions && o.result == [])
  {
    BeginOk(c, PushOp(instruction, operand));
    DirtyBounds(c, PushSlot(operand));
    RunPush(Push(c, instruction, operand).value, m);
  }

  lemma PushRefines(c: Cache, m: Memory, flat: Memory, op: Op)
    requires op.PushOp? && Tracks(c, m, flat) && Accepted(c.regions, op)
    ensures Refines(c, Exec(c, m, op), flat, op)
  {
    BeginOk(c, op);
    if PushesData(op.instruction) {
      var slot := PushSlot(op.operand);
      PushExact(c, m, op.instruction, op.operand);
      DirtyBounds(c, slot);
      assert SlotCoherent(c.controls, c.lines, m, slot);
      var m' := PushedMemory(m, c.lines[slot]);
      if c.lines[slot].dirty { WriteBackSees(c, m, slot, flat); }
      DropKeepsView(c, m', slot, c.controls.cacr & DDPI != 0, flat);
    }
  }

  // ---------------------------------------------------------------- control writes

  lemma MovecExact(c: Cache, m: Memory, reg: nat, value: bv32)
    requires IdleCache(c) && MovecAccepted(reg, value)
    ensures (var o := Exec(c, m, MovecOp(reg, value));
             && o.cache.lines == (if InvalidatesAll(reg, value) then Invalidated(c.lines) else c.lines)
             && o.cache.controls == ControlsAfter(c.controls, reg, value)
             && o.cache.regions == c.regions && o.memory == m && o.result == [])
  {
    BeginOk(c, MovecOp(reg, value));
  }

  lemma EmptySees(hidden: Hiding, regions: seq<Region>, lines: seq<Line>, m: Memory)
    requires LinesOk(regions, lines) && forall s | 0 <= s < 2048 :: !lines[s].valid
    ensures Sees(hidden, regions, lines, m, m)
  {
    LineLengths(regions, lines);
    forall a | 0 <= a < ADDRESS_SPACE ensures ViewAt(hidden, lines, m, a) == m[a] {
      var slot := Find(lines, LineOf(a));
    }
  }

  /** If the dirty lines are in memory, memory alone already looks like the flat memory. */
  lemma DirtyInMemoryIsFlat(c: Cache, m: Memory, flat: Memory)
    requires Coherent(c, m) && Sees(HiddenBy(c.controls), c.regions, c.lines, m, flat)
    requires forall s | 0 <= s < 2048 && c.lines[s].dirty :: InMemory(c.lines[s], m)
    ensures m == flat
  {
    LineLengths(c.regions, c.lines);
    forall a | 0 <= a < ADDRESS_SPACE ensures m[a] == flat[a] {
      assert ViewAt(HiddenBy(c.controls), c.lines, m, a) == flat[a];
      var slot := Find(c.lines, LineOf(a));
      if slot < 2048 {
        assert SlotCoherent(c.controls, c.lines, m, slot);
        SlotBounds(c.regions, c.lines, slot);
        SameLine(c.lines[slot].address, a);
      }
    }
  }

  /** A line that fits the old and the new controls looks the same under both. */
  lemma SwitchedByte(c: Cache, k: Controls, m: Memory, a: nat)
    requires Coherent(c, m) && |k.acr| == 4 && LinesCoherent(k, c.lines, m) && a < ADDRESS_SPACE
    ensures (LineLengths(c.regions, c.lines);
             ViewAt(HiddenBy(k), c.lines, m, a) == ViewAt(HiddenBy(c.controls), c.lines, m, a))
  {
    LineLengths(c.regions, c.lines);
    var slot := Find(c.lines, LineOf(a));
    if slot < 2048 {
      assert SlotCoherent(c.controls, c.lines, m, slot) && SlotCoherent(k, c.lines, m, slot);
      SlotBounds(c.regions, c.lines, slot);
      SameLine(c.lines[slot].address, a);
    }
  }

  lemma SwitchRefines(c: Cache, m: Memory, flat: Memory, d: Cache)
    requires Tracks(c, m, flat) && IdleCache(d) && d.lines == c.lines && d.regions == c.regions
    requires LinesCoherent(d.controls, c.lines, m)
    ensures Tracks(d, m, flat)
  {
    LineLengths(c.regions, c.lines);
    forall a | 0 <= a < ADDRESS_SPACE ensures ViewAt(HiddenBy(d.controls), d.lines, m, a) == flat[a] {
      SwitchedByte(c, d.controls, m, a);
      assert ViewAt(HiddenBy(c.controls), c.lines, m, a) == flat[a];
    }
  }

  /** Reset inhibits everything, so a line fits if it is clean. */
  lemma ResetFits(c: Cache, m: Memory)
    requires Valid(c)
    ensures LinesCoherent(Controls(0, [0, 0, 0, 0]), c.lines, m) <==> ControlSafe(c, m, ResetOp)
  {
    var k := Controls(0, [0, 0, 0, 0]);
    forall s | 0 <= s < 2048 ensures SlotCoherent(k, c.lines, m, s) <==> !c.lines[s].dirty {
      assert SlotOk(c.regions, c.lines, s);
      SlotBounds(c.regions, c.lines, s);
    }
  }

  lemma ControlRefines(c: Cache, m: Memory, flat: Memory, op: Op)
    requires (op.MovecOp? || op.ResetOp?) && Tracks(c, m, flat) && Accepted(c.regions, op) && ControlSafe(c, m, op)
    ensures Refines(c, Exec(c, m, op), flat, op)
  {
    BeginOk(c, op);
    var d := Exec(c, m, op).cache;
    if op.ResetOp? {
      ResetFits(c, m);
      SwitchRefines(c, m, flat, d);
    } else {
      MovecExact(c, m, op.reg, op.value);
      if InvalidatesAll(op.reg, op.value) {
        DirtyInMemoryIsFlat(c, m, flat);
        EmptySees(HiddenBy(d.controls), d.regions, d.lines, m);
      } else {
        SwitchRefines(c, m, flat, d);
      }
    }
  }

  lemma ExecRefines(c: Cache, m: Memory, flat: Memory, op: Op)
    requires Tracks(c, m, flat) && Accepted(c.regions, op) && ControlSafe(c, m, op)
    ensures op.ReadOp? ==> op.address + op.size <= ADDRESS_SPACE
    ensures op.WriteOp? ==> op.address + |op.data| <= ADDRESS_SPACE
    ensures Refines(c, Exec(c, m, op), flat, op)
  {
    match op
    case ReadOp(_, _) => ReadRefines(c, m, flat, op);
    case WriteOp(_, _) => WriteRefines(c, m, flat, op);
    case PushOp(_, _) => PushRefines(c, m, flat, op);
    case MovecOp(_, _) => ControlRefines(c, m, flat, op);
    case ResetOp => ControlRefines(c, m, flat, op);
  }

  // ---------------------------------------------------------------- whole runs

  datatype Trace = Trace(cache: Cache, memory: Memory, results: seq<seq<Byte>>)

  predicate AllAccepted(regions: seq<Region>, ops: seq<Op>) { forall i | 0 <= i < |ops| :: Accepted(regions, ops[i]) }

  function ExecAll(c: Cache, m: Memory, ops: seq<Op>): (t: Trace)
    requires IdleCache(c) && AllAccepted(c.regions, ops)
    ensures IdleCache(t.cache) && |t.results| == |ops|
    decreases |ops|
  {
    if ops == [] then Trace(c, m, [])
    else
      var o := Exec(c, m, ops[0]);
      var rest := ExecAll(o.cache, o.memory, ops[1..]);
      rest.(results := [o.result] + rest.results)
  }

  predicate AllSafe(c: Cache, m: Memory, ops: seq<Op>)
    requires IdleCache(c) && AllAccepted(c.regions, ops)
    decreases |ops|
  {
    ops == [] ||
    (ControlSafe(c, m, ops[0]) &&
     AllSafe(Exec(c, m, ops[0]).cache, Exec(c, m, ops[0]).memory, ops[1..]))
  }

  predicate InSpace(ops: seq<Op>) {
    forall i | 0 <= i < |ops| ::
      && (ops[i].ReadOp? ==> ops[i].address + ops[i].size <= ADDRESS_SPACE)
      && (ops[i].WriteOp? ==> ops[i].address + |ops[i].data| <= ADDRESS_SPACE)
  }

  function FlatAll(flat: Memory, ops: seq<Op>): (r: (Memory, seq<seq<Byte>>))
    requires InSpace(ops)
    decreases |ops|
  {
    if ops == [] then (flat, [])
    else
      var (flat', result) := FlatExec(flat, ops[0]);
      var rest := FlatAll(flat', ops[1..]);
      (rest.0, [result] + rest.1)
  }

  lemma AcceptedRunInSpace(regions: seq<Region>, ops: seq<Op>)
    requires RegionsOk(regions) && AllAccepted(regions, ops)
    ensures InSpace(ops)
  {
    forall i | 0 <= i < |ops|
      ensures ops[i].ReadOp? ==> ops[i].address + ops[i].size <= ADDRESS_SPACE
      ensures ops[i].WriteOp? ==> ops[i].address + |ops[i].data| <= ADDRESS_SPACE
    {
      AcceptedInSpace(regions, ops[i]);
    }
  }

  lemma {:induction false} RunFromCoherent(c: Cache, m: Memory, flat: Memory, ops: seq<Op>)
    requires Tracks(c, m, flat) && AllAccepted(c.regions, ops) && AllSafe(c, m, ops)
    ensures InSpace(ops)
    ensures (var t := ExecAll(c, m, ops);
             Tracks(t.cache, t.memory, FlatAll(flat, ops).0) && t.results == FlatAll(flat, ops).1)
    decreases |ops|
  {
    AcceptedRunInSpace(c.regions, ops);
    if ops != [] {
      ExecRefines(c, m, flat, ops[0]);
      var o := Exec(c, m, ops[0]);
      RunFromCoherent(o.cache, o.memory, FlatExec(flat, ops[0]).0, ops[1..]);
    }
  }

  /** From an empty cache, every run whose control writes are safe answers every read as one flat memory
      would, and leaves the cache over memory looking like that memory. */
  lemma FlatMemoryRefinement(c: Cache, m: Memory, ops: seq<Op>)
    requires IdleCache(c) && forall s | 0 <= s < 2048 :: !c.lines[s].valid
    requires AllAccepted(c.regions, ops) && AllSafe(c, m, ops)
    ensures InSpace(ops)
    ensures ExecAll(c, m, ops).results == FlatAll(m, ops).1
    ensures Tracks(ExecAll(c, m, ops).cache, ExecAll(c, m, ops).memory, FlatAll(m, ops).0)
  {
    EmptySees(HiddenBy(c.controls), c.regions, c.lines, m);
    assert Coherent(c, m);
    RunFromCoherent(c, m, m, ops);
  }
}
