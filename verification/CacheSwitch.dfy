/** Which control writes of the window cache later runs can live with, and what goes wrong after the others. */
module CacheSwitch {
  import opened WindowCache
  import opened CacheTransactions
  import opened CacheRefinement
  import opened CacheRuns
  import opened CacheMaintenance

  /** A one-byte read about to look at its byte. */
  predicate ByteRead(d: Cache) { Stepping(d) && !d.write && d.offset == 0 && d.count == 1 && |d.bytes| == 1 }

  function View(d: Cache, m: Memory): Byte
    requires ByteRead(d)
  {
    CursorInSpace(d);
    LineLengths(d.regions, d.lines);
    ViewAt(HiddenBy(d.controls), d.lines, m, Cursor(d))
  }

  lemma HitByte(d: Cache, m: Memory)
    requires ByteRead(d) && IsHit(d)
    ensures Run(d, m).result == [View(d, m)]
  {
    HitStepKeeps(d);
    CursorHidden(d);
    LineLengths(d.regions, d.lines);
    var e := HitStep(d);
    assert ChunkSize(d) == 1 && e.offset == e.count;
    assert NextChunk(e) == Finish(e);
    assert Next(d) == NextChunk(d) == NextChunk(e);
    RunDone(d, m);
    var slot, at := Find(d.lines, LineOf(Cursor(d))), InLine(Cursor(d));
    assert d.lines[slot].bytes[at..at + 1] == [d.lines[slot].bytes[at]];
  }

  /** A miss step of a cacheable byte read: the byte under the cursor stays what it was. */
  lemma MissByte(d: Cache, m: Memory)
    requires ByteRead(d) && Find(d.lines, LineOf(Cursor(d))) == NO_SLOT && !CursorMode(d).InhibitedMode?
    ensures Next(d) == MissRequest(d) && AwaitsAnswer(d, Next(d))
    ensures (var (e, m') := Answered(d, m, Next(d));
             ByteRead(e) && Cursor(e) == Cursor(d) && CursorMode(e) == CursorMode(d) && View(e, m') == View(d, m))
  {
    RequestAwaits(d);
    MissFields(d, m);
    CursorInSpace(d);
    LineLengths(d.regions, d.lines);
    var slot := MissRequest(d).0.pendingSlot;
    assert SlotOk(d.regions, d.lines, slot);
    var (e, m') := Answered(d, m, Next(d));
    LineLengths(e.regions, e.lines);
    var la := LineOf(Cursor(d));
    if MissRequest(d).0.pending.Evict? { EvictByte(d, m); } else { FillByte(d, m); }
  }

  lemma FillByte(d: Cache, m: Memory)
    requires ByteRead(d) && Find(d.lines, LineOf(Cursor(d))) == NO_SLOT && MissRequest(d).0.pending.Fill?
             && AwaitsAnswer(d, MissRequest(d))
    ensures (var (e, m') := Answered(d, m, MissRequest(d));
             ByteRead(e) && Cursor(e) == Cursor(d) && View(e, m') == View(d, m))
  {
    MissFields(d, m);
    CursorLine(d);
    CursorParts(d);
    FilledLine(d, m);
    var (e, m') := Answered(d, m, MissRequest(d));
    LineLengths(e.regions, e.lines);
    SlotBounds(e.regions, e.lines, MissRequest(d).0.pendingSlot);
  }

  lemma FilledLine(d: Cache, m: Memory)
    requires ByteRead(d) && Find(d.lines, LineOf(Cursor(d))) == NO_SLOT && MissRequest(d).0.pending.Fill?
             && AwaitsAnswer(d, MissRequest(d))
    ensures (var (e, m') := Answered(d, m, MissRequest(d));
             var slot, la := MissRequest(d).0.pendingSlot, LineOf(Cursor(d));
             && slot < 2048 && la + 16 <= ADDRESS_SPACE && m' == m && e.controls == d.controls
             && e.lines == d.lines[slot := Line(m[la..la + 16], la, true, false)])
  {
    ActionInSpace(d, MissRequest(d).1);
  }

  lemma EvictByte(d: Cache, m: Memory)
    requires ByteRead(d) && Find(d.lines, LineOf(Cursor(d))) == NO_SLOT && MissRequest(d).0.pending.Evict?
             && AwaitsAnswer(d, MissRequest(d))
    ensures (var (e, m') := Answered(d, m, MissRequest(d));
             ByteRead(e) && Cursor(e) == Cursor(d) && View(e, m') == View(d, m))
  {
    MissFields(d, m);
    CursorInSpace(d);
    CursorParts(d);
    var slot, la, a := MissRequest(d).0.pendingSlot, LineOf(Cursor(d)), Cursor(d);
    var (e, m') := Answered(d, m, MissRequest(d));
    LineLengths(e.regions, e.lines);
    SlotBounds(d.regions, d.lines, slot);
    assert SlotOk(d.regions, d.lines, slot);
    SameLine(d.lines[slot].address, a);
    assert m'[a] == m[a];
    assert Find(e.lines, la) == NO_SLOT;
  }

  /** A cacheable byte read returns the view's byte, in any valid cache, coherent or not. */
  lemma CacheableByte(d: Cache, m: Memory)
    requires ByteRead(d) && !CursorMode(d).InhibitedMode?
    ensures Run(d, m).result == [View(d, m)]
    decreases Cost(d)
  {
    if Find(d.lines, LineOf(Cursor(d))) == NO_SLOT {
      MissByte(d, m);
      NextCost(d, m);
      RunStep(d, m);
      var (e, m') := Answered(d, m, Next(d));
      CacheableByte(e, m');
    } else {
      HitByte(d, m);
    }
  }

  /** Which byte a read returns, whatever the controls and whatever it fills or evicts. */
  lemma ByteReadIs(c: Cache, m: Memory, a: nat)
    requires IdleCache(c) && Accepted(c.regions, ReadOp(a, 1)) && a < ADDRESS_SPACE
    ensures (LineLengths(c.regions, c.lines);
             Exec(c, m, ReadOp(a, 1)).result == [ViewAt(HiddenBy(c.controls), c.lines, m, a)])
  {
    LineLengths(c.regions, c.lines);
    ModeConstantOnLine(c.controls, a, LineOf(a));
    if ModeAt(c.controls, a).InhibitedMode? { InhibitedReadIsMemory(c, m, a); } else { VisibleRead(c, m, a); }
  }

  lemma VisibleRead(c: Cache, m: Memory, a: nat)
    requires IdleCache(c) && Accepted(c.regions, ReadOp(a, 1)) && a < ADDRESS_SPACE
             && !ModeAt(c.controls, a).InhibitedMode?
    ensures (LineLengths(c.regions, c.lines);
             Exec(c, m, ReadOp(a, 1)).result == [ViewAt(HiddenBy(c.controls), c.lines, m, a)])
  {
    BeginOk(c, ReadOp(a, 1));
    CacheableByte(Begin(c, ReadOp(a, 1)).value, m);
  }

  // ---------------------------------------------------------------- runs after a control write

  /** A read, write or push the cache accepts. */
  predicate OrdinaryOp(regions: seq<Region>, op: Op) {
    && Accepted(regions, op) && !op.MovecOp? && !op.ResetOp?
    && (op.ReadOp? ==> op.address + op.size <= ADDRESS_SPACE)
       && (op.WriteOp? ==> op.address + |op.data| <= ADDRESS_SPACE)
  }

  predicate Ordinary(regions: seq<Region>, ops: seq<Op>): (r: bool)
    ensures r ==> AllAccepted(regions, ops) && InSpace(ops)
  {
    forall i {:trigger ops[i]} | 0 <= i < |ops| :: OrdinaryOp(regions, ops[i])
  }

  predicate RunsRight(d: Cache, m: Memory, flat: Memory, ops: seq<Op>)
    requires IdleCache(d) && Ordinary(d.regions, ops)
  {
    ExecAll(d, m, ops).results == FlatAll(flat, ops).1
  }

  /** Every run of reads, writes and pushes answers as flat memory would. */
  ghost predicate AlwaysRight(d: Cache, m: Memory, flat: Memory)
    requires IdleCache(d)
  {
    forall ops: seq<Op> {:trigger Ordinary(d.regions, ops)} | Ordinary(d.regions, ops) :: RunsRight(d, m, flat, ops)
  }

  lemma OrdinaryTail(regions: seq<Region>, ops: seq<Op>)
    requires Ordinary(regions, ops) && ops != []
    ensures OrdinaryOp(regions, ops[0]) && Ordinary(regions, ops[1..])
  {
  }

  lemma {:induction false} OrdinaryIsSafe(d: Cache, m: Memory, ops: seq<Op>)
    requires IdleCache(d) && Ordinary(d.regions, ops)
    ensures AllSafe(d, m, ops)
    decreases |ops|
  {
    if ops != [] {
      OrdinaryTail(d.regions, ops);
      var o := Exec(d, m, ops[0]);
      OrdinaryIsSafe(o.cache, o.memory, ops[1..]);
    }
  }

  lemma TrackedIsRight(d: Cache, m: Memory, flat: Memory)
    requires Tracks(d, m, flat)
    ensures AlwaysRight(d, m, flat)
  {
    forall ops: seq<Op> | Ordinary(d.regions, ops) ensures RunsRight(d, m, flat, ops) {
      OrdinaryIsSafe(d, m, ops);
      RunFromCoherent(d, m, flat, ops);
    }
  }

  // ---------------------------------------------------------------- runs that go wrong

  lemma OrdinaryHead(regions: seq<Region>, op: Op, rest: seq<Op>)
    requires OrdinaryOp(regions, op) && Ordinary(regions, rest)
    ensures Ordinary(regions, [op] + rest)
  {
  }

  /** A run goes right if its first command does and the rest does after it. */
  lemma RightHead(d: Cache, m: Memory, flat: Memory, op: Op, rest: seq<Op>)
    requires IdleCache(d) && OrdinaryOp(d.regions, op) && Ordinary(d.regions, rest) && Ordinary(d.regions, [op] + rest)
    ensures (var o, f := Exec(d, m, op), FlatExec(flat, op);
             RunsRight(d, m, flat, [op] + rest) <==> o.result == f.1 && RunsRight(o.cache, o.memory, f.0, rest))
  {
    var o, f, ops := Exec(d, m, op), FlatExec(flat, op), [op] + rest;
    assert ops[0] == op && ops[1..] == rest;
    var got, want := ExecAll(o.cache, o.memory, rest).results, FlatAll(f.0, rest).1;
    assert ExecAll(d, m, ops).results == [o.result] + got;
    assert FlatAll(flat, ops).1 == [f.1] + want;
    assert ([o.result] + got)[1..] == got && ([f.1] + want)[1..] == want;
  }

  lemma FlatByte(regions: seq<Region>, flat: Memory, a: nat)
    requires a < ADDRESS_SPACE && Covered(regions, a, 1)
    ensures OrdinaryOp(regions, ReadOp(a, 1)) && FlatExec(flat, ReadOp(a, 1)).1 == [flat[a]]
  {
  }

  lemma ReadResult(d: Cache, m: Memory, flat: Memory, a: nat)
    requires IdleCache(d) && a < ADDRESS_SPACE && Covered(d.regions, a, 1)
    requires (LineLengths(d.regions, d.lines); ViewAt(HiddenBy(d.controls), d.lines, m, a) != flat[a])
    ensures OrdinaryOp(d.regions, ReadOp(a, 1)) && Exec(d, m, ReadOp(a, 1)).result != FlatExec(flat, ReadOp(a, 1)).1
  {
    FlatByte(d.regions, flat, a);
    ByteReadIs(d, m, a);
    assert [flat[a]][0] == flat[a];
  }

  /** A byte that is not flat memory's is read wrong at once. */
  lemma WrongByte(d: Cache, m: Memory, flat: Memory, a: nat) returns (ops: seq<Op>)
    requires IdleCache(d) && a < ADDRESS_SPACE && Covered(d.regions, a, 1)
    requires (LineLengths(d.regions, d.lines); ViewAt(HiddenBy(d.controls), d.lines, m, a) != flat[a])
    ensures Ordinary(d.regions, ops) && !RunsRight(d, m, flat, ops)
  {
    var op := ReadOp(a, 1);
    ReadResult(d, m, flat, a);
    OrdinaryHead(d.regions, op, []);
    RightHead(d, m, flat, op, []);
    ops := [op] + [];
  }

  /** A run that goes wrong after a command, with that command in front. */
  lemma Prepend(d: Cache, m: Memory, flat: Memory, op: Op, rest: seq<Op>) returns (ops: seq<Op>)
    requires IdleCache(d) && OrdinaryOp(d.regions, op) && Ordinary(d.regions, rest)
    requires (var o := Exec(d, m, op); !RunsRight(o.cache, o.memory, FlatExec(flat, op).0, rest))
    ensures Ordinary(d.regions, ops) && !RunsRight(d, m, flat, ops)
  {
    ops := [op] + rest;
    OrdinaryHead(d.regions, op, rest);
    RightHead(d, m, flat, op, rest);
  }

  /** CPUSHL on the data cache, address register 0. */
  const DATA_PUSH: bv16 := 0xf468

  /** CPUSHL with the data selector, on the operand that selects a slot. */
  function PushSlotOp(s: nat): Op { PushOp(DATA_PUSH, (s / 4) * 16 + s % 4) }

  lemma PushSlotExact(c: Cache, m: Memory, s: nat)
    requires IdleCache(c) && s < 2048
    ensures Accepted(c.regions, PushSlotOp(s))
    ensures (var o := Exec(c, m, PushSlotOp(s));
             DirtyBounds(c, s);
             && o.cache.lines == c.lines[s := PushedLine(c.lines[s], c.controls.cacr & DDPI == 0)]
             && o.memory == PushedMemory(m, c.lines[s]) && o.cache.controls == c.controls)
  {
    OperandSelectsSlot(s);
    SelectsData();
    PushExact(c, m, DATA_PUSH, (s / 4) * 16 + s % 4);
  }

  lemma SelectsData()
    ensures PushAccepted(DATA_PUSH) && PushesData(DATA_PUSH)
  {
  }

  /** Write one byte, push slot s out, read a byte. */
  lemma WrongAfterPush(d: Cache, m: Memory, flat: Memory, a: nat, b: Byte, s: nat, x: nat) returns (ops: seq<Op>)
    requires IdleCache(d) && a < ADDRESS_SPACE && x < ADDRESS_SPACE && Covered(d.regions, a, 1)
             && Covered(d.regions, x, 1)
    requires (var o := Exec(d, m, WriteOp(a, [b]));
              var p := Exec(o.cache, o.memory, PushSlotOp(s));
              LineLengths(p.cache.regions, p.cache.lines);
              ViewAt(HiddenBy(p.cache.controls), p.cache.lines, p.memory, x) != if x == a then b else flat[x])
    ensures Ordinary(d.regions, ops) && !RunsRight(d, m, flat, ops)
  {
    var o := Exec(d, m, WriteOp(a, [b]));
    var p := Exec(o.cache, o.memory, PushSlotOp(s));
    var written: Memory := FlatExec(flat, WriteOp(a, [b])).0;
    ops := WrongByte(p.cache, p.memory, written, x);
    ops := Prepend(o.cache, o.memory, written, PushSlotOp(s), ops);
    ops := Prepend(d, m, flat, WriteOp(a, [b]), ops);
  }

  /** A one-byte inhibited write goes to memory and leaves every line as it is, resident or not. */
  lemma InhibitedByteWrite(c: Cache, m: Memory, a: nat, b: Byte)
    requires IdleCache(c) && Accepted(c.regions, WriteOp(a, [b])) && a < ADDRESS_SPACE
             && ModeAt(c.controls, a).InhibitedMode?
    ensures (var o := Exec(c, m, WriteOp(a, [b]));
             o.memory == m[a := b] && o.cache.controls == c.controls && o.cache.lines == c.lines)
  {
    var op := WriteOp(a, [b]);
    BeginOk(c, op);
    var d := Begin(c, op).value;
    assert Cursor(d) == a && CursorMode(d).InhibitedMode? && !IsHit(d);
    assert ChunkSize(d) == 1 && Chunk(d) == [b];
    RequestAwaits(d);
    RunStep(d, m);
    var (e, m') := Answered(d, m, Next(d));
    assert m' == Splice(m, a, [b]) == m[a := b];
    assert e.offset == e.count && Next(e) == Finish(e);
    RunDone(e, m');
  }

  /** The controls d has hide or lay bare the lines of c, which followed flat memory until then. */
  predicate Switched(c: Cache, d: Cache, m: Memory, flat: Memory) {
    Tracks(c, m, flat) && IdleCache(d) && d.lines == c.lines && d.regions == c.regions
  }

  /** The slot of a resident line, and a byte of it. */
  predicate ByteOf(d: Cache, s: nat, a: nat) {
    |d.lines| == 2048 && s < 2048 && d.lines[s].valid && d.lines[s].address <= a < d.lines[s].address + 16
  }

  lemma LineByte(d: Cache, s: nat, a: nat)
    requires Valid(d) && ByteOf(d, s, a)
    ensures a < ADDRESS_SPACE && Covered(d.regions, a, 1) && LineOf(a) == d.lines[s].address
            && InLine(a) == a - LineOf(a)
    ensures Find(d.lines, LineOf(a)) == s && |d.lines[s].bytes| == 16
    ensures ModeAt(d.controls, a) == ModeAt(d.controls, LineOf(a))
  {
    assert SlotOk(d.regions, d.lines, s);
    SlotBounds(d.regions, d.lines, s);
    SameLine(d.lines[s].address, a);
    ByteCovered(d, s, a - d.lines[s].address);
    ModeConstantOnLine(d.controls, a, LineOf(a));
  }

  /** A line that is not in memory has a byte that is not. */
  lemma DifferingByte(d: Cache, m: Memory, s: nat) returns (a: nat)
    requires Valid(d) && s < 2048 && d.lines[s].valid && !InMemory(d.lines[s], m)
    ensures ByteOf(d, s, a) && a < ADDRESS_SPACE && |d.lines[s].bytes| == 16
            && d.lines[s].bytes[a - d.lines[s].address] != m[a]
  {
    SlotBounds(d.regions, d.lines, s);
    var la := d.lines[s].address;
    var i :| 0 <= i < 16 && d.lines[s].bytes[i] != m[la..la + 16][i];
    a := la + i;
  }

  /** Pushing a dirty hidden line shows its bytes in memory. */
  lemma PushShows(e: Cache, m: Memory, s: nat, a: nat)
    requires IdleCache(e) && ByteOf(e, s, a) && e.lines[s].dirty && HiddenBy(e.controls)(e.lines[s].address)
    requires a < ADDRESS_SPACE && |e.lines[s].bytes| == 16
    ensures (var p := Exec(e, m, PushSlotOp(s));
             LineLengths(p.cache.regions, p.cache.lines);
             ViewAt(HiddenBy(p.cache.controls), p.cache.lines, p.memory, a) == e.lines[s].bytes[a - e.lines[s].address])
  {
    LineByte(e, s, a);
    PushSlotExact(e, m, s);
    var p := Exec(e, m, PushSlotOp(s));
    LineLengths(p.cache.regions, p.cache.lines);
    assert p.memory == Splice(m, e.lines[s].address, e.lines[s].bytes);
  }

  /** An inhibited byte written past a dirty line is lost when the line is pushed. */
  lemma OverwrittenByPush(d: Cache, m: Memory, s: nat, a: nat, b: Byte)
    requires IdleCache(d) && ByteOf(d, s, a) && d.lines[s].dirty && HiddenBy(d.controls)(d.lines[s].address)
    requires a < ADDRESS_SPACE && Covered(d.regions, a, 1) && |d.lines[s].bytes| == 16
    ensures (var o := Exec(d, m, WriteOp(a, [b]));
             var p := Exec(o.cache, o.memory, PushSlotOp(s));
             LineLengths(p.cache.regions, p.cache.lines);
             ViewAt(HiddenBy(p.cache.controls), p.cache.lines, p.memory, a) == d.lines[s].bytes[a - d.lines[s].address])
  {
    LineByte(d, s, a);
    InhibitedByteWrite(d, m, a, b);
    var o := Exec(d, m, WriteOp(a, [b]));
    PushShows(o.cache, o.memory, s, a);
  }

  /** Dirty and now inhibited: write a byte, push the line, and the byte reads as it was. */
  lemma DirtyInhibitedFails(d: Cache, m: Memory, flat: Memory, s: nat) returns (ops: seq<Op>)
    requires IdleCache(d) && s < 2048 && d.lines[s].dirty && HiddenBy(d.controls)(d.lines[s].address)
    ensures Ordinary(d.regions, ops) && !RunsRight(d, m, flat, ops)
  {
    DirtyBounds(d, s);
    var a := d.lines[s].address;
    LineByte(d, s, a);
    var b: Byte := if d.lines[s].bytes[0] == 0 then 1 else 0;
    OverwrittenByPush(d, m, s, a, b);
    ops := WrongAfterPush(d, m, flat, a, b, s, a);
  }

  /** The other bytes of a line written through and pushed out are memory's. */
  lemma FallsBack(d: Cache, m: Memory, s: nat, a: nat, b: Byte, x: nat)
    requires IdleCache(d) && ByteOf(d, s, a) && ByteOf(d, s, x) && x != a && a < ADDRESS_SPACE && x < ADDRESS_SPACE
    requires ModeAt(d.controls, a).ThroughMode? && d.controls.cacr & DDPI == 0 && Covered(d.regions, a, 1)
    ensures (var o := Exec(d, m, WriteOp(a, [b]));
             var p := Exec(o.cache, o.memory, PushSlotOp(s));
             LineLengths(p.cache.regions, p.cache.lines);
             ViewAt(HiddenBy(p.cache.controls), p.cache.lines, p.memory, x) == m[x])
  {
    LineByte(d, s, a);
    LineByte(d, s, x);
    OperandSelectsSlot(s);
    SelectsData();
    ThroughSwitchLosesDirtyBytes(d, m, a, b, DATA_PUSH, (s / 4) * 16 + s % 4, x);
  }

  /** Dirty, now write-through, and not in memory: write another byte, push the line out, and a byte falls back to
      memory. */
  lemma DirtyThroughFails(c: Cache, d: Cache, m: Memory, flat: Memory, s: nat) returns (ops: seq<Op>)
    requires Switched(c, d, m, flat) && s < 2048 && d.lines[s].dirty && !InMemory(d.lines[s], m)
    requires d.lines[s].address < ADDRESS_SPACE && ModeAt(d.controls, d.lines[s].address).ThroughMode?
    requires d.controls.cacr & DDPI == 0
    ensures Ordinary(d.regions, ops) && !RunsRight(d, m, flat, ops)
  {
    var x := LostByte(c, d, m, flat, s);
    var a := if x == d.lines[s].address then x + 1 else d.lines[s].address;
    LineByte(d, s, x);
    LineByte(d, s, a);
    FallsBack(d, m, s, a, 0, x);
    ops := WrongAfterPush(d, m, flat, a, 0, s, x);
  }

  lemma LostByte(c: Cache, d: Cache, m: Memory, flat: Memory, s: nat) returns (x: nat)
    requires Switched(c, d, m, flat) && s < 2048 && d.lines[s].dirty && !InMemory(d.lines[s], m)
    ensures ByteOf(d, s, x) && x < ADDRESS_SPACE && flat[x] != m[x]
  {
    DirtyIsView(c, m, flat, s);
    x := FlatDiffers(d, m, flat, s);
  }

  lemma FlatDiffers(d: Cache, m: Memory, flat: Memory, s: nat) returns (x: nat)
    requires Valid(d) && s < 2048 && d.lines[s].valid && InMemory(d.lines[s], flat) && !InMemory(d.lines[s], m)
    ensures ByteOf(d, s, x) && x < ADDRESS_SPACE && flat[x] != m[x]
  {
    var la := d.lines[s].address;
    x := DifferingByte(d, m, s);
    assert flat[la..la + 16][x - la] == flat[x];
  }

  /** Clean, laid bare, and not in memory: a byte of the line is read at once. */
  lemma StaleFails(c: Cache, d: Cache, m: Memory, flat: Memory, s: nat) returns (ops: seq<Op>)
    requires Switched(c, d, m, flat) && s < 2048 && d.lines[s].valid && !d.lines[s].dirty && !InMemory(d.lines[s], m)
    requires !HiddenBy(d.controls)(d.lines[s].address)
    ensures Ordinary(d.regions, ops) && !RunsRight(d, m, flat, ops)
  {
    var x := DifferingByte(d, m, s);
    LineByte(d, s, x);
    LineLengths(d.regions, d.lines);
    assert SlotCoherent(c.controls, c.lines, m, s) && HiddenBy(c.controls)(c.lines[s].address);
    assert ViewAt(HiddenBy(c.controls), c.lines, m, x) == flat[x] == m[x];
    ops := WrongByte(d, m, flat, x);
  }

  /** A dirty line that is not in memory is written through from now on, and pushes retain it: whether its bytes are
      ever lost depends on what can displace it. */
  predicate Retained(k: Controls, l: Line, m: Memory)
    requires |k.acr| == 4
  {
    k.cacr & DDPI != 0 && l.dirty && !InMemory(l, m) && l.address < ADDRESS_SPACE && ModeAt(k, l.address).ThroughMode?
  }

  /** Every line the new controls do not fit makes some run go wrong. */
  lemma MisfitFails(c: Cache, d: Cache, m: Memory, flat: Memory, s: nat) returns (ops: seq<Op>)
    requires Switched(c, d, m, flat) && s < 2048 && !SlotCoherent(d.controls, d.lines, m, s)
             && !Retained(d.controls, d.lines[s], m)
    ensures Ordinary(d.regions, ops) && !RunsRight(d, m, flat, ops)
  {
    SlotBounds(d.regions, d.lines, s);
    if HiddenBy(d.controls)(d.lines[s].address) {
      ops := DirtyInhibitedFails(d, m, flat, s);
    } else if d.lines[s].dirty {
      ops := DirtyThroughFails(c, d, m, flat, s);
    } else {
      ops := StaleFails(c, d, m, flat, s);
    }
  }

  /** A dropped dirty line that is not in memory is read wrong at once. */
  lemma DroppedFails(c: Cache, m: Memory, flat: Memory, d: Cache, s: nat) returns (ops: seq<Op>)
    requires Tracks(c, m, flat) && s < 2048 && c.lines[s].dirty && !InMemory(c.lines[s], m)
    requires IdleCache(d) && d.regions == c.regions && forall i | 0 <= i < 2048 :: !d.lines[i].valid
    ensures Ordinary(d.regions, ops) && !RunsRight(d, m, flat, ops)
  {
    var x := LostByte(c, c, m, flat, s);
    LineByte(c, s, x);
    LineLengths(d.regions, d.lines);
    ops := WrongByte(d, m, flat, x);
  }

  // ---------------------------------------------------------------- exactly which control writes are safe

  predicate NoneRetained(d: Cache, m: Memory)
    requires Valid(d)
  {
    forall s | 0 <= s < 2048 :: !Retained(d.controls, d.lines[s], m)
  }

  lemma UnsafeFails(c: Cache, m: Memory, flat: Memory, op: Op) returns (ops: seq<Op>)
    requires Tracks(c, m, flat) && (op.MovecOp? || op.ResetOp?) && Accepted(c.regions, op) && !ControlSafe(c, m, op)
    requires NoneRetained(Exec(c, m, op).cache, m)
    ensures (var d := Exec(c, m, op).cache; Ordinary(d.regions, ops) && !RunsRight(d, m, flat, ops))
  {
    BeginOk(c, op);
    var d := Exec(c, m, op).cache;
    if op.MovecOp? { MovecExact(c, m, op.reg, op.value); } else { ResetFits(c, m); }
    if op.MovecOp? && InvalidatesAll(op.reg, op.value) {
      var s :| 0 <= s < 2048 && c.lines[s].dirty && !InMemory(c.lines[s], m);
      ops := DroppedFails(c, m, flat, d, s);
    } else {
      var s :| 0 <= s < 2048 && !SlotCoherent(d.controls, c.lines, m, s);
      ops := MisfitFails(c, d, m, flat, s);
    }
  }

  /** After a control write every run of reads, writes and pushes answers as flat memory would if each resident line
      fits the new controls (or, if all lines are dropped, each dirty one is in memory). If the new controls do not
      make pushes retain their lines, or there is no dirty line for which that matters, then also only if. */
  lemma ControlWriteExact(c: Cache, m: Memory, flat: Memory, op: Op)
    requires Tracks(c, m, flat) && (op.MovecOp? || op.ResetOp?) && Accepted(c.regions, op)
    ensures ControlSafe(c, m, op) ==> AlwaysRight(Exec(c, m, op).cache, m, flat)
    ensures (var d := Exec(c, m, op).cache;
             d.controls.cacr & DDPI == 0 || NoneRetained(d, m) ==> (AlwaysRight(d, m, flat) <==> ControlSafe(c, m, op)))
  {
    var d := Exec(c, m, op).cache;
    if ControlSafe(c, m, op) {
      ControlRefines(c, m, flat, op);
      TrackedIsRight(d, m, flat);
    } else if d.controls.cacr & DDPI == 0 || NoneRetained(d, m) {
      var ops := UnsafeFails(c, m, flat, op);
      assert Ordinary(d.regions, ops);
    }
  }
}
