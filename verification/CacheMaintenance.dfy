/** CPUSHL sweeps, and exactly what invalidates and mode switches may lose. */
module CacheMaintenance {
  import opened WindowCache
  import opened CacheTransactions
  import opened CacheRefinement
  import opened CacheRuns

  // ---------------------------------------------------------------- the sweep

  function PushedSlots(operands: seq<nat>): set<nat> { set i | 0 <= i < |operands| :: PushSlot(operands[i]) }

  /** CPUSHL on each operand in turn. */
  function Sweep(c: Cache, m: Memory, instruction: bv16, operands: seq<nat>): (r: (Cache, Memory))
    requires IdleCache(c) && PushAccepted(instruction)
    ensures IdleCache(r.0)
    decreases |operands|
  {
    if operands == [] then (c, m)
    else
      var o := Exec(c, m, PushOp(instruction, operands[0]));
      Sweep(o.cache, o.memory, instruction, operands[1..])
  }

  /** The byte at `a` once the dirty lines among `slots` are in memory. */
  function SweptByte(c: Cache, m: Memory, slots: set<nat>, a: nat): Byte
    requires Valid(c) && a < ADDRESS_SPACE
  {
    LineLengths(c.regions, c.lines);
    var s := Find(c.lines, LineOf(a));
    if s < 2048 && s in slots && c.lines[s].dirty then c.lines[s].bytes[InLine(a)] else m[a]
  }

  predicate SweptTo(c: Cache, m: Memory, slots: set<nat>, d: Cache, m': Memory) {
    && Valid(c) && Valid(d) && d.controls == c.controls && d.regions == c.regions
    && (forall s {:trigger d.lines[s]} | 0 <= s < 2048 ::
          d.lines[s] == if s in slots then PushedLine(c.lines[s], c.controls.cacr & DDPI == 0) else c.lines[s])
    && (forall a {:trigger m'[a]} | 0 <= a < ADDRESS_SPACE :: m'[a] == SweptByte(c, m, slots, a))
  }

  /** A push brings no line in. */
  lemma PushFindsNoMore(c: Cache, p: nat, d: Cache, la: nat)
    requires Valid(c) && Valid(d) && p < 2048
             && d.lines == c.lines[p := PushedLine(c.lines[p], c.controls.cacr & DDPI == 0)]
    ensures Find(d.lines, la) in {NO_SLOT, Find(c.lines, la)}
  {
    var s, t := Find(c.lines, la), Find(d.lines, la);
    if t < 2048 {
      assert SlotOk(c.regions, c.lines, t) && Holds(c.lines[t], la);
      assert s < 2048 && SlotOk(c.regions, c.lines, s);
    }
  }

  /** One push, seen from any address. */
  lemma PushedByte(c: Cache, m: Memory, p: nat, d: Cache, slots: set<nat>, a: nat)
    requires Valid(c) && Valid(d) && p < 2048 && a < ADDRESS_SPACE && d.regions == c.regions
    requires d.lines == c.lines[p := PushedLine(c.lines[p], c.controls.cacr & DDPI == 0)]
    ensures (DirtyBounds(c, p);
             SweptByte(d, PushedMemory(m, c.lines[p]), slots, a) == SweptByte(c, m, slots + {p}, a))
  {
    DirtyBounds(c, p);
    LineLengths(c.regions, c.lines);
    LineLengths(d.regions, d.lines);
    var la := LineOf(a);
    var s, t := Find(c.lines, la), Find(d.lines, la);
    assert SlotOk(c.regions, c.lines, p) && SlotOk(d.regions, d.lines, p);
    if c.lines[p].dirty { SameLine(c.lines[p].address, a); }
    if s < 2048 && s != p {
      assert SlotOk(c.regions, c.lines, s) && SlotOk(d.regions, d.lines, s);
      assert t == s;
    } else {
      PushFindsNoMore(c, p, d, la);
    }
  }

  /** A sweep cleans exactly its slots and writes exactly their dirty lines, in any order and with repeats. */
  lemma {:induction false} SweepExact(c: Cache, m: Memory, instruction: bv16, operands: seq<nat>)
    requires IdleCache(c) && PushAccepted(instruction) && PushesData(instruction)
    ensures (var (d, m') := Sweep(c, m, instruction, operands); SweptTo(c, m, PushedSlots(operands), d, m'))
    decreases |operands|
  {
    if operands != [] {
      var p, rest := PushSlot(operands[0]), operands[1..];
      var o := Exec(c, m, PushOp(instruction, operands[0]));
      PushExact(c, m, instruction, operands[0]);
      DirtyBounds(c, p);
      SweepExact(o.cache, o.memory, instruction, rest);
      var (d, m') := Sweep(c, m, instruction, operands);
      assert PushedSlots(operands) == PushedSlots(rest) + {p} by {
        assert operands[0] in operands && forall i | 0 <= i < |rest| :: rest[i] == operands[i + 1];
        assert forall i | 1 <= i < |operands| :: operands[i] == rest[i - 1];
      }
      forall a | 0 <= a < ADDRESS_SPACE ensures m'[a] == SweptByte(c, m, PushedSlots(operands), a) {
        PushedByte(c, m, p, o.cache, PushedSlots(rest), a);
      }
    }
  }

  /** The 2048 set/way operands of a full sweep. */
  function AllOperands(): seq<nat> { seq(2048, s requires 0 <= s < 2048 => (s / 4) * 16 + s % 4) }

  lemma OperandSelectsSlot(s: nat)
    requires s < 2048
    ensures PushSlot((s / 4) * 16 + s % 4) == s
  {
    assert ((s / 4) * 16 + s % 4) / 16 == s / 4;
  }

  /** The byte at `a` once every dirty line is in memory. */
  function FlushedByte(c: Cache, m: Memory, a: nat): Byte
    requires Valid(c) && a < ADDRESS_SPACE
  {
    LineLengths(c.regions, c.lines);
    var s := Find(c.lines, LineOf(a));
    if s < 2048 && c.lines[s].dirty then c.lines[s].bytes[InLine(a)] else m[a]
  }

  lemma FlushedIsView(c: Cache, m: Memory, flat: Memory, a: nat)
    requires Coherent(c, m) && Sees(HiddenBy(c.controls), c.regions, c.lines, m, flat) && a < ADDRESS_SPACE
    ensures FlushedByte(c, m, a) == flat[a]
  {
    LineLengths(c.regions, c.lines);
    assert ViewAt(HiddenBy(c.controls), c.lines, m, a) == flat[a];
    var s := Find(c.lines, LineOf(a));
    if s < 2048 {
      assert SlotCoherent(c.controls, c.lines, m, s);
      SlotBounds(c.regions, c.lines, s);
      SameLine(c.lines[s].address, a);
    }
  }

  /** The operands reach every slot, in any order. */
  predicate CoversAllSlots(operands: seq<nat>) { forall s | 0 <= s < 2048 :: s in PushedSlots(operands) }

  lemma AllOperandsCover()
    ensures CoversAllSlots(AllOperands())
  {
    var all := AllOperands();
    forall s | 0 <= s < 2048 ensures s in PushedSlots(all) {
      OperandSelectsSlot(s);
      assert PushSlot(all[s]) == s;
    }
  }

  /** No line is dirty, memory holds every formerly dirty line and is unchanged elsewhere. */
  predicate FlushedTo(c: Cache, m: Memory, d: Cache, m': Memory) {
    && Valid(c) && |d.lines| == 2048
    && (forall s | 0 <= s < 2048 :: !d.lines[s].dirty)
    && (forall a {:trigger m'[a]} | 0 <= a < ADDRESS_SPACE :: m'[a] == FlushedByte(c, m, a))
  }

  /** After CPUSHL on all 2048 set/way operands no line is dirty, and memory holds every formerly dirty line
      and is unchanged elsewhere, whatever the enable bit. */
  lemma FlushSweep(c: Cache, m: Memory, instruction: bv16, operands: seq<nat>)
    requires IdleCache(c) && PushAccepted(instruction) && PushesData(instruction) && CoversAllSlots(operands)
    ensures FlushedTo(c, m, Sweep(c, m, instruction, operands).0, Sweep(c, m, instruction, operands).1)
  {
    SweepExact(c, m, instruction, operands);
    var (d, m') := Sweep(c, m, instruction, operands);
    forall a | 0 <= a < ADDRESS_SPACE ensures m'[a] == FlushedByte(c, m, a) {
      assert m'[a] == SweptByte(c, m, PushedSlots(operands), a);
    }
  }

  /** If clean lines agreed with memory, the swept memory is the combined view everywhere. */
  lemma FlushSweepIsView(c: Cache, m: Memory, flat: Memory, instruction: bv16, operands: seq<nat>)
    requires Tracks(c, m, flat) && PushAccepted(instruction) && PushesData(instruction) && CoversAllSlots(operands)
    ensures Sweep(c, m, instruction, operands).1 == flat
  {
    FlushSweep(c, m, instruction, operands);
    var m' := Sweep(c, m, instruction, operands).1;
    forall a | 0 <= a < ADDRESS_SPACE ensures m'[a] == flat[a] {
      FlushedIsView(c, m, flat, a);
      assert m'[a] == FlushedByte(c, m, a);
    }
  }

  // ---------------------------------------------------------------- what an invalidate loses

  /** The bytes of a resident line that is not hidden are the view. */
  lemma ResidentIsView(c: Cache, m: Memory, flat: Memory, s: nat)
    requires Valid(c) && Sees(HiddenBy(c.controls), c.regions, c.lines, m, flat)
    requires s < 2048 && c.lines[s].valid && !HiddenBy(c.controls)(c.lines[s].address)
    ensures InMemory(c.lines[s], flat)
  {
    assert SlotOk(c.regions, c.lines, s);
    SlotBounds(c.regions, c.lines, s);
    ViewOfChunk(HiddenBy(c.controls), c.regions, c.lines, m, flat, c.lines[s].address, 0, 16);
    assert c.lines[s].bytes[0..16] == c.lines[s].bytes;
  }

  /** So are those of a dirty line, which coherence does not let be hidden. */
  lemma DirtyIsView(c: Cache, m: Memory, flat: Memory, s: nat)
    requires Tracks(c, m, flat) && s < 2048 && c.lines[s].dirty
    ensures c.lines[s].valid && |c.lines[s].bytes| == 16 && InMemory(c.lines[s], flat)
  {
    DirtyBounds(c, s);
    assert SlotCoherent(c.controls, c.lines, m, s);
    ResidentIsView(c, m, flat, s);
  }

  lemma EmptySeesOnlyMemory(hidden: Hiding, regions: seq<Region>, lines: seq<Line>, m: Memory, flat: Memory)
    requires LinesOk(regions, lines) && Sees(hidden, regions, lines, m, flat)
             && forall s | 0 <= s < 2048 :: !lines[s].valid
    ensures m == flat
  {
    LineLengths(regions, lines);
    forall a | 0 <= a < ADDRESS_SPACE ensures m[a] == flat[a] { assert ViewAt(hidden, lines, m, a) == flat[a]; }
  }

  /** A whole-cache invalidate keeps the view exactly when every dirty line already equals memory. */
  lemma InvalidateLosesExactlyDirtyBytes(c: Cache, m: Memory, flat: Memory, value: bv32)
    requires Tracks(c, m, flat) && MovecAccepted(2, value) && InvalidatesAll(2, value)
    ensures (var d := Exec(c, m, MovecOp(2, value)).cache;
             Sees(HiddenBy(d.controls), d.regions, d.lines, m, flat)
             <==> forall s | 0 <= s < 2048 && c.lines[s].dirty :: InMemory(c.lines[s], m))
  {
    var d := Exec(c, m, MovecOp(2, value)).cache;
    MovecExact(c, m, 2, value);
    if Sees(HiddenBy(d.controls), d.regions, d.lines, m, flat) {
      EmptySeesOnlyMemory(HiddenBy(d.controls), d.regions, d.lines, m, flat);
      forall s | 0 <= s < 2048 && c.lines[s].dirty ensures InMemory(c.lines[s], m) {
        DirtyIsView(c, m, flat, s);
      }
    }
    if forall s | 0 <= s < 2048 && c.lines[s].dirty :: InMemory(c.lines[s], m) {
      DirtyInMemoryIsFlat(c, m, flat);
      EmptySees(HiddenBy(d.controls), d.regions, d.lines, m);
    }
  }

  // ---------------------------------------------------------------- what a mode switch loses

  /** A one-byte inhibited read answers from memory even when the line is resident. */
  lemma InhibitedReadIsMemory(c: Cache, m: Memory, a: nat)
    requires IdleCache(c) && Accepted(c.regions, ReadOp(a, 1)) && a < ADDRESS_SPACE
    requires ModeAt(c.controls, a).InhibitedMode?
    ensures Exec(c, m, ReadOp(a, 1)).result == [m[a]]
  {
    var op := ReadOp(a, 1);
    BeginOk(c, op);
    var d := Begin(c, op).value;
    assert Cursor(d) == a && CursorMode(d).InhibitedMode? && !IsHit(d);
    assert ChunkSize(d) == 1;
    RequestAwaits(d);
    RunStep(d, m);
    var (e, m') := Answered(d, m, Next(d));
    assert e.offset == e.count && Next(e) == Finish(e) && e.bytes == [m[a]];
    RunDone(e, m');
  }

  lemma ByteCovered(c: Cache, s: nat, i: nat)
    requires Valid(c) && s < 2048 && c.lines[s].valid && i < 16
    ensures Covered(c.regions, c.lines[s].address + i, 1)
  {
    assert SlotOk(c.regions, c.lines, s);
    var j :| 0 <= j < |c.regions| && c.regions[j].base <= c.lines[s].address
             && c.lines[s].address + 16 <= c.regions[j].base + c.regions[j].size;
    var a := c.lines[s].address + i;
    assert c.regions[j].base <= a && a + 1 <= c.regions[j].base + c.regions[j].size;
  }

  lemma ResidentByte(c: Cache, m: Memory, flat: Memory, s: nat, i: nat)
    requires Tracks(c, m, flat) && s < 2048 && c.lines[s].valid && i < 16 && c.lines[s].address + 16 <= ADDRESS_SPACE
    requires !HiddenBy(c.controls)(c.lines[s].address)
    ensures |c.lines[s].bytes| == 16 && c.lines[s].bytes[i] == flat[c.lines[s].address + i]
    ensures Covered(c.regions, c.lines[s].address + i, 1)
  {
    ByteCovered(c, s, i);
    ResidentIsView(c, m, flat, s);
    assert flat[c.lines[s].address..c.lines[s].address + 16][i] == flat[c.lines[s].address + i];
  }

  lemma StaleByte(d: Cache, m: Memory, flat: Memory, a: nat)
    requires IdleCache(d) && a < ADDRESS_SPACE && Covered(d.regions, a, 1) && ModeAt(d.controls, a).InhibitedMode?
             && m[a] != flat[a]
    ensures Accepted(d.regions, ReadOp(a, 1)) && Exec(d, m, ReadOp(a, 1)).result != FlatExec(flat, ReadOp(a, 1)).1
  {
    InhibitedReadIsMemory(d, m, a);
  }

  /** Switching a visible line that differs from memory to the inhibited mode makes the next read of a
      differing byte wrong, so the restriction on control writes is needed. */
  lemma StaleInhibitedRead(c: Cache, m: Memory, flat: Memory, reg: nat, value: bv32, s: nat, i: nat)
    requires Tracks(c, m, flat) && MovecAccepted(reg, value) && !InvalidatesAll(reg, value)
    requires s < 2048 && c.lines[s].valid && i < 16 && |c.lines[s].bytes| == 16
             && c.lines[s].address + 16 <= ADDRESS_SPACE
    requires !HiddenBy(c.controls)(c.lines[s].address)
    requires ModeAt(ControlsAfter(c.controls, reg, value), c.lines[s].address + i).InhibitedMode?
    requires c.lines[s].bytes[i] != m[c.lines[s].address + i]
    ensures (var d := Exec(c, m, MovecOp(reg, value)).cache;
             var op := ReadOp(c.lines[s].address + i, 1);
             Accepted(d.regions, op) && Exec(d, m, op).result != FlatExec(flat, op).1)
  {
    MovecExact(c, m, reg, value);
    ResidentByte(c, m, flat, s, i);
    StaleByte(Exec(c, m, MovecOp(reg, value)).cache, m, flat, c.lines[s].address + i);
  }

  /** A one-byte write-through write to a resident line clears its dirty bit and sends only that byte. */
  lemma ThroughByteWrite(c: Cache, m: Memory, a: nat, b: Byte)
    requires IdleCache(c) && Accepted(c.regions, WriteOp(a, [b])) && a < ADDRESS_SPACE
    requires ModeAt(c.controls, a).ThroughMode? && Find(c.lines, LineOf(a)) < 2048
    ensures (var o, slot := Exec(c, m, WriteOp(a, [b])), Find(c.lines, LineOf(a));
             && o.memory == m[a := b]
             && o.cache.controls == c.controls
             && (forall s | 0 <= s < 2048 && s != slot :: o.cache.lines[s] == c.lines[s])
             && o.cache.lines[slot].address == c.lines[slot].address
             && o.cache.lines[slot].valid && !o.cache.lines[slot].dirty)
  {
    var op := WriteOp(a, [b]);
    BeginOk(c, op);
    var d := Begin(c, op).value;
    assert Cursor(d) == a && CursorMode(d).ThroughMode? && !IsHit(d);
    assert ChunkSize(d) == 1 && Chunk(d) == [b];
    RequestAwaits(d);
    RunStep(d, m);
    var (e, m') := Answered(d, m, Next(d));
    assert m' == Splice(m, a, [b]) == m[a := b];
    assert e.offset == e.count && Next(e) == Finish(e);
    RunDone(e, m');
  }

  /** Pushing a clean line out of a cache without DDPI leaves only memory's bytes in view. */
  lemma PushedOutIsMemory(c: Cache, m: Memory, slot: nat, instruction: bv16, operand: nat, a: nat)
    requires IdleCache(c) && slot < 2048 && c.lines[slot].valid && !c.lines[slot].dirty && PushSlot(operand) == slot
    requires c.controls.cacr & DDPI == 0 && PushAccepted(instruction) && PushesData(instruction)
    requires a < ADDRESS_SPACE && LineOf(a) == c.lines[slot].address
    ensures (var p := Exec(c, m, PushOp(instruction, operand));
             LineLengths(p.cache.regions, p.cache.lines);
             ViewAt(HiddenBy(p.cache.controls), p.cache.lines, p.memory, a) == m[a])
  {
    PushExact(c, m, instruction, operand);
    var p := Exec(c, m, PushOp(instruction, operand));
    LineLengths(p.cache.regions, p.cache.lines);
    assert SlotOk(c.regions, c.lines, slot);
    forall s | 0 <= s < 2048 && Holds(c.lines[s], LineOf(a)) ensures s == slot {
      assert SlotOk(c.regions, c.lines, s);
    }
    assert Find(p.cache.lines, LineOf(a)) == NO_SLOT;
  }

  /** Writing one byte of a dirty line through, after its mode was switched, and then pushing the line out
      loses every other byte that was not yet in memory. */
  lemma ThroughSwitchLosesDirtyBytes(c: Cache, m: Memory, a: nat, b: Byte, instruction: bv16, operand: nat, other: nat)
    requires IdleCache(c) && Accepted(c.regions, WriteOp(a, [b])) && a < ADDRESS_SPACE
    requires ModeAt(c.controls, a).ThroughMode? && Find(c.lines, LineOf(a)) == PushSlot(operand)
    requires c.controls.cacr & DDPI == 0 && PushAccepted(instruction) && PushesData(instruction)
    requires other != a && other < ADDRESS_SPACE && LineOf(other) == LineOf(a)
    ensures (var o := Exec(c, m, WriteOp(a, [b]));
             var p := Exec(o.cache, o.memory, PushOp(instruction, operand));
             LineLengths(p.cache.regions, p.cache.lines);
             ViewAt(HiddenBy(p.cache.controls), p.cache.lines, p.memory, other) == m[other])
  {
    var o := Exec(c, m, WriteOp(a, [b]));
    ThroughByteWrite(c, m, a, b);
    PushedOutIsMemory(o.cache, o.memory, PushSlot(operand), instruction, operand, other);
  }
}
