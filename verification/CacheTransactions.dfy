/** Whole cache transactions: next() and complete() driven to the end by the backing memory,
    as serviceWindowCache does (src/quetzcpu_mmio_sync.cc:269-312), and how many requests they make. */
module CacheTransactions {
  import opened WindowCache

  type Memory = m: seq<Byte> | |m| == ADDRESS_SPACE witness seq(ADDRESS_SPACE, i => 0)

  /** The backing memory serving one request. */
  function Perform(m: Memory, a: Action): (r: (Memory, seq<Byte>))
    requires a.Read? ==> a.address + a.size <= ADDRESS_SPACE
    requires a.Write? ==> a.address + |a.bytes| <= ADDRESS_SPACE
  {
    match a
    case Done(_) => (m, [])
    case Read(address, size) => (m, m[address..address + size])
    case Write(address, bytes) => (Splice(m, address, bytes), [])
  }

  lemma ActionInSpace(c: Cache, a: Action)
    requires Valid(c) && ActionOk(c, a)
    ensures a.Read? ==> a.address + a.size <= ADDRESS_SPACE
    ensures a.Write? ==> a.address + |a.bytes| <= ADDRESS_SPACE
  {
    match a
    case Done(_) =>
    case Read(address, size) => CoveredBounds(c.regions, address, size);
    case Write(address, bytes) => CoveredBounds(c.regions, address, |bytes|);
  }

  /** A transaction with no request outstanding. */
  predicate Running(c: Cache) { Valid(c) && c.active && c.pending.Idle? }

  /** Memory serves the request r made in state c and the cache takes the answer. */
  function Answered(c: Cache, m: Memory, r: (Cache, Action)): (e: (Cache, Memory))
    requires Valid(c) && AwaitsAnswer(c, r)
    ensures Running(e.0) && e.0.regions == r.0.regions && e.0.controls == r.0.controls
  {
    ActionInSpace(c, r.1);
    var (m', answer) := Perform(m, r.1);
    CompleteKeepsStructure(r.0, answer);
    (Complete(r.0, answer), m')
  }

  // ---------------------------------------------------------------- how much backing traffic is left

  /** Backing requests the chunk under the cursor still needs. */
  function ChunkCost(c: Cache): nat
    requires Stepping(c) && c.offset < c.count
  {
    var la := LineOf(Cursor(c));
    var slot := Find(c.lines, la);
    if Bypasses(CursorMode(c), c.write, slot < 2048) then 1
    else if slot == NO_SLOT then
      (if c.lines[Victim(c.lines, c.controls, c.replacement, SetIndex(la))].dirty then 2 else 1)
    else if IsHit(c) then 0
    else 1
  }

  /** Backing requests the transaction still needs at most: two for a chunk not yet reached. */
  function Cost(c: Cache): (n: nat)
    requires Running(c)
    ensures n <= 4 && (c.pushing ==> n <= 1) && (!c.pushing && c.offset == c.count ==> n == 0)
  {
    if c.pushing then (if c.lines[c.pendingSlot].dirty then 1 else 0)
    else if c.offset == c.count then 0
    else ChunkCost(c) + (if ChunkSize(c) < c.count - c.offset then 2 else 0)
  }

  /** After the first chunk of an access of at most 8 bytes only one more line is touched. */
  lemma LastChunk(cursor: nat, left: nat)
    requires left <= 8 && ChunkAt(cursor, left) < left
    ensures InLine(cursor + ChunkAt(cursor, left)) == 0
    ensures ChunkAt(cursor + ChunkAt(cursor, left), left - ChunkAt(cursor, left)) == left - ChunkAt(cursor, left)
  {
  }

  /** Moving the cursor past a chunk leaves at most the two requests set aside for the next one. */
  lemma AdvancedCost(c: Cache, d: Cache)
    requires Stepping(c) && c.offset < c.count && Stepping(d)
    requires d.offset == c.offset + ChunkSize(c) && d.address == c.address && d.count == c.count
    ensures Cost(d) <= if ChunkSize(c) < c.count - c.offset then 2 else 0
  {
    if ChunkSize(c) < c.count - c.offset {
      LastChunk(Cursor(c), c.count - c.offset);
      assert Cursor(d) == Cursor(c) + ChunkSize(c);
      assert ChunkSize(d) == d.count - d.offset;
    }
  }

  /** With or without way locking, the slot freed by an eviction is the one the refill then takes. */
  lemma VictimIsTheSlotJustFreed(c: Cache)
    requires Stepping(c) && c.offset < c.count
    requires MissRequest(c).0.pending.Evict?
    ensures (var slot := MissRequest(c).0.pendingSlot;
             var freed := c.lines[slot := c.lines[slot].(dirty := false, valid := false)];
             Victim(freed, c.controls, c.replacement, SetIndex(LineOf(Cursor(c)))) == slot)
  {
    var set_ := SetIndex(LineOf(Cursor(c)));
    var slot := MissRequest(c).0.pendingSlot;
    var freed := c.lines[slot := c.lines[slot].(dirty := false, valid := false)];
    var w := InvalidWay(freed, set_, FirstWay(c.controls));
    assert !freed[slot].valid && slot < set_ * 4 + 4;
    assert set_ * 4 + w >= slot;
  }

  lemma SameCursor(c: Cache, e: Cache)
    requires Stepping(c) && c.offset < c.count && Stepping(e)
    requires e.address == c.address && e.offset == c.offset && e.count == c.count && e.controls == c.controls
    ensures Cursor(e) == Cursor(c) && CursorMode(e) == CursorMode(c) && ChunkSize(e) == ChunkSize(c)
  {
  }

  lemma EvictCost(c: Cache, m: Memory)
    requires Stepping(c) && c.offset < c.count && MissRequest(c).0.pending.Evict?
    requires Find(c.lines, LineOf(Cursor(c))) == NO_SLOT && !Bypasses(CursorMode(c), c.write, false)
    ensures AwaitsAnswer(c, MissRequest(c)) && Cost(Answered(c, m, MissRequest(c)).0) < Cost(c)
  {
    MissAwaits(c);
    var r := MissRequest(c);
    var e := Answered(c, m, r).0;
    SameCursor(c, e);
    VictimIsTheSlotJustFreed(c);
    assert SlotOk(c.regions, c.lines, r.0.pendingSlot);
    assert Find(e.lines, LineOf(Cursor(c))) == NO_SLOT;
    assert ChunkCost(e) == 1;
  }

  lemma FillCost(c: Cache, m: Memory)
    requires Stepping(c) && c.offset < c.count && MissRequest(c).0.pending.Fill?
    requires Find(c.lines, LineOf(Cursor(c))) == NO_SLOT && !Bypasses(CursorMode(c), c.write, false)
    ensures AwaitsAnswer(c, MissRequest(c)) && Cost(Answered(c, m, MissRequest(c)).0) < Cost(c)
  {
    MissAwaits(c);
    var r := MissRequest(c);
    var e := Answered(c, m, r).0;
    SameCursor(c, e);
    assert Find(e.lines, LineOf(Cursor(c))) == r.0.pendingSlot by {
      ActionInSpace(c, r.1);
      LineCovered(c.regions, c.address, c.count, Cursor(c));
      FillKeepsLines(c.regions, c.lines, r.0.pendingSlot, e.lines[r.0.pendingSlot]);
    }
    assert ChunkCost(e) == 0;
  }

  /** Each answered request brings the transaction closer to its end. */
  lemma RequestCost(c: Cache, m: Memory)
    requires Stepping(c) && c.offset < c.count && !IsHit(c)
    ensures AwaitsAnswer(c, Request(c)) && Cost(Answered(c, m, Request(c)).0) < Cost(c)
  {
    RequestAwaits(c);
    var slot := Find(c.lines, LineOf(Cursor(c)));
    if !Bypasses(CursorMode(c), c.write, slot < 2048) && slot == NO_SLOT {
      if MissRequest(c).0.pending.Evict? { EvictCost(c, m); } else { FillCost(c, m); }
    } else {
      AdvancedCost(c, Answered(c, m, Request(c)).0);
    }
  }

  lemma NextChunkCost(c: Cache, m: Memory)
    requires Stepping(c) && !NextChunk(c).1.Done?
    ensures AwaitsAnswer(c, NextChunk(c)) && Cost(Answered(c, m, NextChunk(c)).0) < Cost(c)
    decreases c.count - c.offset
  {
    if IsHit(c) {
      HitStepKeeps(c);
      AdvancedCost(c, HitStep(c));
      NextChunkCost(HitStep(c), m);
    } else {
      RequestCost(c, m);
    }
  }

  lemma NextCost(c: Cache, m: Memory)
    requires Running(c) && !Next(c).1.Done?
    ensures AwaitsAnswer(c, Next(c)) && Cost(Answered(c, m, Next(c)).0) < Cost(c)
  {
    if c.pushing {
      NextKeepsStructure(c);
    } else {
      NextChunkCost(c, m);
    }
  }

  // ---------------------------------------------------------------- running a transaction

  datatype Outcome = Outcome(cache: Cache, memory: Memory, result: seq<Byte>, log: seq<Action>)

  lemma NextKeepsSetup(c: Cache)
    requires Running(c)
    ensures Next(c).0.regions == c.regions && Next(c).0.controls == c.controls
    decreases c.count - c.offset
  {
    if !c.pushing && c.offset < c.count && IsHit(c) {
      HitStepKeeps(c);
      NextKeepsSetup(HitStep(c));
    }
  }

  /** Drive a started transaction to its end; `log` lists the backing requests in order. */
  function Run(c: Cache, m: Memory): (o: Outcome)
    requires Running(c)
    ensures Valid(o.cache) && !o.cache.active
    ensures o.cache.regions == c.regions && o.cache.controls == c.controls
    ensures |o.log| <= Cost(c)
    decreases Cost(c)
  {
    NextKeepsStructure(c);
    NextKeepsSetup(c);
    var r := Next(c);
    if r.1.Done? then Outcome(r.0, m, r.1.bytes, [])
    else
      NextCost(c, m);
      var (d, m') := Answered(c, m, r);
      var rest := Run(d, m');
      rest.(log := [r.1] + rest.log)
  }

  lemma RunDone(c: Cache, m: Memory)
    requires Running(c) && Next(c).1.Done?
    ensures Run(c, m) == Outcome(Next(c).0, m, Next(c).1.bytes, [])
  {
  }

  lemma RunStep(c: Cache, m: Memory)
    requires Running(c) && !Next(c).1.Done?
    ensures AwaitsAnswer(c, Next(c))
    ensures (var (d, m') := Answered(c, m, Next(c));
             var o, rest := Run(c, m), Run(d, m');
             o.cache == rest.cache && o.memory == rest.memory && o.result == rest.result
                 && o.log == [Next(c).1] + rest.log)
  {
    NextCost(c, m);
  }

  /** An access makes at most four backing requests, a CPUSHL at most one and a MOVEC none. */
  lemma BoundedTransactions(c: Cache, m: Memory, address: nat, size: nat, write: bool, data: seq<Byte>,
                            reg: nat, value: bv32, instruction: bv16, operand: nat)
    requires Valid(c)
    ensures (var r := Access(c, address, size, write, data);
             r.Ok? ==> Running(r.value) && |Run(r.value, m).log| <= 4)
    ensures (var r := Push(c, instruction, operand);
             r.Ok? ==> Running(r.value) && |Run(r.value, m).log| <= 1)
    ensures (var r := Movec(c, reg, value); r.Ok? ==> Running(r.value) && Run(r.value, m).log == [])
  {
    StartKeepsStructure(c, address, size, write, data, reg, value, instruction, operand);
  }
}
