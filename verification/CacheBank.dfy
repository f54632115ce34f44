/** The private caches of a bank over one memory (src/quetz_window_cache_bank.h), interleaved half-step by
    half-step: one core's next(), the memory's service of its request, and its complete() are separate
    events, so any core may act in between. */
module CacheBank {
  import opened WindowCache
  import opened CacheTransactions
  import opened CacheRefinement
  import opened CacheRuns

  /** The one backing request a core may have outstanding. */
  datatype Port = Quiet | Requested(action: Action) | Served(answer: seq<Byte>)

  /** `last` is what the core's latest finished transaction delivered. */
  datatype Core = Core(cache: Cache, port: Port, last: seq<Byte>)

  datatype Bank = Bank(cores: seq<Core>, memory: Memory)

  datatype Event =
    | Start(core: nat, op: Op)
    | Advance(core: nat)
    | Serve(core: nat)
    | Deliver(core: nat)

  /** The outstanding request is the one its pending kind says. */
  predicate RequestMatches(c: Cache, a: Action)
    requires Valid(c) && c.active
  {
    match c.pending
    case Idle => false
    case Fill => a == Read(c.pendingAddress, 16)
    case BypassRead => a == Read(Cursor(c), c.pendingSize)
    case BypassWrite => a == Write(Cursor(c), c.bytes[c.offset..c.offset + c.pendingSize])
    case WriteThrough => a == Write(Cursor(c), c.bytes[c.offset..c.offset + c.pendingSize])
    case PushBack => a == Write(c.lines[c.pendingSlot].address, c.lines[c.pendingSlot].bytes)
    case Evict => a == Write(c.lines[c.pendingSlot].address, c.lines[c.pendingSlot].bytes)
  }

  lemma BypassMatches(c: Cache)
    requires Stepping(c) && c.offset < c.count
    ensures AwaitsAnswer(c, BypassRequest(c)) && RequestMatches(BypassRequest(c).0, BypassRequest(c).1)
  {
    BypassAwaits(c);
  }

  lemma MissMatches(c: Cache)
    requires Stepping(c) && c.offset < c.count && Find(c.lines, LineOf(Cursor(c))) == NO_SLOT
    ensures AwaitsAnswer(c, MissRequest(c)) && RequestMatches(MissRequest(c).0, MissRequest(c).1)
  {
    MissAwaits(c);
  }

  lemma ThroughMatches(c: Cache)
    requires Stepping(c) && c.offset < c.count && Find(c.lines, LineOf(Cursor(c))) < 2048 && c.write
    ensures AwaitsAnswer(c, ThroughRequest(c)) && RequestMatches(ThroughRequest(c).0, ThroughRequest(c).1)
  {
    ThroughAwaits(c);
  }

  lemma NextChunkMatches(c: Cache)
    requires Stepping(c) && !NextChunk(c).1.Done?
    ensures AwaitsAnswer(c, NextChunk(c)) && RequestMatches(NextChunk(c).0, NextChunk(c).1)
    decreases c.count - c.offset
  {
    if IsHit(c) {
      HitStepKeeps(c);
      NextChunkMatches(HitStep(c));
    } else {
      BypassMatches(c);
      if Find(c.lines, LineOf(Cursor(c))) == NO_SLOT { MissMatches(c); } else if c.write { ThroughMatches(c); }
    }
  }

  predicate CoreOk(k: Core) {
    && Valid(k.cache)
    && match k.port {
         case Quiet => k.cache.pending.Idle?
         case Requested(a) => AwaitsAnswer(k.cache, (k.cache, a)) && RequestMatches(k.cache, a)
         case Served(answer) =>
           && k.cache.active && !k.cache.pending.Idle?
           && (k.cache.pending.Fill? || k.cache.pending.BypassRead? ==> |answer| == Expected(k.cache))
       }
  }

  predicate BankOk(b: Bank) { forall v | 0 <= v < |b.cores| :: CoreOk(b.cores[v]) }

  /** A core without an outstanding request may begin a command or advance its transaction; a request is
      served once and its answer delivered once, to the core that made it. */
  predicate Enabled(b: Bank, e: Event) {
    && e.core < |b.cores|
    && var k := b.cores[e.core];
       match e {
         case Start(_, op) => k.port.Quiet? && !k.cache.active && Accepted(k.cache.regions, op)
         case Advance(_) => k.port.Quiet? && k.cache.active
         case Serve(_) => k.port.Requested?
         case Deliver(_) => k.port.Served?
       }
  }

  function StartCore(k: Core, op: Op): (r: Core)
    requires CoreOk(k) && k.port.Quiet? && !k.cache.active && Accepted(k.cache.regions, op)
    ensures CoreOk(r)
  {
    BeginOk(k.cache, op);
    k.(cache := Begin(k.cache, op).value)
  }

  lemma NextAwaits(c: Cache)
    requires Running(c) && !Next(c).1.Done?
    ensures AwaitsAnswer(Next(c).0, Next(c)) && RequestMatches(Next(c).0, Next(c).1)
  {
    NextKeepsStructure(c);
    NextKeepsSetup(c);
    if !c.pushing { NextChunkMatches(c); }
  }

  function AdvanceCore(k: Core): (r: Core)
    requires CoreOk(k) && k.port.Quiet? && k.cache.active
    ensures CoreOk(r)
  {
    NextKeepsStructure(k.cache);
    var (d, a) := Next(k.cache);
    if a.Done? then Core(d, Quiet, a.bytes)
    else
      NextAwaits(k.cache);
      k.(cache := d, port := Requested(a))
  }

  function ServeCore(k: Core, m: Memory): (r: (Core, Memory))
    requires CoreOk(k) && k.port.Requested?
    ensures CoreOk(r.0)
  {
    ActionInSpace(k.cache, k.port.action);
    var (m', answer) := Perform(m, k.port.action);
    (k.(port := Served(answer)), m')
  }

  function DeliverCore(k: Core): (r: Core)
    requires CoreOk(k) && k.port.Served?
    ensures CoreOk(r)
  {
    CompleteKeepsStructure(k.cache, k.port.answer);
    k.(cache := Complete(k.cache, k.port.answer), port := Quiet)
  }

  function Step(b: Bank, e: Event): (r: Bank)
    requires BankOk(b) && Enabled(b, e)
    ensures BankOk(r) && |r.cores| == |b.cores|
  {
    var k := b.cores[e.core];
    match e
    case Start(v, op) => b.(cores := b.cores[v := StartCore(k, op)])
    case Advance(v) => b.(cores := b.cores[v := AdvanceCore(k)])
    case Serve(v) => Bank(b.cores[v := ServeCore(k, b.memory).0], ServeCore(k, b.memory).1)
    case Deliver(v) => b.(cores := b.cores[v := DeliverCore(k)])
  }

  // ---------------------------------------------------------------- one line inside one cache

  predicate Aligned(la: nat) { la % 16 == 0 && la + 16 <= ADDRESS_SPACE }

  /** No write in progress touches the line. */
  predicate NoWriteTo(c: Cache, la: nat) {
    c.active && c.write ==> c.address + c.count <= la || la + 16 <= c.address
  }

  predicate SameLineIn(lines: seq<Line>, after: seq<Line>, la: nat)
    requires |lines| == 2048 && |after| == 2048
  {
    && Find(after, la) == Find(lines, la)
    && (Find(lines, la) < 2048 ==> after[Find(lines, la)] == lines[Find(lines, la)])
  }

  /** Changing a slot that does not hold the line, to one that does not either, leaves the line alone. */
  lemma OtherSlotKeeps(regions: seq<Region>, lines: seq<Line>, slot: nat, l: Line, la: nat)
    requires LinesOk(regions, lines) && slot < 2048 && LinesOk(regions, lines[slot := l])
    requires !Holds(lines[slot], la) && !Holds(l, la)
    ensures SameLineIn(lines, lines[slot := l], la)
  {
    var after := lines[slot := l];
    var s, t := Find(lines, la), Find(after, la);
    if s < 2048 { assert SlotOk(regions, after, s); assert Holds(after[s], la); }
    else if t < 2048 { assert SlotOk(regions, lines, t); }
  }

  /** Replacing the line in the slot that holds it makes it absent. */
  lemma DroppedLine(regions: seq<Region>, lines: seq<Line>, slot: nat, l: Line, la: nat)
    requires LinesOk(regions, lines) && slot < 2048 && Holds(lines[slot], la) && !Holds(l, la)
    ensures Find(lines, la) == slot && Find(lines[slot := l], la) == NO_SLOT
  {
    assert SlotOk(regions, lines, slot);
    forall s | 0 <= s < 2048 && Holds(lines[s], la) ensures s == slot { assert SlotOk(regions, lines, s); }
  }

  /** After next() the line is untouched, or dropped by a push that found it clean. */
  predicate LineAfterNext(c: Cache, r: (Cache, Action), la: nat)
    requires Valid(c) && Valid(r.0)
  {
    var s := Find(c.lines, la);
    && (SameLineIn(c.lines, r.0.lines, la)
        || (s < 2048 && !c.lines[s].dirty && Find(r.0.lines, la) == NO_SLOT))
    && (r.0.active && r.0.write ==> r.0.address == c.address && r.0.count == c.count && c.write)
  }

  lemma HitStepLine(c: Cache, la: nat)
    requires Stepping(c) && c.offset < c.count && IsHit(c) && NoWriteTo(c, la) && Aligned(la)
    ensures Stepping(HitStep(c)) && SameLineIn(c.lines, HitStep(c).lines, la) && NoWriteTo(HitStep(c), la)
  {
    HitStepKeeps(c);
    var slot := Find(c.lines, LineOf(Cursor(c)));
    if c.write {
      SameLine(la, Cursor(c));
      OtherSlotKeeps(c.regions, c.lines, slot, HitStep(c).lines[slot], la);
    }
  }

  lemma RequestLine(c: Cache, la: nat)
    requires Stepping(c) && c.offset < c.count && !IsHit(c) && NoWriteTo(c, la) && Aligned(la)
    ensures Valid(Request(c).0) && LineAfterNext(c, Request(c), la)
  {
    RequestAwaits(c);
    var slot := Find(c.lines, LineOf(Cursor(c)));
    if c.write { SameLine(la, Cursor(c)); }
    if Bypasses(CursorMode(c), c.write, slot < 2048) {
    } else if slot == NO_SLOT {
      var v := MissRequest(c).0.pendingSlot;
      assert SlotOk(c.regions, c.lines, v);
      SlotBounds(c.regions, c.lines, v);
    } else {
      OtherSlotKeeps(c.regions, c.lines, slot, Request(c).0.lines[slot], la);
    }
  }

  lemma NextChunkLine(c: Cache, la: nat)
    requires Stepping(c) && NoWriteTo(c, la) && Aligned(la)
    ensures Valid(NextChunk(c).0) && LineAfterNext(c, NextChunk(c), la)
    decreases c.count - c.offset
  {
    if c.offset == c.count {
    } else if IsHit(c) {
      HitStepLine(c, la);
      HitStepKeeps(c);
      NextChunkLine(HitStep(c), la);
    } else {
      RequestLine(c, la);
    }
  }

  lemma NextLine(c: Cache, la: nat)
    requires Running(c) && NoWriteTo(c, la) && Aligned(la)
    ensures Valid(Next(c).0) && LineAfterNext(c, Next(c), la)
  {
    if c.pushing {
      NextKeepsStructure(c);
      var p := c.pendingSlot;
      assert SlotOk(c.regions, c.lines, p);
      SlotBounds(c.regions, c.lines, p);
      var l := c.lines[p].(valid := false);
      if !c.lines[p].dirty && c.invalidatePush {
        if Holds(c.lines[p], la) {
          DroppedLine(c.regions, c.lines, p, l, la);
        } else {
          OtherSlotKeeps(c.regions, c.lines, p, l, la);
        }
      }
    } else {
      NextChunkLine(c, la);
    }
  }

  /** Where the line stands after complete(): filled with the answer, dropped or cleaned, or untouched. */
  predicate LineAfterComplete(c: Cache, d: Cache, answer: seq<Byte>, la: nat)
    requires Valid(c) && Valid(d)
  {
    var s := Find(c.lines, la);
    if c.pending.Fill? && c.pendingAddress == la then
      Find(d.lines, la) == c.pendingSlot < 2048 && d.lines[c.pendingSlot].bytes == answer
          && !d.lines[c.pendingSlot].dirty
    else if s < 2048 && c.pendingSlot == s && (c.pending.Fill? || c.pending.Evict? || c.pending.PushBack?) then
      Find(d.lines, la) == NO_SLOT
      || (Find(d.lines, la) == s && d.lines[s].bytes == c.lines[s].bytes && !d.lines[s].dirty)
    else SameLineIn(c.lines, d.lines, la)
  }

  lemma FillLine(c: Cache, answer: seq<Byte>, la: nat)
    requires Valid(c) && c.active && c.pending.Fill? && |answer| == 16 && Aligned(la)
    ensures Valid(Complete(c, answer)) && LineAfterComplete(c, Complete(c, answer), answer, la)
  {
    CompleteKeepsStructure(c, answer);
    var d, p := Complete(c, answer), c.pendingSlot;
    assert SlotOk(d.regions, d.lines, p);
    if c.pendingAddress == la {
      assert Holds(d.lines[p], la);
    } else if Holds(c.lines[p], la) {
      DroppedLine(c.regions, c.lines, p, d.lines[p], la);
    } else {
      OtherSlotKeeps(c.regions, c.lines, p, d.lines[p], la);
    }
  }

  lemma RewriteLine(c: Cache, answer: seq<Byte>, la: nat)
    requires Valid(c) && c.active && (c.pending.PushBack? || c.pending.Evict? || c.pending.WriteThrough?)
    requires NoWriteTo(c, la) && Aligned(la)
    ensures Valid(Complete(c, answer)) && LineAfterComplete(c, Complete(c, answer), answer, la)
  {
    CompleteKeepsStructure(c, answer);
    var d, p := Complete(c, answer), c.pendingSlot;
    assert SlotOk(c.regions, c.lines, p) && SlotOk(d.regions, d.lines, p);
    if c.pending.WriteThrough? { SameLine(la, Cursor(c)); }
    if !Holds(c.lines[p], la) {
      OtherSlotKeeps(c.regions, c.lines, p, d.lines[p], la);
    } else if !d.lines[p].valid {
      DroppedLine(c.regions, c.lines, p, d.lines[p], la);
    }
  }

  lemma CompleteLine(c: Cache, answer: seq<Byte>, la: nat)
    requires Valid(c) && c.active && !c.pending.Idle? && NoWriteTo(c, la) && Aligned(la)
    requires c.pending.Fill? || c.pending.BypassRead? ==> |answer| == Expected(c)
    ensures Valid(Complete(c, answer)) && NoWriteTo(Complete(c, answer), la)
    ensures LineAfterComplete(c, Complete(c, answer), answer, la)
  {
    CompleteKeepsStructure(c, answer);
    if c.pending.Fill? {
      FillLine(c, answer, la);
    } else if c.pending.PushBack? || c.pending.Evict? || c.pending.WriteThrough? {
      RewriteLine(c, answer, la);
    }
  }
}
