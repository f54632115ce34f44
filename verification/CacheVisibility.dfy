/** Software-managed visibility between cores: a line written copyback by one core and pushed out of all four
    ways of its set is what another core reads after invalidating its cache. */
module CacheVisibility {
  import opened WindowCache
  import opened CacheTransactions
  import opened CacheRefinement
  import opened CacheRuns
  import opened CacheBank

  // ---------------------------------------------------------------- what a core may hold of the line

  /** The core neither has the line dirty nor is writing it. */
  predicate Clean(k: Core, la: nat)
    requires CoreOk(k)
  {
    && NoWriteTo(k.cache, la)
    && (Find(k.cache.lines, la) < 2048 ==> !k.cache.lines[Find(k.cache.lines, la)].dirty)
  }

  /** Memory holds the bytes of the line. */
  predicate InMem(m: Memory, la: nat, data: seq<Byte>)
    requires Aligned(la)
  {
    m[la..la + 16] == data
  }

  predicate AwaitsFillOf(k: Core, la: nat) { k.port.Served? && k.cache.pending.Fill? && k.cache.pendingAddress == la }

  predicate WrittenBack(k: Core, slot: nat) {
    k.port.Served? && (k.cache.pending.Evict? || k.cache.pending.PushBack?) && k.cache.pendingSlot == slot
  }

  /** The core is the authority on the line: `data` is in it or, once it is not dirty, in memory. Ways in
      `pushed` were pushed since and do not hold the line dirty. */
  predicate Owner(k: Core, m: Memory, la: nat, data: seq<Byte>, pushed: set<nat>)
    requires CoreOk(k) && Aligned(la)
  {
    var s := Find(k.cache.lines, la);
    && NoWriteTo(k.cache, la)
    && (if s < 2048 then
          && k.cache.lines[s].bytes == data
          && (k.cache.lines[s].dirty ==> s % 4 !in pushed)
          && (!k.cache.lines[s].dirty || WrittenBack(k, s) ==> InMem(m, la, data))
        else InMem(m, la, data))
    && (AwaitsFillOf(k, la) ==> k.port.answer == data)
  }

  /** A read whose bytes all lie in the line. */
  predicate ReadsInside(c: Cache, la: nat) {
    c.active && !c.write && !c.pushing && c.count > 0 && la <= c.address && c.address + c.count <= la + 16
  }

  predicate ReadSoFar(c: Cache, la: nat, data: seq<Byte>)
    requires Valid(c) && ReadsInside(c, la) && |data| == 16
  {
    c.bytes[..c.offset] == data[c.address - la..c.address - la + c.offset]
  }

  /** Whatever the core holds or is being given of the line is `data`. */
  predicate FreshLine(k: Core, la: nat, data: seq<Byte>)
    requires CoreOk(k)
  {
    && Clean(k, la)
    && (Find(k.cache.lines, la) < 2048 ==> k.cache.lines[Find(k.cache.lines, la)].bytes == data)
    && (AwaitsFillOf(k, la) ==> k.port.answer == data)
  }

  /** Whatever the core has read of the line so far is `data`. */
  predicate FreshRead(k: Core, la: nat, data: seq<Byte>)
    requires CoreOk(k) && |data| == 16
  {
    var c := k.cache;
    ReadsInside(c, la) ==>
      && ReadSoFar(c, la, data)
      && (k.port.Served? && c.pending.BypassRead? ==>
            k.port.answer == data[Cursor(c) - la..Cursor(c) - la + c.pendingSize])
  }

  predicate FreshIn(k: Core, la: nat, data: seq<Byte>)
    requires CoreOk(k) && |data| == 16
  {
    FreshLine(k, la, data) && FreshRead(k, la, data)
  }

  // ---------------------------------------------------------------- starting

  predicate NotWriting(op: Op, la: nat) {
    op.WriteOp? ==> op.address + |op.data| <= la || la + 16 <= op.address
  }

  predicate Invalidates(op: Op) { op.MovecOp? && InvalidatesAll(op.reg, op.value) }

  lemma StartLines(k: Core, op: Op)
    requires CoreOk(k) && k.port.Quiet? && !k.cache.active && Accepted(k.cache.regions, op)
    ensures (var r := StartCore(k, op);
             && r.port.Quiet? && (r.cache.active ==> r.cache.offset == 0)
             && r.cache.lines == (if Invalidates(op) then Invalidated(k.cache.lines) else k.cache.lines))
    ensures forall la | NotWriting(op, la) :: NoWriteTo(StartCore(k, op).cache, la)
  {
    BeginOk(k.cache, op);
  }

  lemma InvalidatedAbsent(lines: seq<Line>, la: nat)
    requires |lines| == 2048
    ensures Find(Invalidated(lines), la) == NO_SLOT
  {
  }

  lemma StartKeepsClean(k: Core, op: Op, la: nat)
    requires CoreOk(k) && k.port.Quiet? && !k.cache.active && Accepted(k.cache.regions, op)
    requires Clean(k, la) && NotWriting(op, la)
    ensures Clean(StartCore(k, op), la)
  {
    StartLines(k, op);
    InvalidatedAbsent(k.cache.lines, la);
  }

  /** A whole-cache invalidate makes a clean core fresh. */
  lemma StartFresh(k: Core, op: Op, la: nat, data: seq<Byte>)
    requires CoreOk(k) && k.port.Quiet? && !k.cache.active && Accepted(k.cache.regions, op) && |data| == 16
    requires Clean(k, la) && NotWriting(op, la) && (Invalidates(op) || FreshIn(k, la, data))
    ensures FreshIn(StartCore(k, op), la, data)
  {
    StartLines(k, op);
    InvalidatedAbsent(k.cache.lines, la);
  }

  lemma StartKeepsOwner(k: Core, m: Memory, op: Op, la: nat, data: seq<Byte>, pushed: set<nat>)
    requires CoreOk(k) && k.port.Quiet? && !k.cache.active && Accepted(k.cache.regions, op) && Aligned(la)
    requires Owner(k, m, la, data, pushed) && NotWriting(op, la) && !Invalidates(op)
    ensures Owner(StartCore(k, op), m, la, data, pushed)
  {
    StartLines(k, op);
  }

  // ---------------------------------------------------------------- advancing

  lemma AdvanceKeepsClean(k: Core, la: nat)
    requires CoreOk(k) && k.port.Quiet? && k.cache.active && Clean(k, la) && Aligned(la)
    ensures Clean(AdvanceCore(k), la)
  {
    NextLine(k.cache, la);
  }

  /** Ways of the line's set whose push ends with this event. */
  function PushedNow(k: Core, advance: bool, la: nat): set<nat>
    requires CoreOk(k) && (if advance then k.port.Quiet? && k.cache.active else k.port.Served?)
  {
    var c := k.cache;
    if c.pushing && c.pendingSlot / 4 == SetIndex(la) && (advance ==> !c.lines[c.pendingSlot].dirty)
    then {c.pendingSlot % 4} else {}
  }

  lemma AdvanceKeepsOwner(k: Core, m: Memory, la: nat, data: seq<Byte>, pushed: set<nat>)
    requires CoreOk(k) && k.port.Quiet? && k.cache.active && Aligned(la) && Owner(k, m, la, data, pushed)
    ensures Owner(AdvanceCore(k), m, la, data, pushed + PushedNow(k, true, la))
  {
    NextLine(k.cache, la);
  }

  /** A read inside the line served from a resident copy. */
  lemma HitReadsInside(c: Cache, la: nat, data: seq<Byte>)
    requires Stepping(c) && c.offset < c.count && IsHit(c) && ReadsInside(c, la) && Aligned(la) && |data| == 16
    requires ReadSoFar(c, la, data) && (Find(c.lines, la) < 2048 ==> c.lines[Find(c.lines, la)].bytes == data)
    ensures Stepping(HitStep(c)) && ReadsInside(HitStep(c), la) && ReadSoFar(HitStep(c), la, data)
    ensures HitStep(c).lines == c.lines
  {
    HitStepKeeps(c);
    SameLine(la, Cursor(c));
    var at, n := InLine(Cursor(c)), ChunkSize(c);
    var d := HitStep(c);
    assert data[c.address - la..c.address - la + d.offset]
             == data[c.address - la..c.address - la + c.offset] + data[at..at + n];
    assert d.bytes[..d.offset] == c.bytes[..c.offset] + data[at..at + n];
  }

  /** Where next() leaves a read inside the line. */
  predicate ReadAfterNext(c: Cache, r: (Cache, Action), la: nat, data: seq<Byte>)
    requires Valid(c) && ReadsInside(c, la) && |data| == 16
  {
    if r.1.Done? then r.1.bytes == data[c.address - la..c.address - la + c.count]
    else Valid(r.0) && (ReadsInside(r.0, la) ==> ReadSoFar(r.0, la, data))
  }

  lemma RequestReadsInside(c: Cache, la: nat, data: seq<Byte>)
    requires Stepping(c) && c.offset < c.count && !IsHit(c) && ReadsInside(c, la) && |data| == 16
             && ReadSoFar(c, la, data)
    ensures ReadAfterNext(c, Request(c), la, data)
  {
    RequestAwaits(c);
    RequestFields(c);
    assert Request(c).0.offset == c.offset;
  }

  lemma FinishReadsInside(c: Cache, la: nat, data: seq<Byte>)
    requires Stepping(c) && c.offset == c.count && ReadsInside(c, la) && |data| == 16 && ReadSoFar(c, la, data)
    ensures ReadAfterNext(c, Finish(c), la, data)
  {
    assert c.bytes[..c.offset] == c.bytes;
  }

  lemma ReadAfterTransfers(c: Cache, d: Cache, r: (Cache, Action), la: nat, data: seq<Byte>)
    requires Valid(c) && Valid(d) && ReadsInside(c, la) && ReadsInside(d, la) && |data| == 16
    requires d.address == c.address && d.count == c.count && ReadAfterNext(d, r, la, data)
    ensures ReadAfterNext(c, r, la, data)
  {
  }

  lemma NextReadsInside(c: Cache, la: nat, data: seq<Byte>)
    requires Stepping(c) && ReadsInside(c, la) && Aligned(la) && |data| == 16
    requires ReadSoFar(c, la, data) && (Find(c.lines, la) < 2048 ==> c.lines[Find(c.lines, la)].bytes == data)
    ensures ReadAfterNext(c, NextChunk(c), la, data)
    decreases c.count - c.offset
  {
    if c.offset == c.count {
      FinishReadsInside(c, la, data);
    } else if IsHit(c) {
      HitReadsInside(c, la, data);
      HitStepKeeps(c);
      NextReadsInside(HitStep(c), la, data);
      HitSameAccess(c);
      ReadAfterTransfers(c, HitStep(c), NextChunk(c), la, data);
    } else {
      RequestReadsInside(c, la, data);
    }
  }

  lemma NextStaysReading(c: Cache, la: nat)
    requires Running(c) && Next(c).0.active && ReadsInside(Next(c).0, la)
    ensures ReadsInside(c, la)
    decreases c.count - c.offset
  {
    if !c.pushing && c.offset < c.count {
      if IsHit(c) {
        HitStepKeeps(c);
        HitSameAccess(c);
        NextStaysReading(HitStep(c), la);
      } else {
        RequestFields(c);
      }
    }
  }

  lemma AdvanceKeepsFreshLine(k: Core, la: nat, data: seq<Byte>)
    requires CoreOk(k) && k.port.Quiet? && k.cache.active && Aligned(la) && FreshLine(k, la, data)
    ensures FreshLine(AdvanceCore(k), la, data)
  {
    NextLine(k.cache, la);
  }

  lemma AdvanceKeepsFresh(k: Core, la: nat, data: seq<Byte>)
    requires CoreOk(k) && k.port.Quiet? && k.cache.active && Aligned(la) && |data| == 16 && FreshIn(k, la, data)
    ensures FreshIn(AdvanceCore(k), la, data)
    ensures ReadsInside(k.cache, la) && Next(k.cache).1.Done? ==>
              AdvanceCore(k).last == data[k.cache.address - la..k.cache.address - la + k.cache.count]
  {
    AdvanceKeepsFreshLine(k, la, data);
    if ReadsInside(k.cache, la) { NextReadsInside(k.cache, la, data); }
    NextKeepsStructure(k.cache);
    var d := Next(k.cache).0;
    if d.active && ReadsInside(d, la) { NextStaysReading(k.cache, la); }
  }

  // ---------------------------------------------------------------- service by memory

  /** A clean core's request never writes the line; an owner's writes only its own bytes. */
  lemma ServeLine(k: Core, m: Memory, la: nat)
    requires CoreOk(k) && k.port.Requested? && Aligned(la) && NoWriteTo(k.cache, la)
    ensures (var m' := ServeCore(k, m).1;
             var c, s := k.cache, Find(k.cache.lines, la);
             if s < 2048 && (c.pending.Evict? || c.pending.PushBack?) && c.pendingSlot == s
             then c.lines[s].dirty && InMem(m', la, c.lines[s].bytes)
             else m'[la..la + 16] == m[la..la + 16])
  {
    var c, a := k.cache, k.port.action;
    ActionInSpace(c, a);
    if c.pending.BypassWrite? || c.pending.WriteThrough? {
      SameLine(la, Cursor(c));
      SpliceApart(m, a.address, a.bytes, la);
    } else if c.pending.Evict? || c.pending.PushBack? {
      assert SlotOk(c.regions, c.lines, c.pendingSlot);
      SlotBounds(c.regions, c.lines, c.pendingSlot);
      if c.lines[c.pendingSlot].address != la { SpliceApart(m, a.address, a.bytes, la); }
    }
  }

  lemma ServeKeepsClean(k: Core, m: Memory, la: nat)
    requires CoreOk(k) && k.port.Requested? && Aligned(la) && Clean(k, la)
    ensures Clean(ServeCore(k, m).0, la) && ServeCore(k, m).1[la..la + 16] == m[la..la + 16]
  {
    ServeLine(k, m, la);
  }

  lemma ServeKeepsFreshLine(k: Core, m: Memory, la: nat, data: seq<Byte>)
    requires CoreOk(k) && k.port.Requested? && Aligned(la) && FreshLine(k, la, data) && InMem(m, la, data)
    ensures FreshLine(ServeCore(k, m).0, la, data)
  {
    ActionInSpace(k.cache, k.port.action);
  }

  lemma ServeKeepsFresh(k: Core, m: Memory, la: nat, data: seq<Byte>)
    requires CoreOk(k) && k.port.Requested? && Aligned(la) && |data| == 16 && FreshIn(k, la, data) && InMem(m, la, data)
    ensures FreshIn(ServeCore(k, m).0, la, data)
  {
    ServeKeepsFreshLine(k, m, la, data);
    var c := k.cache;
    ActionInSpace(c, k.port.action);
    if c.pending.BypassRead? && ReadsInside(c, la) {
      PartOfLine(m, la, Cursor(c) - la, c.pendingSize);
    }
  }

  lemma PartOfLine(m: Memory, la: nat, at: nat, n: nat)
    requires at + n <= 16 && la + 16 <= ADDRESS_SPACE
    ensures m[la + at..la + at + n] == m[la..la + 16][at..at + n]
  {
    var line, part := m[la..la + 16], m[la + at..la + at + n];
    var same := line[at..at + n];
    forall i | 0 <= i < n ensures part[i] == same[i] {}
  }

  lemma ServeKeepsOwner(k: Core, m: Memory, la: nat, data: seq<Byte>, pushed: set<nat>)
    requires CoreOk(k) && k.port.Requested? && Aligned(la) && Owner(k, m, la, data, pushed)
    ensures Owner(ServeCore(k, m).0, ServeCore(k, m).1, la, data, pushed)
  {
    ServeLine(k, m, la);
  }

  // ---------------------------------------------------------------- delivery

  lemma DeliverKeepsClean(k: Core, la: nat)
    requires CoreOk(k) && k.port.Served? && Aligned(la) && Clean(k, la)
    ensures Clean(DeliverCore(k), la)
  {
    CompleteLine(k.cache, k.port.answer, la);
  }

  lemma DeliverKeepsFreshLine(k: Core, la: nat, data: seq<Byte>)
    requires CoreOk(k) && k.port.Served? && Aligned(la) && FreshLine(k, la, data)
    ensures FreshLine(DeliverCore(k), la, data)
  {
    CompleteLine(k.cache, k.port.answer, la);
  }

  /** A bypassed read inside the line gains the answer. */
  lemma BypassReadsInside(c: Cache, answer: seq<Byte>, la: nat, data: seq<Byte>)
    requires Valid(c) && c.pending.BypassRead? && ReadsInside(c, la) && |data| == 16 && ReadSoFar(c, la, data)
    requires |answer| == c.pendingSize && answer == data[Cursor(c) - la..Cursor(c) - la + c.pendingSize]
    ensures (var d := Complete(c, answer); Valid(d) && ReadsInside(d, la) && ReadSoFar(d, la, data))
  {
    CompleteKeepsStructure(c, answer);
    var d, at, n := Complete(c, answer), Cursor(c) - la, c.pendingSize;
    assert data[c.address - la..c.address - la + d.offset]
             == data[c.address - la..c.address - la + c.offset] + data[at..at + n];
    assert d.bytes[..d.offset] == c.bytes[..c.offset] + answer;
  }

  lemma OtherReadsInside(c: Cache, answer: seq<Byte>, la: nat, data: seq<Byte>)
    requires Valid(c) && c.active && !c.pending.Idle? && !c.pending.BypassRead? && |data| == 16
    requires c.pending.Fill? ==> |answer| == 16
    requires ReadsInside(Complete(c, answer), la) && (ReadsInside(c, la) ==> ReadSoFar(c, la, data))
    ensures Valid(Complete(c, answer)) && ReadSoFar(Complete(c, answer), la, data)
  {
    CompleteKeepsStructure(c, answer);
    assert !c.pushing;
  }

  lemma DeliverKeepsFresh(k: Core, la: nat, data: seq<Byte>)
    requires CoreOk(k) && k.port.Served? && Aligned(la) && |data| == 16 && FreshIn(k, la, data)
    ensures FreshIn(DeliverCore(k), la, data)
  {
    DeliverKeepsFreshLine(k, la, data);
    if ReadsInside(DeliverCore(k).cache, la) {
      if k.cache.pending.BypassRead? {
        BypassReadsInside(k.cache, k.port.answer, la, data);
      } else {
        OtherReadsInside(k.cache, k.port.answer, la, data);
      }
    }
  }

  lemma DeliverKeepsOwner(k: Core, m: Memory, la: nat, data: seq<Byte>, pushed: set<nat>)
    requires CoreOk(k) && k.port.Served? && Aligned(la) && Owner(k, m, la, data, pushed)
    ensures Owner(DeliverCore(k), m, la, data, pushed + PushedNow(k, false, la))
  {
    CompleteLine(k.cache, k.port.answer, la);
  }

  // ---------------------------------------------------------------- the whole bank

  /** No command of the run writes the line. */
  predicate Allowed(e: Event, la: nat) { e.Start? ==> NotWriting(e.op, la) }

  predicate AllClean(b: Bank, la: nat, except: nat)
    requires BankOk(b)
  {
    forall v {:trigger Clean(b.cores[v], la)} | 0 <= v < |b.cores| && v != except ::
        CoreOk(b.cores[v]) && Clean(b.cores[v], la)
  }

  predicate Owned(b: Bank, a: nat, la: nat, data: seq<Byte>, pushed: set<nat>) {
    && BankOk(b) && a < |b.cores| && Aligned(la)
    && Owner(b.cores[a], b.memory, la, data, pushed)
    && AllClean(b, la, a)
  }

  /** Memory holds the line and no core can overwrite it with a stale copy. */
  predicate Published(b: Bank, la: nat, data: seq<Byte>) {
    BankOk(b) && Aligned(la) && InMem(b.memory, la, data) && AllClean(b, la, |b.cores|)
  }

  predicate VisibleTo(b: Bank, v: nat, la: nat, data: seq<Byte>) {
    Published(b, la, data) && v < |b.cores| && |data| == 16 && FreshIn(b.cores[v], la, data)
  }

  /** One event of a clean core: it stays clean and memory keeps the line. */
  lemma CleanStep(b: Bank, e: Event, la: nat)
    requires BankOk(b) && Enabled(b, e) && Aligned(la) && Allowed(e, la) && Clean(b.cores[e.core], la)
    ensures Clean(Step(b, e).cores[e.core], la) && Step(b, e).memory[la..la + 16] == b.memory[la..la + 16]
  {
    var k := b.cores[e.core];
    match e
    case Start(_, op) => StartKeepsClean(k, op, la);
    case Advance(_) => AdvanceKeepsClean(k, la);
    case Serve(_) => ServeKeepsClean(k, b.memory, la);
    case Deliver(_) => DeliverKeepsClean(k, la);
  }

  lemma AllCleanKept(b: Bank, e: Event, la: nat, except: nat)
    requires BankOk(b) && Enabled(b, e) && Aligned(la) && Allowed(e, la) && AllClean(b, la, except)
    ensures AllClean(Step(b, e), la, except)
  {
    var r := Step(b, e);
    forall v | 0 <= v < |r.cores| && v != except ensures CoreOk(r.cores[v]) && Clean(r.cores[v], la) {
      assert Clean(b.cores[v], la);
      if v == e.core { CleanStep(b, e, la); }
    }
  }

  lemma PublishedKept(b: Bank, e: Event, la: nat, data: seq<Byte>)
    requires Published(b, la, data) && Enabled(b, e) && Allowed(e, la)
    ensures Published(Step(b, e), la, data)
  {
    assert Clean(b.cores[e.core], la);
    CleanStep(b, e, la);
    AllCleanKept(b, e, la, |b.cores|);
  }

  lemma FreshStep(b: Bank, e: Event, la: nat, data: seq<Byte>)
    requires Published(b, la, data) && Enabled(b, e) && Allowed(e, la) && |data| == 16
    requires FreshIn(b.cores[e.core], la, data) || (e.Start? && Invalidates(e.op))
    ensures FreshIn(Step(b, e).cores[e.core], la, data)
  {
    var k := b.cores[e.core];
    assert Clean(k, la);
    match e
    case Start(_, op) => StartFresh(k, op, la, data);
    case Advance(_) => AdvanceKeepsFresh(k, la, data);
    case Serve(_) => ServeKeepsFresh(k, b.memory, la, data);
    case Deliver(_) => DeliverKeepsFresh(k, la, data);
  }

  lemma VisibleKept(b: Bank, e: Event, v: nat, la: nat, data: seq<Byte>)
    requires VisibleTo(b, v, la, data) && Enabled(b, e) && Allowed(e, la)
    ensures VisibleTo(Step(b, e), v, la, data)
  {
    PublishedKept(b, e, la, data);
    if e.core == v { FreshStep(b, e, la, data); }
  }

  /** Ways of the line's set that core a finishes pushing with this event. */
  function PushedBy(b: Bank, e: Event, a: nat, la: nat): set<nat>
    requires BankOk(b) && Enabled(b, e)
  {
    if e.core == a && (e.Advance? || e.Deliver?) then PushedNow(b.cores[a], e.Advance?, la) else {}
  }

  /** The owner does not discard its dirty lines. */
  predicate KeepsOwner(e: Event, a: nat) { e.Start? && e.core == a ==> !Invalidates(e.op) }

  lemma OwnerStep(b: Bank, e: Event, la: nat, data: seq<Byte>, pushed: set<nat>)
    requires Owned(b, e.core, la, data, pushed) && Enabled(b, e) && Allowed(e, la) && KeepsOwner(e, e.core)
    ensures (var r := Step(b, e); Owner(r.cores[e.core], r.memory, la, data, pushed + PushedBy(b, e, e.core, la)))
  {
    var k := b.cores[e.core];
    match e
    case Start(_, op) => StartKeepsOwner(k, b.memory, op, la, data, pushed);
    case Advance(_) => AdvanceKeepsOwner(k, b.memory, la, data, pushed);
    case Serve(_) => ServeKeepsOwner(k, b.memory, la, data, pushed);
    case Deliver(_) => DeliverKeepsOwner(k, b.memory, la, data, pushed);
  }

  /** Another core's event leaves the owner alone, because memory keeps the line. */
  lemma OwnerUndisturbed(k: Core, m: Memory, m': Memory, la: nat, data: seq<Byte>, pushed: set<nat>)
    requires CoreOk(k) && Aligned(la) && Owner(k, m, la, data, pushed) && m'[la..la + 16] == m[la..la + 16]
    ensures Owner(k, m', la, data, pushed)
  {
  }

  lemma OwnedKept(b: Bank, e: Event, a: nat, la: nat, data: seq<Byte>, pushed: set<nat>)
    requires Owned(b, a, la, data, pushed) && Enabled(b, e) && Allowed(e, la) && KeepsOwner(e, a)
    ensures Owned(Step(b, e), a, la, data, pushed + PushedBy(b, e, a, la))
  {
    AllCleanKept(b, e, la, a);
    if e.core == a {
      OwnerStep(b, e, la, data, pushed);
    } else {
      assert Clean(b.cores[e.core], la);
      CleanStep(b, e, la);
      OwnerUndisturbed(b.cores[a], b.memory, Step(b, e).memory, la, data, pushed);
      assert pushed + {} == pushed;
    }
  }

  /** Once all four ways were pushed, the line is in memory and nowhere dirty. */
  lemma OwnedAllWaysPublished(b: Bank, a: nat, la: nat, data: seq<Byte>, pushed: set<nat>)
    requires Owned(b, a, la, data, pushed) && forall w | 0 <= w < 4 :: w in pushed
    ensures Published(b, la, data)
  {
    forall v | 0 <= v < |b.cores| ensures CoreOk(b.cores[v]) && Clean(b.cores[v], la) {
      if v != a { assert Clean(b.cores[v], la); }
    }
  }

  // ---------------------------------------------------------------- the write that makes an owner

  predicate WritesInside(c: Cache, la: nat) {
    c.active && c.write && !c.pushing && c.count > 0 && la <= c.address && c.address + c.count <= la + 16
  }

  /** The line is resident, dirty and holds the bytes at the address. */
  predicate HoldsDirty(lines: seq<Line>, la: nat, address: nat, bytes: seq<Byte>)
    requires |lines| == 2048 && la <= address && address + |bytes| <= la + 16
  {
    var s := Find(lines, la);
    && s < 2048 && lines[s].dirty && |lines[s].bytes| == 16
    && lines[s].bytes[address - la..address - la + |bytes|] == bytes
  }

  lemma HitWritesInside(c: Cache, la: nat)
    requires Stepping(c) && WritesInside(c, la) && Aligned(la) && c.offset == 0 && IsHit(c)
    ensures (var d := HitStep(c); Stepping(d) && d.offset == d.count && HoldsDirty(d.lines, la, c.address, c.bytes))
  {
    HitStepKeeps(c);
    SameLine(la, Cursor(c));
    assert ChunkSize(c) == c.count && Chunk(c) == c.bytes;
    var d, slot := HitStep(c), Find(c.lines, la);
    assert SlotOk(c.regions, c.lines, slot) && SlotOk(d.regions, d.lines, slot);
  }

  /** A copyback write inside the line touches the cache only in its last half-step, which leaves the line
      resident, dirty and holding the written bytes. */
  lemma CopybackWriteEnds(c: Cache, la: nat)
    requires Stepping(c) && WritesInside(c, la) && Aligned(la) && c.offset == 0
    requires CursorMode(c).CopybackMode? && NextChunk(c).1.Done?
    ensures Valid(NextChunk(c).0) && !NextChunk(c).0.active
    ensures HoldsDirty(NextChunk(c).0.lines, la, c.address, c.bytes)
  {
    RequestNotDone(c);
    HitWritesInside(c, la);
    assert NextChunk(HitStep(c)) == Finish(HitStep(c));
  }

  lemma RequestNotDone(c: Cache)
    requires Stepping(c) && c.offset < c.count && NextChunk(c).1.Done?
    ensures IsHit(c)
  {
    if !IsHit(c) { RequestAwaits(c); }
  }

  lemma CopybackWriteOwns(b: Bank, a: nat, la: nat)
    requires BankOk(b) && Enabled(b, Advance(a)) && Aligned(la) && AllClean(b, la, a)
    requires (var c := b.cores[a].cache;
              WritesInside(c, la) && c.offset == 0 && CursorMode(c).CopybackMode? && Next(c).1.Done?)
    ensures (var c, r := b.cores[a].cache, Step(b, Advance(a));
             && HoldsDirty(r.cores[a].cache.lines, la, c.address, c.bytes)
             && Owned(r, a, la, r.cores[a].cache.lines[Find(r.cores[a].cache.lines, la)].bytes, {}))
  {
    CopybackWriteEnds(b.cores[a].cache, la);
    var r := Step(b, Advance(a));
    forall v | 0 <= v < |r.cores| && v != a ensures CoreOk(r.cores[v]) && Clean(r.cores[v], la) {
      assert Clean(b.cores[v], la);
    }
  }

  // ---------------------------------------------------------------- whole runs

  predicate AllEnabled(b: Bank, events: seq<Event>)
    requires BankOk(b)
    decreases |events|
  {
    events == [] || (Enabled(b, events[0]) && AllEnabled(Step(b, events[0]), events[1..]))
  }

  function RunBank(b: Bank, events: seq<Event>): (r: Bank)
    requires BankOk(b) && AllEnabled(b, events)
    ensures BankOk(r) && |r.cores| == |b.cores|
    decreases |events|
  {
    if events == [] then b else RunBank(Step(b, events[0]), events[1..])
  }

  predicate AllAllowed(events: seq<Event>, la: nat) { forall i | 0 <= i < |events| :: Allowed(events[i], la) }

  predicate AllKeepOwner(events: seq<Event>, a: nat) { forall i | 0 <= i < |events| :: KeepsOwner(events[i], a) }

  function PushedIn(b: Bank, events: seq<Event>, a: nat, la: nat): set<nat>
    requires BankOk(b) && AllEnabled(b, events)
    decreases |events|
  {
    if events == [] then {} else PushedBy(b, events[0], a, la) + PushedIn(Step(b, events[0]), events[1..], a, la)
  }

  lemma {:induction false} OwnedRun(b: Bank, events: seq<Event>, a: nat, la: nat, data: seq<Byte>, pushed: set<nat>)
    requires Owned(b, a, la, data, pushed) && AllEnabled(b, events) && AllAllowed(events, la) && AllKeepOwner(events, a)
    ensures Owned(RunBank(b, events), a, la, data, pushed + PushedIn(b, events, a, la))
    decreases |events|
  {
    if events == [] {
      assert pushed + {} == pushed;
    } else {
      OwnedKept(b, events[0], a, la, data, pushed);
      var now := PushedBy(b, events[0], a, la);
      OwnedRun(Step(b, events[0]), events[1..], a, la, data, pushed + now);
      assert (pushed + now) + PushedIn(Step(b, events[0]), events[1..], a, la) == pushed + PushedIn(b, events, a, la);
    }
  }

  lemma {:induction false} VisibleRun(b: Bank, events: seq<Event>, v: nat, la: nat, data: seq<Byte>)
    requires VisibleTo(b, v, la, data) && AllEnabled(b, events) && AllAllowed(events, la)
    ensures VisibleTo(RunBank(b, events), v, la, data)
    decreases |events|
  {
    if events != [] {
      VisibleKept(b, events[0], v, la, data);
      VisibleRun(Step(b, events[0]), events[1..], v, la, data);
    }
  }

  lemma PublishRun(b: Bank, events: seq<Event>, a: nat, la: nat, data: seq<Byte>)
    requires Owned(b, a, la, data, {}) && AllEnabled(b, events) && AllAllowed(events, la) && AllKeepOwner(events, a)
    requires forall w | 0 <= w < 4 :: w in PushedIn(b, events, a, la)
    ensures Published(RunBank(b, events), la, data)
  {
    OwnedRun(b, events, a, la, data, {});
    OwnedAllWaysPublished(RunBank(b, events), a, la, data, {} + PushedIn(b, events, a, la));
  }

  /** A read by core v of bytes in the line, if its next half-step ends it, delivers `data`. */
  predicate ReadDelivers(b: Bank, v: nat, la: nat, data: seq<Byte>)
    requires BankOk(b) && |data| == 16
  {
    Enabled(b, Advance(v)) && ReadsInside(b.cores[v].cache, la) && Next(b.cores[v].cache).1.Done? ==>
      var c := b.cores[v].cache;
      Step(b, Advance(v)).cores[v].last == data[c.address - la..c.address - la + c.count]
  }

  lemma VisibleDelivers(b: Bank, v: nat, la: nat, data: seq<Byte>)
    requires VisibleTo(b, v, la, data)
    ensures ReadDelivers(b, v, la, data)
  {
    if Enabled(b, Advance(v)) { AdvanceKeepsFresh(b.cores[v], la, data); }
  }

  lemma InvalidateMakesVisible(b: Bank, v: nat, la: nat, data: seq<Byte>, value: bv32)
    requires Published(b, la, data) && |data| == 16 && InvalidatesAll(2, value)
             && Enabled(b, Start(v, MovecOp(2, value)))
    ensures VisibleTo(Step(b, Start(v, MovecOp(2, value))), v, la, data)
  {
    PublishedKept(b, Start(v, MovecOp(2, value)), la, data);
    FreshStep(b, Start(v, MovecOp(2, value)), la, data);
  }

  /** Core a has just written the line copyback (CopybackWriteOwns). After any interleaving in which a pushes
      all four ways of the line's set, core v then invalidates its whole cache and, after any further
      interleaving, a read by v of bytes in the line gets exactly a's bytes, whatever else is resident
      anywhere, as long as no later command writes that line and a does not invalidate before its pushes. */
  lemma TwoCoreVisibility(b: Bank, a: nat, v: nat, la: nat, data: seq<Byte>,
                          before: seq<Event>, value: bv32, after: seq<Event>)
    requires Owned(b, a, la, data, {}) && |data| == 16
    requires AllEnabled(b, before) && AllAllowed(before, la) && AllKeepOwner(before, a)
    requires forall w | 0 <= w < 4 :: w in PushedIn(b, before, a, la)
    requires InvalidatesAll(2, value) && Enabled(RunBank(b, before), Start(v, MovecOp(2, value)))
    requires AllEnabled(Step(RunBank(b, before), Start(v, MovecOp(2, value))), after) && AllAllowed(after, la)
    ensures ReadDelivers(RunBank(Step(RunBank(b, before), Start(v, MovecOp(2, value))), after), v, la, data)
  {
    var mid := RunBank(b, before);
    var invalidated := Step(mid, Start(v, MovecOp(2, value)));
    PublishRun(b, before, a, la, data);
    InvalidateMakesVisible(mid, v, la, data, value);
    VisibleRun(invalidated, after, v, la, data);
    VisibleDelivers(RunBank(invalidated, after), v, la, data);
  }
  // ---------------------------------------------------------------- from the write to the read

  /** Core a is writing `bytes` inside the line, in copyback mode, and has not touched the line yet. */
  predicate Writing(b: Bank, a: nat, la: nat, address: nat, bytes: seq<Byte>) {
    BankOk(b) && a < |b.cores| && Aligned(la) && AllClean(b, la, a) && WritingCore(b.cores[a], la, address, bytes)
  }

  /** The events do not include the half-step that ends core a's command. */
  predicate Unfinished(b: Bank, events: seq<Event>, a: nat)
    requires BankOk(b) && AllEnabled(b, events)
    decreases |events|
  {
    events == [] || ((events[0] == Advance(a) ==> !Next(b.cores[a].cache).1.Done?)
                     && Unfinished(Step(b, events[0]), events[1..], a))
  }

  lemma WritingStep(k: Core, la: nat)
    requires CoreOk(k) && k.port.Quiet? && WritesInside(k.cache, la) && k.cache.offset == 0 && Aligned(la)
    requires k.cache.pending.Idle? && CursorMode(k.cache).CopybackMode? && !Next(k.cache).1.Done?
    ensures (var c, d := k.cache, Next(k.cache).0;
             && d.active && d.write && !d.pushing && d.offset == 0 && d.count == c.count && d.address == c.address
                && d.bytes == c.bytes
             && d.controls == c.controls && (d.pending.Fill? || d.pending.Evict?))
  {
    if IsHit(k.cache) { HitEnds(k.cache, la); }
  }

  lemma HitEnds(c: Cache, la: nat)
    requires Stepping(c) && WritesInside(c, la) && Aligned(la) && c.offset == 0 && IsHit(c)
    ensures NextChunk(c).1.Done?
  {
    HitWritesInside(c, la);
    assert NextChunk(HitStep(c)) == Finish(HitStep(c));
  }

  /** Core a's own part of Writing. */
  predicate WritingCore(k: Core, la: nat, address: nat, bytes: seq<Byte>) {
    var c := k.cache;
    && WritesInside(c, la) && c.offset == 0 && c.address == address && c.bytes == bytes && |bytes| == c.count
    && (c.pending.Idle? || c.pending.Fill? || c.pending.Evict?)
    && |c.controls.acr| == 4 && c.address < ADDRESS_SPACE && ModeAt(c.controls, c.address).CopybackMode?
  }

  lemma WritingCoreKept(b: Bank, e: Event, la: nat, address: nat, bytes: seq<Byte>)
    requires BankOk(b) && Enabled(b, e) && Aligned(la) && WritingCore(b.cores[e.core], la, address, bytes)
    requires e.Advance? ==> !Next(b.cores[e.core].cache).1.Done?
    ensures WritingCore(Step(b, e).cores[e.core], la, address, bytes)
  {
    if e.Advance? { WritingStep(b.cores[e.core], la); }
  }

  lemma WritingKept(b: Bank, e: Event, a: nat, la: nat, address: nat, bytes: seq<Byte>)
    requires Writing(b, a, la, address, bytes) && Enabled(b, e) && Allowed(e, la)
    requires e == Advance(a) ==> !Next(b.cores[a].cache).1.Done?
    ensures Writing(Step(b, e), a, la, address, bytes)
  {
    var r := Step(b, e);
    forall v | 0 <= v < |r.cores| && v != a ensures CoreOk(r.cores[v]) && Clean(r.cores[v], la) {
      assert Clean(b.cores[v], la);
      if v == e.core { CleanStep(b, e, la); }
    }
    if e.core == a { WritingCoreKept(b, e, la, address, bytes); }
  }

  lemma {:induction false} WritingRun(b: Bank, events: seq<Event>, a: nat, la: nat, address: nat, bytes: seq<Byte>)
    requires Writing(b, a, la, address, bytes) && AllEnabled(b, events) && AllAllowed(events, la)
             && Unfinished(b, events, a)
    ensures Writing(RunBank(b, events), a, la, address, bytes)
    decreases |events|
  {
    if events != [] {
      WritingKept(b, events[0], a, la, address, bytes);
      WritingRun(Step(b, events[0]), events[1..], a, la, address, bytes);
    }
  }

  lemma WriteStarts(b: Bank, a: nat, la: nat, address: nat, bytes: seq<Byte>)
    requires BankOk(b) && Aligned(la) && AllClean(b, la, a) && Enabled(b, Start(a, WriteOp(address, bytes)))
    requires la <= address && address + |bytes| <= la + 16 && ModeAt(b.cores[a].cache.controls, address).CopybackMode?
    ensures Writing(Step(b, Start(a, WriteOp(address, bytes))), a, la, address, bytes)
  {
    var r := Step(b, Start(a, WriteOp(address, bytes)));
    forall v | 0 <= v < |r.cores| && v != a ensures CoreOk(r.cores[v]) && Clean(r.cores[v], la) {
      assert Clean(b.cores[v], la);
    }
  }

  /** The line after the write: core a's copy, with the written bytes in it. */
  lemma WriteEnds(b: Bank, a: nat, la: nat, address: nat, bytes: seq<Byte>) returns (data: seq<Byte>)
    requires Writing(b, a, la, address, bytes) && Enabled(b, Advance(a)) && Next(b.cores[a].cache).1.Done?
    ensures |data| == 16 && Owned(Step(b, Advance(a)), a, la, data, {})
            && data[address - la..address - la + |bytes|] == bytes
  {
    CopybackWriteOwns(b, a, la);
    var lines := Step(b, Advance(a)).cores[a].cache.lines;
    data := lines[Find(lines, la)].bytes;
  }

  /** The whole handover. While no core but a may hold the line dirty, core a writes bytes of it copyback, in any
      interleaving with the others; then, in any interleaving, pushes all four ways of its set; then core v
      invalidates its whole cache; and after any further interleaving a read by v of bytes in the line delivers one
      fixed line that holds the bytes a wrote, whatever else is resident anywhere, provided nothing else writes the
      line and a does not invalidate before its pushes. */
  lemma TwoCoreHandover(b: Bank, a: nat, v: nat, la: nat, address: nat, bytes: seq<Byte>, writing: seq<Event>,
                        pushing: seq<Event>,
                        value: bv32, reading: seq<Event>, started: Bank, written: Bank, pushed: Bank, invalidated: Bank)
    returns (data: seq<Byte>)
    requires BankOk(b) && Aligned(la) && AllClean(b, la, a) && Enabled(b, Start(a, WriteOp(address, bytes)))
    requires la <= address && address + |bytes| <= la + 16 && ModeAt(b.cores[a].cache.controls, address).CopybackMode?
    requires started == Step(b, Start(a, WriteOp(address, bytes))) && AllEnabled(started, writing)
             && AllAllowed(writing, la)
    requires Unfinished(started, writing, a) && Enabled(RunBank(started, writing), Advance(a))
    requires Next(RunBank(started, writing).cores[a].cache).1.Done?
             && written == Step(RunBank(started, writing), Advance(a))
    requires AllEnabled(written, pushing) && AllAllowed(pushing, la) && AllKeepOwner(pushing, a)
    requires (forall w | 0 <= w < 4 :: w in PushedIn(written, pushing, a, la)) && pushed == RunBank(written, pushing)
    requires InvalidatesAll(2, value) && Enabled(pushed, Start(v, MovecOp(2, value)))
             && invalidated == Step(pushed, Start(v, MovecOp(2, value)))
    requires AllEnabled(invalidated, reading) && AllAllowed(reading, la)
    ensures |data| == 16 && data[address - la..address - la + |bytes|] == bytes
    ensures ReadDelivers(RunBank(invalidated, reading), v, la, data)
  {
    WriteStarts(b, a, la, address, bytes);
    WritingRun(started, writing, a, la, address, bytes);
    data := WriteEnds(RunBank(started, writing), a, la, address, bytes);
    TwoCoreVisibility(written, a, v, la, data, pushing, value, reading);
  }
}
