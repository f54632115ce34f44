/** What the cache-mode bits of CACR, ACR0 and ACR1 make an access do (src/quetz_window_cache.h): which requests it
    makes, and what it leaves in memory and in the lines. Nothing here is said through the decoded mode. */
module CacheModes {
  import opened WindowCache
  import opened CacheTransactions
  import opened CacheRefinement
  import opened CacheRuns

  // ---------------------------------------------------------------- the bits

  /** Two words agree in a bit, or the bit is masked. */
  predicate AgreeAt(x: bv32, y: bv32, mask: bv32, bit: bv32) { mask & bit != 0 || x & bit == y & bit }

  predicate LowNibbleAgrees(x: bv32, y: bv32, mask: bv32) {
    AgreeAt(x, y, mask, 1) && AgreeAt(x, y, mask, 2) && AgreeAt(x, y, mask, 4) && AgreeAt(x, y, mask, 8)
  }

  predicate LowByteAgrees(x: bv32, y: bv32, mask: bv32) {
    && LowNibbleAgrees(x, y, mask)
    && AgreeAt(x, y, mask, 0x10) && AgreeAt(x, y, mask, 0x20) && AgreeAt(x, y, mask, 0x40) && AgreeAt(x, y, mask, 0x80)
  }

  /** An access control register speaks for an address, given as its megabyte number: it is enabled (bit 15), its S
      field is nonzero (bits 14:13), and the address fits. With AMM (bit 10) the top byte is compared exactly and bits
      23:20 under mask bits 19:16; without it the top byte is compared under mask bits 23:16. */
  predicate SpeaksForMegabyte(acr: bv32, megabyte: bv32) {
    && acr & 0x8000 != 0 && (acr & 0x4000 != 0 || acr & 0x2000 != 0)
    && (if acr & 0x400 != 0 then megabyte >> 4 == acr >> 24 && LowNibbleAgrees(megabyte, acr >> 20, acr >> 16)
        else LowByteAgrees(megabyte >> 4, acr >> 24, acr >> 16))
  }

  predicate SpeaksFor(acr: bv32, a: nat)
    requires a < ADDRESS_SPACE
  {
    SpeaksForMegabyte(acr, (a / 0x10_0000) as bv32)
  }

  /** The two mode bits that govern an address: bits 6:5 of ACR0 if it speaks for the address, else of ACR1 if that
      does, else bits 26:25 of CACR. */
  predicate ModeBits(k: Controls, a: nat, hi: bool, lo: bool)
    requires |k.acr| == 4 && a < ADDRESS_SPACE
  {
    if SpeaksFor(k.acr[0], a) then hi == (k.acr[0] & 0x40 != 0) && lo == (k.acr[0] & 0x20 != 0)
    else if SpeaksFor(k.acr[1], a) then hi == (k.acr[1] & 0x40 != 0) && lo == (k.acr[1] & 0x20 != 0)
    else hi == (k.cacr & 0x0400_0000 != 0) && lo == (k.cacr & 0x0200_0000 != 0)
  }

  predicate Enabled(k: Controls) { k.cacr & 0x8000_0000 != 0 }

  /** The accesses that go past the cache: it is off, or the high mode bit is set. */
  predicate PastCache(k: Controls, a: nat)
    requires |k.acr| == 4 && a < ADDRESS_SPACE
  {
    !Enabled(k) || ModeBits(k, a, true, true) || ModeBits(k, a, true, false)
  }

  lemma OneBit(x: bv32, y: bv32, mask: bv32, bit: bv32)
    requires bit in {1, 2, 4, 8, 0x10, 0x20, 0x40, 0x80}
    ensures AgreeAt(x, y, mask, bit) <==> (x ^ y) & !mask & bit == 0
  {
  }

  lemma SplitLow(z: bv32)
    ensures z & 15 == 0 <==> z & 1 == 0 && z & 2 == 0 && z & 4 == 0 && z & 8 == 0
  {
  }

  lemma SplitHigh(z: bv32)
    ensures z & 0xf0 == 0 <==> z & 0x10 == 0 && z & 0x20 == 0 && z & 0x40 == 0 && z & 0x80 == 0
    ensures z & 0xff == 0 <==> z & 15 == 0 && z & 0xf0 == 0
  {
  }

  lemma NibbleMask(x: bv32, y: bv32, mask: bv32)
    ensures LowNibbleAgrees(x, y, mask) <==> (x ^ y) & !mask & 15 == 0
  {
    OneBit(x, y, mask, 1);
    OneBit(x, y, mask, 2);
    OneBit(x, y, mask, 4);
    OneBit(x, y, mask, 8);
    SplitLow((x ^ y) & !mask);
  }

  lemma ByteMask(x: bv32, y: bv32, mask: bv32)
    ensures LowByteAgrees(x, y, mask) <==> (x ^ y) & !mask & 0xff == 0
  {
    NibbleMask(x, y, mask);
    OneBit(x, y, mask, 0x10);
    OneBit(x, y, mask, 0x20);
    OneBit(x, y, mask, 0x40);
    OneBit(x, y, mask, 0x80);
    SplitHigh((x ^ y) & !mask);
  }

  lemma MaskTwice(z: bv32, mask: bv32)
    ensures z & !(mask & 0xff) & 0xff == z & !mask & 0xff
  {
  }

  lemma SField(acr: bv32)
    ensures (acr >> 13) & 3 != 0 <==> acr & 0x4000 != 0 || acr & 0x2000 != 0
  {
  }

  lemma SpeaksForIsMatch(acr: bv32, megabyte: bv32)
    ensures SpeaksForMegabyte(acr, megabyte) <==> AcrMatches(acr, megabyte)
  {
    SField(acr);
    var x, y := megabyte >> 4, acr >> 24;
    NibbleMask(megabyte, acr >> 20, acr >> 16);
    ByteMask(x, y, acr >> 16);
    MaskTwice(x ^ y, acr >> 16);
  }

  lemma FieldBits(acr: bv32, cacr: bv32)
    ensures DecodeMode((acr >> 5) & 3) == ModeOf(acr & 0x40 != 0, acr & 0x20 != 0)
    ensures DecodeMode((cacr >> 25) & 3) == ModeOf(cacr & 0x0400_0000 != 0, cacr & 0x0200_0000 != 0)
  {
  }

  function ModeOf(hi: bool, lo: bool): Mode { if hi then InhibitedMode else if lo then CopybackMode else ThroughMode }

  /** The bits decide the mode. */
  lemma BitsAreMode(k: Controls, a: nat, hi: bool, lo: bool)
    requires |k.acr| == 4 && a < ADDRESS_SPACE && ModeBits(k, a, hi, lo)
    ensures ModeAt(k, a) == if Enabled(k) then ModeOf(hi, lo) else InhibitedMode
  {
    var megabyte := (a / 0x10_0000) as bv32;
    SpeaksForIsMatch(k.acr[0], megabyte);
    SpeaksForIsMatch(k.acr[1], megabyte);
    if SpeaksFor(k.acr[0], a) {
      FieldBits(k.acr[0], k.cacr);
    } else {
      FieldBits(k.acr[1], k.cacr);
    }
  }

  lemma SomeBits(k: Controls, a: nat) returns (hi: bool, lo: bool)
    requires |k.acr| == 4 && a < ADDRESS_SPACE
    ensures ModeBits(k, a, hi, lo)
  {
    if SpeaksFor(k.acr[0], a) {
      hi, lo := k.acr[0] & 0x40 != 0, k.acr[0] & 0x20 != 0;
    } else if SpeaksFor(k.acr[1], a) {
      hi, lo := k.acr[1] & 0x40 != 0, k.acr[1] & 0x20 != 0;
    } else {
      hi, lo := k.cacr & 0x0400_0000 != 0, k.cacr & 0x0200_0000 != 0;
    }
  }

  lemma PastCacheIsInhibited(k: Controls, a: nat)
    requires |k.acr| == 4 && a < ADDRESS_SPACE && PastCache(k, a)
    ensures ModeAt(k, a).InhibitedMode?
  {
    if ModeBits(k, a, true, true) {
      BitsAreMode(k, a, true, true);
    } else if ModeBits(k, a, true, false) {
      BitsAreMode(k, a, true, false);
    } else {
      var hi, lo := SomeBits(k, a);
      BitsAreMode(k, a, hi, lo);
    }
  }

  // ---------------------------------------------------------------- one access inside one line

  /** An accepted access to n bytes of one line. */
  predicate InLineAccess(c: Cache, a: nat, n: nat) {
    IdleCache(c) && 0 < n <= 8 && Covered(c.regions, a, n) && a % 16 + n <= 16 && a + n <= ADDRESS_SPACE
  }

  /** The started access, about to look at its bytes. */
  predicate Looking(c: Cache, d: Cache, a: nat, n: nat) {
    && Stepping(d) && d.offset == 0 && d.count == n && d.address == a && d.address % 16 + n <= 16 && n > 0
    && d.regions == c.regions && d.controls == c.controls && d.lines == c.lines && d.replacement == c.replacement
  }

  lemma ReadLooks(c: Cache, a: nat, n: nat)
    requires InLineAccess(c, a, n)
    ensures Accepted(c.regions, ReadOp(a, n)) && Begin(c, ReadOp(a, n)).Ok?
    ensures Looking(c, Begin(c, ReadOp(a, n)).value, a, n) && !Begin(c, ReadOp(a, n)).value.write
  {
    BeginOk(c, ReadOp(a, n));
  }

  lemma WriteLooks(c: Cache, a: nat, data: seq<Byte>)
    requires InLineAccess(c, a, |data|)
    ensures Accepted(c.regions, WriteOp(a, data)) && Begin(c, WriteOp(a, data)).Ok?
    ensures (var d := Begin(c, WriteOp(a, data)).value; Looking(c, d, a, |data|) && d.write && d.bytes == data)
  {
    BeginOk(c, WriteOp(a, data));
  }

  lemma OneChunk(c: Cache, d: Cache, a: nat, n: nat)
    requires Looking(c, d, a, n)
    ensures Cursor(d) == a && ChunkSize(d) == n && Chunk(d) == d.bytes && a < ADDRESS_SPACE
    ensures CursorMode(d) == ModeAt(c.controls, a) && LineOf(a) % 16 == 0 && InLine(a) == a - LineOf(a)
    ensures LineOf(a) + 16 <= ADDRESS_SPACE && a + n <= LineOf(a) + 16
  {
    CursorInSpace(d);
    CursorLine(d);
    LineCovered(d.regions, d.address, d.count, Cursor(d));
    CoveredBounds(d.regions, LineOf(a), 16);
  }

  lemma FinishRun(e: Cache, m: Memory)
    requires Stepping(e) && e.offset == e.count
    ensures Run(e, m) == Outcome(e.(active := false), m, if e.write then [] else e.bytes, [])
  {
    assert Next(e) == Finish(e);
    RunDone(e, m);
  }

  lemma BypassStep(c: Cache, d: Cache, m: Memory, a: nat, n: nat)
    requires Looking(c, d, a, n) && a + n <= ADDRESS_SPACE && a < ADDRESS_SPACE
    requires Bypasses(ModeAt(c.controls, a), d.write, Find(c.lines, LineOf(a)) < 2048)
    ensures |d.bytes| == n && Next(d).1 == (if d.write then Write(a, d.bytes) else Read(a, n))
            && AwaitsAnswer(d, Next(d))
    ensures (var (e, m') := Answered(d, m, Next(d));
             && Stepping(e) && e.offset == e.count && e.write == d.write
             && e.lines == c.lines && e.replacement == c.replacement
             && m' == (if d.write then Splice(m, a, d.bytes) else m) && (!d.write ==> e.bytes == m[a..a + n]))
  {
    OneChunk(c, d, a, n);
    RequestAwaits(d);
  }

  /** Straight to memory: one request for exactly these bytes, and no line is looked at or changed. */
  lemma BypassRun(c: Cache, d: Cache, m: Memory, a: nat, n: nat)
    requires Looking(c, d, a, n) && a + n <= ADDRESS_SPACE && a < ADDRESS_SPACE
    requires Bypasses(ModeAt(c.controls, a), d.write, Find(c.lines, LineOf(a)) < 2048)
    ensures (var o := Run(d, m);
             && o.cache.lines == c.lines && o.cache.replacement == c.replacement
             && |d.bytes| == n
             && o.log == [if d.write then Write(a, d.bytes) else Read(a, n)]
             && o.memory == (if d.write then Splice(m, a, d.bytes) else m)
             && o.result == if d.write then [] else m[a..a + n])
  {
    BypassStep(c, d, m, a, n);
    RunStep(d, m);
    var (e, m') := Answered(d, m, Next(d));
    FinishRun(e, m');
  }

  /** Served by the resident line: no request at all. */
  lemma HitRun(c: Cache, d: Cache, m: Memory, a: nat, n: nat)
    requires Looking(c, d, a, n) && Find(c.lines, LineOf(a)) < 2048 && a < ADDRESS_SPACE
    requires ModeAt(c.controls, a).CopybackMode? || (ModeAt(c.controls, a).ThroughMode? && !d.write)
    ensures (var o, slot := Run(d, m), Find(c.lines, LineOf(a));
             && o.log == [] && o.memory == m && o.cache.replacement == c.replacement
             && |d.bytes| == n && |c.lines[slot].bytes| == 16 && InLine(a) + n <= 16
             && o.cache.lines == (if d.write then WrittenBack(c.lines, slot, InLine(a), d.bytes) else c.lines)
             && o.result == if d.write then [] else c.lines[slot].bytes[InLine(a)..InLine(a) + n])
  {
    OneChunk(c, d, a, n);
    HitStepKeeps(d);
    assert SlotOk(d.regions, d.lines, Find(d.lines, LineOf(a)));
    var e := HitStep(d);
    assert e.offset == e.count && NextChunk(e) == Finish(e) && Next(d) == NextChunk(e);
    RunDone(d, m);
  }

  /** A slot written copyback: the bytes in the line, and the dirty bit set. */
  function WrittenBack(lines: seq<Line>, slot: nat, at: nat, data: seq<Byte>): seq<Line>
    requires slot < |lines| && at + |data| <= |lines[slot].bytes|
  {
    lines[slot := lines[slot].(bytes := Splice(lines[slot].bytes, at, data), dirty := true)]
  }

  /** Written through: line and memory get the same bytes, in one request, and the line ends clean. */
  lemma ThroughRun(c: Cache, d: Cache, m: Memory, a: nat, n: nat)
    requires Looking(c, d, a, n) && Find(c.lines, LineOf(a)) < 2048 && a + n <= ADDRESS_SPACE && a < ADDRESS_SPACE
    requires ModeAt(c.controls, a).ThroughMode? && d.write
    ensures (var o, slot := Run(d, m), Find(c.lines, LineOf(a));
             && |d.bytes| == n && |c.lines[slot].bytes| == 16 && InLine(a) + n <= 16
             && o.log == [Write(a, d.bytes)] && o.memory == Splice(m, a, d.bytes)
             && o.cache.lines == WrittenThrough(c.lines, slot, InLine(a), d.bytes)
             && o.cache.replacement == c.replacement && o.result == [])
  {
    OneChunk(c, d, a, n);
    RequestAwaits(d);
    assert SlotOk(d.regions, d.lines, Find(d.lines, LineOf(a)));
    RunStep(d, m);
    var (e, m') := Answered(d, m, Next(d));
    FinishRun(e, m');
  }

  // ---------------------------------------------------------------- a miss

  /** The line a miss brings in, with the bytes written if it is a write. */
  function Brought(m: Memory, a: nat, write: bool, data: seq<Byte>): Line
    requires LineOf(a) + 16 <= ADDRESS_SPACE && (write ==> InLine(a) + |data| <= 16)
  {
    var was := m[LineOf(a)..LineOf(a) + 16];
    Line(if write then Splice(was, InLine(a), data) else was, LineOf(a), true, write)
  }

  /** What a miss that has to fill its line leaves, with the victim's bytes in memory already. */
  predicate Filled(c: Cache, d: Cache, m: Memory, a: nat, n: nat, v: nat, o: Outcome)
    requires LineOf(a) + 16 <= ADDRESS_SPACE
  {
    && v < 2048 && |c.lines| == 2048 && |d.bytes| == n && InLine(a) + n <= 16
    && o.cache.lines == c.lines[v := Brought(m, a, d.write, d.bytes)] && o.cache.replacement == (c.replacement + 1) % 4
    && o.memory == m
    && o.result == if d.write then [] else m[LineOf(a)..LineOf(a) + 16][InLine(a)..InLine(a) + n]
  }

  predicate Misses(c: Cache, d: Cache, a: nat, n: nat) {
    && Looking(c, d, a, n) && a < ADDRESS_SPACE && LineOf(a) + 16 <= ADDRESS_SPACE
       && Find(c.lines, LineOf(a)) == NO_SLOT
    && (ModeAt(c.controls, a).CopybackMode? || (ModeAt(c.controls, a).ThroughMode? && !d.write))
  }

  function VictimOf(c: Cache, a: nat): nat
    requires Valid(c)
  {
    Victim(c.lines, c.controls, c.replacement, SetIndex(LineOf(a)))
  }

  /** After the fill the access is a hit. */
  lemma FillStep(c: Cache, d: Cache, m: Memory, a: nat, n: nat)
    requires Misses(c, d, a, n) && !d.lines[VictimOf(d, a)].dirty
    ensures Next(d).1 == Read(LineOf(a), 16) && AwaitsAnswer(d, Next(d))
    ensures (var (e, m') := Answered(d, m, Next(d)); var v := VictimOf(d, a);
             && m' == m && e.write == d.write && e.bytes == d.bytes
             && e.lines == c.lines[v := Line(m[LineOf(a)..LineOf(a) + 16], LineOf(a), true, false)]
             && Looking(e, e, a, n) && e.controls == c.controls && e.replacement == (c.replacement + 1) % 4
             && Find(e.lines, LineOf(a)) == v)
  {
    OneChunk(c, d, a, n);
    RequestAwaits(d);
    MissFields(d, m);
    var (e, m') := Answered(d, m, Next(d));
    ActionInSpace(d, Next(d).1);
    SlotBounds(e.regions, e.lines, VictimOf(d, a));
  }

  lemma FillRun(c: Cache, d: Cache, m: Memory, a: nat, n: nat)
    requires Misses(c, d, a, n) && !d.lines[VictimOf(d, a)].dirty
    ensures Filled(c, d, m, a, n, VictimOf(d, a), Run(d, m)) && Run(d, m).log == [Read(LineOf(a), 16)]
  {
    FillStep(c, d, m, a, n);
    RunStep(d, m);
    var (e, m') := Answered(d, m, Next(d));
    HitRun(e, e, m, a, n);
  }

  /** A dirty victim is written back first, and its slot is the one then filled. */
  lemma EvictStep(c: Cache, d: Cache, m: Memory, a: nat, n: nat)
    requires Misses(c, d, a, n) && d.lines[VictimOf(d, a)].dirty
    ensures (var v := VictimOf(d, a);
             DirtyBounds(d, v);
             && Next(d).1 == Write(c.lines[v].address, c.lines[v].bytes) && AwaitsAnswer(d, Next(d))
             && var (e, m') := Answered(d, m, Next(d));
                && m' == PushedMemory(m, c.lines[v]) && e.write == d.write && e.bytes == d.bytes
                && e.lines == c.lines[v := c.lines[v].(dirty := false, valid := false)]
                && Misses(e, e, a, n) && e.controls == c.controls && e.replacement == c.replacement
                && VictimOf(e, a) == v)
  {
    OneChunk(c, d, a, n);
    DirtyBounds(d, VictimOf(d, a));
    RequestAwaits(d);
    MissFields(d, m);
    VictimIsTheSlotJustFreed(d);
    var (e, m') := Answered(d, m, Next(d));
    assert SlotOk(d.regions, d.lines, VictimOf(d, a));
    assert Find(e.lines, LineOf(a)) == NO_SLOT;
  }

  lemma EvictRun(c: Cache, d: Cache, m: Memory, a: nat, n: nat)
    requires Misses(c, d, a, n) && d.lines[VictimOf(d, a)].dirty
    ensures (var v := VictimOf(d, a);
             DirtyBounds(d, v);
             && Filled(c, d, PushedMemory(m, c.lines[v]), a, n, v, Run(d, m))
             && Run(d, m).log == [Write(c.lines[v].address, c.lines[v].bytes), Read(LineOf(a), 16)])
  {
    EvictStep(c, d, m, a, n);
    RunStep(d, m);
    var (e, m') := Answered(d, m, Next(d));
    FillRun(e, e, m', a, n);
    FilledTransfers(c, d, e, m', a, n, VictimOf(d, a), Run(e, m'), Run(d, m));
  }

  lemma FilledTransfers(c: Cache, d: Cache, e: Cache, m: Memory, a: nat, n: nat, v: nat, o: Outcome, p: Outcome)
    requires LineOf(a) + 16 <= ADDRESS_SPACE && Filled(e, e, m, a, n, v, o) && p == o.(log := p.log)
    requires e.write == d.write && e.bytes == d.bytes && e.replacement == c.replacement && |c.lines| == 2048
    requires e.lines == c.lines[v := e.lines[v]]
    ensures Filled(c, d, m, a, n, v, p)
  {
  }

  // ---------------------------------------------------------------- which slot a miss takes

  /** The slot a miss fills: with way locking (CACR bit 27) only ways 2 and 3 are used; the lowest of them that is not
      in use, and if all are, the one the round-robin counter points at. */
  predicate TakesSlot(c: Cache, a: nat, v: nat)
    requires |c.lines| == 2048
  {
    var base, locked := SetIndex(LineOf(a)) * 4, c.controls.cacr & 0x0800_0000 != 0;
    var first := if locked then 2 else 0;
    && base + first <= v < base + 4
    && (forall s | base + first <= s < v && !c.lines[v].valid :: c.lines[s].valid)
    && (c.lines[v].valid ==>
          && (forall s | base + first <= s < base + 4 :: c.lines[s].valid)
          && v == base + if locked then 2 + c.replacement / 2 else c.replacement)
  }

  lemma VictimTakes(c: Cache, a: nat)
    requires Valid(c)
    ensures TakesSlot(c, a, VictimOf(c, a))
  {
  }

  // ---------------------------------------------------------------- accesses, by the bits

  /** With the cache off, or the high mode bit set, an access is one request for exactly its bytes: no line is looked
      at, filled, written back or changed. */
  lemma PastCacheAccess(c: Cache, m: Memory, a: nat, n: nat, data: seq<Byte>)
    requires InLineAccess(c, a, n) && |data| == n && PastCache(c.controls, a)
    ensures Accepted(c.regions, ReadOp(a, n)) && Accepted(c.regions, WriteOp(a, data))
    ensures (var o := Exec(c, m, ReadOp(a, n));
             && o.log == [Read(a, n)] && o.memory == m && o.result == m[a..a + n]
             && o.cache.lines == c.lines && o.cache.replacement == c.replacement)
    ensures (var o := Exec(c, m, WriteOp(a, data));
             && o.log == [Write(a, data)] && o.memory == Splice(m, a, data)
             && o.cache.lines == c.lines && o.cache.replacement == c.replacement)
  {
    PastCacheIsInhibited(c.controls, a);
    ReadLooks(c, a, n);
    WriteLooks(c, a, data);
    BypassRun(c, Begin(c, ReadOp(a, n)).value, m, a, n);
    BypassRun(c, Begin(c, WriteOp(a, data)).value, m, a, n);
  }

  /** No slot holds the line of an address. */
  predicate NotResident(c: Cache, a: nat)
    requires |c.lines| == 2048
  {
    forall s | 0 <= s < 2048 :: !(c.lines[s].valid && c.lines[s].address == LineOf(a))
  }

  predicate Resident(c: Cache, a: nat, s: nat)
    requires |c.lines| == 2048
  {
    s < 2048 && c.lines[s].valid && c.lines[s].address == LineOf(a)
  }

  lemma ResidentIsFound(c: Cache, a: nat, s: nat)
    requires Valid(c) && Resident(c, a, s)
    ensures Find(c.lines, LineOf(a)) == s
  {
    assert SlotOk(c.regions, c.lines, s);
  }

  /** Mode bits 00: a store that misses sends exactly its bytes and allocates nothing. */
  lemma ThroughMiss(c: Cache, m: Memory, a: nat, data: seq<Byte>)
    requires InLineAccess(c, a, |data|) && Enabled(c.controls) && ModeBits(c.controls, a, false, false)
             && NotResident(c, a)
    ensures Accepted(c.regions, WriteOp(a, data))
    ensures (var o := Exec(c, m, WriteOp(a, data));
             && o.log == [Write(a, data)] && o.memory == Splice(m, a, data)
             && o.cache.lines == c.lines && o.cache.replacement == c.replacement)
  {
    BitsAreMode(c.controls, a, false, false);
    WriteLooks(c, a, data);
    BypassRun(c, Begin(c, WriteOp(a, data)).value, m, a, |data|);
  }

  /** Mode bits 00: a store that hits goes to the line and to memory, in one request, and leaves the line clean. */
  lemma ThroughHit(c: Cache, m: Memory, a: nat, data: seq<Byte>, s: nat)
    requires InLineAccess(c, a, |data|) && Enabled(c.controls) && ModeBits(c.controls, a, false, false)
             && Resident(c, a, s)
    ensures Accepted(c.regions, WriteOp(a, data)) && |c.lines[s].bytes| == 16
    ensures (var o, at := Exec(c, m, WriteOp(a, data)), a - LineOf(a);
             && o.log == [Write(a, data)] && o.memory == Splice(m, a, data) && o.cache.replacement == c.replacement
             && 0 <= at && at + |data| <= 16
             && o.cache.lines == c.lines[s := Line(Splice(c.lines[s].bytes, at, data), LineOf(a), true, false)])
  {
    BitsAreMode(c.controls, a, false, false);
    ResidentIsFound(c, a, s);
    WriteLooks(c, a, data);
    ThroughRun(c, Begin(c, WriteOp(a, data)).value, m, a, |data|);
    OneChunk(c, Begin(c, WriteOp(a, data)).value, a, |data|);
  }

  /** Mode bits 01: a store that hits stays in the line, which ends dirty; no request is made. */
  lemma CopybackHit(c: Cache, m: Memory, a: nat, data: seq<Byte>, s: nat)
    requires InLineAccess(c, a, |data|) && Enabled(c.controls) && ModeBits(c.controls, a, false, true)
             && Resident(c, a, s)
    ensures Accepted(c.regions, WriteOp(a, data)) && |c.lines[s].bytes| == 16
    ensures (var o, at := Exec(c, m, WriteOp(a, data)), a - LineOf(a);
             && o.log == [] && o.memory == m && o.cache.replacement == c.replacement
             && 0 <= at && at + |data| <= 16
             && o.cache.lines == c.lines[s := Line(Splice(c.lines[s].bytes, at, data), LineOf(a), true, true)])
  {
    BitsAreMode(c.controls, a, false, true);
    ResidentIsFound(c, a, s);
    WriteLooks(c, a, data);
    HitRun(c, Begin(c, WriteOp(a, data)).value, m, a, |data|);
    OneChunk(c, Begin(c, WriteOp(a, data)).value, a, |data|);
  }

  /** High mode bit clear: a load that hits returns the line's bytes and makes no request. */
  lemma CachedReadHit(c: Cache, m: Memory, a: nat, n: nat, lo: bool, s: nat)
    requires InLineAccess(c, a, n) && Enabled(c.controls) && ModeBits(c.controls, a, false, lo) && Resident(c, a, s)
    ensures Accepted(c.regions, ReadOp(a, n)) && |c.lines[s].bytes| == 16
    ensures (var o, at := Exec(c, m, ReadOp(a, n)), a - LineOf(a);
             && o.log == [] && o.memory == m && o.cache.replacement == c.replacement && o.cache.lines == c.lines
             && 0 <= at && at + n <= 16 && o.result == c.lines[s].bytes[at..at + n])
  {
    BitsAreMode(c.controls, a, false, lo);
    ResidentIsFound(c, a, s);
    ReadLooks(c, a, n);
    HitRun(c, Begin(c, ReadOp(a, n)).value, m, a, n);
    OneChunk(c, Begin(c, ReadOp(a, n)).value, a, n);
  }

  /** What a miss that fills slot v leaves: the slot's dirty line in memory, the new line in the slot, the counter one
      on, and nothing else changed. */
  predicate Allocates(c: Cache, m: Memory, a: nat, v: nat, write: bool, data: seq<Byte>, o: Outcome)
    requires Valid(c)
  {
    && v < 2048 && LineOf(a) + 16 <= ADDRESS_SPACE && (write ==> InLine(a) + |data| <= 16)
    && (DirtyBounds(c, v);
        && o.memory == PushedMemory(m, c.lines[v])
        && o.log == (if c.lines[v].dirty then [Write(c.lines[v].address, c.lines[v].bytes)] else [])
              + [Read(LineOf(a), 16)])
    && o.cache.replacement == (c.replacement + 1) % 4
    && o.cache.lines == c.lines[v := Brought(m, a, write, data)]
  }

  lemma MissRun(c: Cache, d: Cache, m: Memory, a: nat, n: nat)
    requires Valid(c) && Misses(c, d, a, n)
    ensures Allocates(c, m, a, VictimOf(c, a), d.write, d.bytes, Run(d, m)) && ReadsLine(d, m, a, n, Run(d, m))
  {
    if d.lines[VictimOf(d, a)].dirty { DirtyMissRun(c, d, m, a, n); } else { CleanMissRun(c, d, m, a, n); }
  }

  lemma CleanMissRun(c: Cache, d: Cache, m: Memory, a: nat, n: nat)
    requires Valid(c) && Misses(c, d, a, n) && !d.lines[VictimOf(d, a)].dirty
    ensures Allocates(c, m, a, VictimOf(c, a), d.write, d.bytes, Run(d, m)) && ReadsLine(d, m, a, n, Run(d, m))
  {
    FillRun(c, d, m, a, n);
    FilledAllocates(c, d, m, m, a, n, VictimOf(d, a), Run(d, m));
  }

  lemma DirtyMissRun(c: Cache, d: Cache, m: Memory, a: nat, n: nat)
    requires Valid(c) && Misses(c, d, a, n) && d.lines[VictimOf(d, a)].dirty
    ensures Allocates(c, m, a, VictimOf(c, a), d.write, d.bytes, Run(d, m)) && ReadsLine(d, m, a, n, Run(d, m))
  {
    EvictRun(c, d, m, a, n);
    DirtyBounds(c, VictimOf(c, a));
    VictimElsewhere(c, m, a);
    FilledAllocates(c, d, m, PushedMemory(m, c.lines[VictimOf(d, a)]), a, n, VictimOf(d, a), Run(d, m));
  }

  lemma VictimElsewhere(c: Cache, m: Memory, a: nat)
    requires Valid(c) && Find(c.lines, LineOf(a)) == NO_SLOT && LineOf(a) + 16 <= ADDRESS_SPACE
    ensures (DirtyBounds(c, VictimOf(c, a));
             PushedMemory(m, c.lines[VictimOf(c, a)])[LineOf(a)..LineOf(a) + 16] == m[LineOf(a)..LineOf(a) + 16])
  {
    var v := VictimOf(c, a);
    DirtyBounds(c, v);
    assert SlotOk(c.regions, c.lines, v);
    if c.lines[v].dirty { ElsewhereInMemory(m, c.lines[v], LineOf(a)); }
  }

  predicate ReadsLine(d: Cache, m: Memory, a: nat, n: nat, o: Outcome) {
    !d.write ==>
      LineOf(a) + 16 <= ADDRESS_SPACE && InLine(a) + n <= 16
      && o.result == m[LineOf(a)..LineOf(a) + 16][InLine(a)..InLine(a) + n]
  }

  lemma FilledAllocates(c: Cache, d: Cache, m: Memory, m': Memory, a: nat, n: nat, v: nat, o: Outcome)
    requires Valid(c) && LineOf(a) + 16 <= ADDRESS_SPACE && Filled(c, d, m', a, n, v, o)
    requires m'[LineOf(a)..LineOf(a) + 16] == m[LineOf(a)..LineOf(a) + 16]
    requires (DirtyBounds(c, v);
              && m' == PushedMemory(m, c.lines[v])
              && o.log == (if c.lines[v].dirty then [Write(c.lines[v].address, c.lines[v].bytes)] else [])
                    + [Read(LineOf(a), 16)])
    ensures Allocates(c, m, a, v, d.write, d.bytes, o) && ReadsLine(d, m, a, n, o)
  {
  }

  lemma ElsewhereInMemory(m: Memory, l: Line, la: nat)
    requires |l.bytes| == 16 && l.address + 16 <= ADDRESS_SPACE && la + 16 <= ADDRESS_SPACE
    requires l.address % 16 == 0 && la % 16 == 0 && l.address != la
    ensures PushedMemory(m, l)[la..la + 16] == m[la..la + 16]
  {
  }

  /** Mode bits 01: a store that misses brings the line in and leaves it dirty with the bytes written; the line's own
      bytes in memory stay as they were. */
  lemma CopybackMiss(c: Cache, m: Memory, a: nat, data: seq<Byte>) returns (v: nat)
    requires InLineAccess(c, a, |data|) && Enabled(c.controls) && ModeBits(c.controls, a, false, true)
             && NotResident(c, a)
    ensures Accepted(c.regions, WriteOp(a, data))
    ensures TakesSlot(c, a, v) && Allocates(c, m, a, v, true, data, Exec(c, m, WriteOp(a, data)))
  {
    v := VictimOf(c, a);
    VictimTakes(c, a);
    BitsAreMode(c.controls, a, false, true);
    WriteLooks(c, a, data);
    var d := Begin(c, WriteOp(a, data)).value;
    OneChunk(c, d, a, |data|);
    MissRun(c, d, m, a, |data|);
  }

  /** High mode bit clear: a load that misses brings the line in clean and returns memory's bytes. */
  lemma CachedReadMiss(c: Cache, m: Memory, a: nat, n: nat, lo: bool) returns (v: nat)
    requires InLineAccess(c, a, n) && Enabled(c.controls) && ModeBits(c.controls, a, false, lo) && NotResident(c, a)
    ensures Accepted(c.regions, ReadOp(a, n))
    ensures TakesSlot(c, a, v) && Allocates(c, m, a, v, false, [], Exec(c, m, ReadOp(a, n)))
    ensures Exec(c, m, ReadOp(a, n)).result == m[a..a + n]
  {
    v := VictimOf(c, a);
    VictimTakes(c, a);
    BitsAreMode(c.controls, a, false, lo);
    ReadLooks(c, a, n);
    var d := Begin(c, ReadOp(a, n)).value;
    ReadMiss(c, d, m, a, n);
  }

  lemma ReadMiss(c: Cache, d: Cache, m: Memory, a: nat, n: nat)
    requires Valid(c) && Looking(c, d, a, n) && !d.write && NotResident(c, a) && a + n <= ADDRESS_SPACE
    requires a < ADDRESS_SPACE && !ModeAt(c.controls, a).InhibitedMode?
    ensures Allocates(c, m, a, VictimOf(c, a), false, [], Run(d, m)) && Run(d, m).result == m[a..a + n]
  {
    OneChunk(c, d, a, n);
    MissRun(c, d, m, a, n);
    NoData(c, m, a, VictimOf(c, a), d.bytes, Run(d, m));
    LineResult(d, m, a, n, Run(d, m));
  }

  lemma LineResult(d: Cache, m: Memory, a: nat, n: nat, o: Outcome)
    requires !d.write && ReadsLine(d, m, a, n, o) && a + n <= ADDRESS_SPACE
    ensures o.result == m[a..a + n]
  {
    SliceOfLine(m, LineOf(a), InLine(a), n);
  }

  lemma NoData(c: Cache, m: Memory, a: nat, v: nat, data: seq<Byte>, o: Outcome)
    requires Valid(c) && Allocates(c, m, a, v, false, data, o)
    ensures Allocates(c, m, a, v, false, [], o)
  {
  }

  lemma SliceOfLine(m: seq<Byte>, la: nat, at: nat, n: nat)
    requires la + 16 <= |m| && at + n <= 16
    ensures m[la..la + 16][at..at + n] == m[la + at..la + at + n]
  {
    var s, t := m[la..la + 16][at..at + n], m[la + at..la + at + n];
    forall i | 0 <= i < n ensures s[i] == t[i] {}
    assert s == t;
  }

  // ---------------------------------------------------------------- replacement

  /** All four ways of the set that an address maps to are in use, and none is locked. */
  predicate FullSet(c: Cache, set_: nat)
    requires |c.lines| == 2048
  {
    && set_ < 512 && c.controls.cacr & 0x0800_0000 == 0
    && c.lines[set_ * 4].valid && c.lines[set_ * 4 + 1].valid && c.lines[set_ * 4 + 2].valid
       && c.lines[set_ * 4 + 3].valid
  }

  /** A byte that can be loaded into the set through the cache. */
  predicate Loadable(c: Cache, set_: nat, a: nat, lo: bool) {
    InLineAccess(c, a, 1) && Enabled(c.controls) && ModeBits(c.controls, a, false, lo) && SetIndex(LineOf(a)) == set_
  }

  function Load(c: Cache, m: Memory, a: nat): Outcome
    requires IdleCache(c) && Accepted(c.regions, ReadOp(a, 1))
  {
    Exec(c, m, ReadOp(a, 1))
  }

  lemma LoadKeepsControls(c: Cache, m: Memory, a: nat)
    requires IdleCache(c) && Accepted(c.regions, ReadOp(a, 1))
    ensures Load(c, m, a).cache.controls == c.controls
  {
    BeginOk(c, ReadOp(a, 1));
  }

  /** A load that replaced the way the counter points at, and nothing else, and moved the counter on. */
  predicate Replaced(c: Cache, d: Cache, set_: nat, a: nat)
    requires |c.lines| == 2048
  {
    var v := set_ * 4 + c.replacement;
    && |d.lines| == 2048 && v < 2048 && c.replacement < 4 && d.replacement == (c.replacement + 1) % 4
    && d.lines == c.lines[v := d.lines[v]] && d.lines[v].valid && d.lines[v].address == LineOf(a)
  }

  lemma FullTakes(c: Cache, set_: nat, a: nat, v: nat)
    requires |c.lines| == 2048 && FullSet(c, set_) && SetIndex(LineOf(a)) == set_ && TakesSlot(c, a, v)
    ensures v == set_ * 4 + c.replacement
  {
    assert c.lines[v].valid;
  }

  lemma LoadReplaces(c: Cache, m: Memory, set_: nat, a: nat, lo: bool)
    requires IdleCache(c) && FullSet(c, set_) && Loadable(c, set_, a, lo) && NotResident(c, a)
    ensures Accepted(c.regions, ReadOp(a, 1)) && Replaced(c, Load(c, m, a).cache, set_, a)
  {
    var v := CachedReadMiss(c, m, a, 1, lo);
    FullTakes(c, set_, a, v);
  }

  lemma LoadableKept(c: Cache, d: Cache, set_: nat, a: nat, b: nat, lo: bool)
    requires IdleCache(d) && d.regions == c.regions && d.controls == c.controls && |c.lines| == 2048
    requires FullSet(c, set_) && Replaced(c, d, set_, a)
    requires Loadable(c, set_, b, lo) && NotResident(c, b) && LineOf(a) != LineOf(b)
    ensures Loadable(d, set_, b, lo) && NotResident(d, b)
  {
  }

  lemma FullKept(c: Cache, d: Cache, set_: nat, a: nat)
    requires |c.lines| == 2048 && d.controls == c.controls && FullSet(c, set_) && Replaced(c, d, set_, a)
    ensures FullSet(d, set_)
  {
  }

  /** One of the loads, and what it leaves for the later ones. */
  lemma LoadStep(c: Cache, m: Memory, set_: nat, a: nat, lo: bool)
    requires IdleCache(c) && FullSet(c, set_) && Loadable(c, set_, a, lo) && NotResident(c, a)
    ensures Accepted(c.regions, ReadOp(a, 1))
    ensures (var d := Load(c, m, a).cache;
             IdleCache(d) && Replaced(c, d, set_, a) && FullSet(d, set_) && d.regions == c.regions
                 && d.controls == c.controls)
  {
    LoadReplaces(c, m, set_, a, lo);
    LoadKeepsControls(c, m, a);
    FullKept(c, Load(c, m, a).cache, set_, a);
  }

  predicate HeldAt(c: Cache, s: nat, a: nat)
    requires |c.lines| == 2048
  {
    s < 2048 && c.lines[s].valid && c.lines[s].address == LineOf(a)
  }

  lemma FourReplaced(c: Cache, d: Cache, e: Cache, f: Cache, g: Cache, set_: nat, a0: nat, a1: nat, a2: nat, a3: nat)
    requires |c.lines| == 2048 && set_ < 512
    requires Replaced(c, d, set_, a0) && Replaced(d, e, set_, a1) && Replaced(e, f, set_, a2)
             && Replaced(f, g, set_, a3)
    ensures HeldAt(g, set_ * 4 + c.replacement, a0) && HeldAt(g, set_ * 4 + (c.replacement + 1) % 4, a1)
    ensures HeldAt(g, set_ * 4 + (c.replacement + 2) % 4, a2) && HeldAt(g, set_ * 4 + (c.replacement + 3) % 4, a3)
  {
  }

  /** Round robin: four loads that miss in a full set, of four different lines, replace all four ways, wherever the
      counter stands; the line loaded first is in the way the counter pointed at, and so on around. */
  lemma FourMissesReplaceAll(c: Cache, m: Memory, set_: nat, a0: nat, a1: nat, a2: nat, a3: nat, lo: bool)
    returns (o0: Outcome, o1: Outcome, o2: Outcome, o3: Outcome)
    requires IdleCache(c) && FullSet(c, set_)
    requires Loadable(c, set_, a0, lo) && Loadable(c, set_, a1, lo) && Loadable(c, set_, a2, lo)
             && Loadable(c, set_, a3, lo)
    requires NotResident(c, a0) && NotResident(c, a1) && NotResident(c, a2) && NotResident(c, a3)
    requires LineOf(a0) !in {LineOf(a1), LineOf(a2), LineOf(a3)} && LineOf(a1) !in {LineOf(a2), LineOf(a3)}
    requires LineOf(a2) != LineOf(a3)
    ensures Accepted(c.regions, ReadOp(a0, 1)) && o0 == Load(c, m, a0)
    ensures Accepted(c.regions, ReadOp(a1, 1)) && o1 == Load(o0.cache, o0.memory, a1)
    ensures Accepted(c.regions, ReadOp(a2, 1)) && o2 == Load(o1.cache, o1.memory, a2)
    ensures Accepted(c.regions, ReadOp(a3, 1)) && o3 == Load(o2.cache, o2.memory, a3)
    ensures |o3.cache.lines| == 2048
    ensures HeldAt(o3.cache, set_ * 4 + c.replacement, a0) && HeldAt(o3.cache, set_ * 4 + (c.replacement + 1) % 4, a1)
    ensures HeldAt(o3.cache, set_ * 4 + (c.replacement + 2) % 4, a2)
    ensures HeldAt(o3.cache, set_ * 4 + (c.replacement + 3) % 4, a3)
  {
    LoadStep(c, m, set_, a0, lo);
    o0 := Load(c, m, a0);
    LoadableKept(c, o0.cache, set_, a0, a1, lo);
    LoadableKept(c, o0.cache, set_, a0, a2, lo);
    LoadableKept(c, o0.cache, set_, a0, a3, lo);
    o1, o2, o3 := ThreeMore(o0.cache, o0.memory, set_, a1, a2, a3, lo);
    FourReplaced(c, o0.cache, o1.cache, o2.cache, o3.cache, set_, a0, a1, a2, a3);
  }

  lemma ThreeMore(d: Cache, m: Memory, set_: nat, a1: nat, a2: nat, a3: nat, lo: bool)
    returns (o1: Outcome, o2: Outcome, o3: Outcome)
    requires IdleCache(d) && FullSet(d, set_)
    requires Loadable(d, set_, a1, lo) && Loadable(d, set_, a2, lo) && Loadable(d, set_, a3, lo)
    requires NotResident(d, a1) && NotResident(d, a2) && NotResident(d, a3)
    requires LineOf(a1) != LineOf(a2) && LineOf(a1) != LineOf(a3) && LineOf(a2) != LineOf(a3)
    ensures Accepted(d.regions, ReadOp(a1, 1)) && o1 == Load(d, m, a1) && Replaced(d, o1.cache, set_, a1)
    ensures Accepted(d.regions, ReadOp(a2, 1)) && o2 == Load(o1.cache, o1.memory, a2)
            && Replaced(o1.cache, o2.cache, set_, a2)
    ensures Accepted(d.regions, ReadOp(a3, 1)) && o3 == Load(o2.cache, o2.memory, a3)
            && Replaced(o2.cache, o3.cache, set_, a3)
  {
    LoadStep(d, m, set_, a1, lo);
    o1 := Load(d, m, a1);
    LoadableKept(d, o1.cache, set_, a1, a2, lo);
    LoadableKept(d, o1.cache, set_, a1, a3, lo);
    LoadStep(o1.cache, o1.memory, set_, a2, lo);
    o2 := Load(o1.cache, o1.memory, a2);
    LoadableKept(o1.cache, o2.cache, set_, a2, a3, lo);
    LoadStep(o2.cache, o2.memory, set_, a3, lo);
    o3 := Load(o2.cache, o2.memory, a3);
  }

  // ---------------------------------------------------------------- control instructions, by the bits

  /** Which MOVECs are accepted: CACR without write protection (bits 30:29), ACR0 and ACR1 without bit 2, ACR2 and
      ACR3 always. An accepted one changes its register only; CACR's invalidate bits (24, 18 and 8) read back as zero,
      and bit 24 drops every line without writing it back. */
  lemma MovecByBits(c: Cache, m: Memory, reg: nat, value: bv32)
    requires IdleCache(c)
    ensures Accepted(c.regions, MovecOp(reg, value)) <==>
              || (reg == 2 && value & 0x4000_0000 == 0 && value & 0x2000_0000 == 0)
              || (reg in {4, 5} && value & 4 == 0) || reg in {6, 7}
    ensures Accepted(c.regions, MovecOp(reg, value)) ==>
              (var o := Exec(c, m, MovecOp(reg, value));
               && o.memory == m && o.log == [] && |o.cache.lines| == 2048
               && (forall s {:trigger o.cache.lines[s]} | 0 <= s < 2048 ::
                     o.cache.lines[s]
                     == if reg == 2 && value & 0x0100_0000 != 0 then Dropped(c.lines[s]) else c.lines[s])
               && |o.cache.controls.acr| == 4
               && (forall i | 0 <= i < 4 ::
                     o.cache.controls.acr[i] == if reg == 4 + i then value else c.controls.acr[i])
               && o.cache.controls.cacr == if reg == 2 then value & 0xfefb_feff else c.controls.cacr)
  {
    TwoBits(value);
    if Accepted(c.regions, MovecOp(reg, value)) {
      MovecExact(c, m, reg, value);
      BeginOk(c, MovecOp(reg, value));
      BoundedTransactions(c, m, 0, 0, false, [], reg, value, 0, 0);
      ClearedBits(value);
    }
  }

  function Dropped(l: Line): Line { l.(valid := false, dirty := false) }

  lemma TwoBits(value: bv32)
    ensures value & 0x6000_0000 == 0 <==> value & 0x4000_0000 == 0 && value & 0x2000_0000 == 0
  {
  }

  lemma ClearedBits(value: bv32)
    ensures value & !(DCINVA | 0x0004_0100) == value & 0xfefb_feff
  {
  }

  /** Which CPUSHLs are accepted, by the fields of the instruction word: 1111 0100 cc10 1rrr with the cache field cc
      not zero. */
  lemma CpushlByBits(c: Cache, instruction: bv16, operand: nat)
    requires IdleCache(c)
    ensures Accepted(c.regions, PushOp(instruction, operand)) <==>
              && instruction >> 8 == 0xf4 && (instruction >> 3) & 7 == 5
              && (instruction & 0x80 != 0 || instruction & 0x40 != 0)
  {
    InstructionFields(instruction);
  }

  lemma InstructionFields(w: bv16)
    ensures w & 0xff38 == 0xf428 <==> w >> 8 == 0xf4 && (w >> 3) & 7 == 5
    ensures w & 0xc0 != 0 <==> w & 0x80 != 0 || w & 0x40 != 0
  {
  }

  /** What an accepted CPUSHL does: nothing without the data bit (6); with it, the slot of way operand % 4 in set
      operand bits 12:4 is written back if dirty, and dropped unless CACR bit 28 retains it. */
  lemma CpushlEffect(c: Cache, m: Memory, instruction: bv16, operand: nat)
    requires IdleCache(c) && Accepted(c.regions, PushOp(instruction, operand))
    ensures (var o, s := Exec(c, m, PushOp(instruction, operand)), ((operand / 16) % 512) * 4 + operand % 4;
             DirtyBounds(c, s);
             && o.cache.controls == c.controls
             && if instruction & 0x40 == 0 then o.cache.lines == c.lines && o.memory == m
                else
                  && o.memory == (if c.lines[s].dirty then Splice(m, c.lines[s].address, c.lines[s].bytes) else m)
                  && o.cache.lines
                     == c.lines[s := c.lines[s].(dirty := false,
                                                 valid := c.lines[s].valid && c.controls.cacr & 0x1000_0000 != 0)])
  {
    if instruction & 0x40 == 0 {
      BeginOk(c, PushOp(instruction, operand));
    } else {
      PushExact(c, m, instruction, operand);
    }
  }

  // ---------------------------------------------------------------- which regions are accepted

  /** A region is accepted if and only if no transaction is active and it is 16 bytes to 1 MiB of whole lines inside
      the 32-bit address space that shares no byte with a region already there. */
  lemma AddRegionIff(c: Cache, r: Region)
    requires Valid(c)
    ensures AddRegion(c, r).Ok? <==>
              && !c.active
              && 16 <= r.size <= 0x10_0000 && r.size % 16 == 0 && r.base % 16 == 0 && r.base + r.size <= 0x1_0000_0000
              && forall q | q in c.regions :: SharesNoByte(q, r)
    ensures AddRegion(c, r).Ok? ==> AddRegion(c, r).value == c.(regions := c.regions + [r])
  {
    forall q | q in c.regions ensures r.size > 0 ==> (Disjoint(q, r) <==> SharesNoByte(q, r)) {
      var i :| 0 <= i < |c.regions| && c.regions[i] == q;
      assert RegionOk(c.regions[i]);
      if r.size > 0 { DisjointIff(q, r); }
    }
  }

  predicate Contains(r: Region, a: nat) { r.base <= a < r.base + r.size }

  ghost predicate SharesNoByte(q: Region, r: Region) {
    forall a: nat {:trigger Contains(q, a)} :: Contains(q, a) ==> !Contains(r, a)
  }

  lemma DisjointIff(q: Region, r: Region)
    requires q.size > 0 && r.size > 0
    ensures Disjoint(q, r) <==> SharesNoByte(q, r)
  {
    if !Disjoint(q, r) {
      var a := if q.base < r.base then r.base else q.base;
      assert Contains(q, a) && Contains(r, a);
    }
  }
}
