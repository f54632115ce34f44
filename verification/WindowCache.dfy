/** The ColdFire window data cache (src/quetz_window_cache.h) as a value and the half-steps that change it.

    A transaction is started by Access, Movec or Push; Next asks for at most one backing request or ends
    the transaction, and Complete feeds the answer of that request back in. */
module WindowCache {

  type Byte = x: int | 0 <= x < 256

  /** The 32-bit physical address space behind the cache. */
  const ADDRESS_SPACE: nat := 0x1_0000_0000
  const NO_SLOT: nat := 2048

  const DEC: bv32 := 0x8000_0000
  const DDPI: bv32 := 0x1000_0000
  const DHLCK: bv32 := 0x0800_0000
  const DCINVA: bv32 := 0x0100_0000

  datatype Region = Region(base: nat, size: nat)

  datatype Line = Line(bytes: seq<Byte>, address: nat, valid: bool, dirty: bool)

  datatype Pending = Idle | Fill | BypassRead | BypassWrite | WriteThrough | PushBack | Evict

  /** What Next asks of the backing memory; Done ends the transaction and carries the bytes of a read. */
  datatype Action =
    | Done(bytes: seq<Byte>)
    | Read(address: nat, size: nat)
    | Write(address: nat, bytes: seq<Byte>)

  /** CACR and ACR0..3. */
  datatype Controls = Controls(cacr: bv32, acr: seq<bv32>)

  datatype Mode = ThroughMode | CopybackMode | InhibitedMode

  datatype Cache = Cache(
    regions: seq<Region>, controls: Controls, lines: seq<Line>, replacement: nat, dirtyDiscards: nat,
    active: bool, pushing: bool, invalidatePush: bool, write: bool, pending: Pending,
    address: nat, count: nat, offset: nat, bytes: seq<Byte>,
    pendingSlot: nat, pendingAddress: nat, pendingSize: nat)

  datatype Error = Ordering | InvalidArgument | ShortResponse

  datatype Result<T> = Ok(value: T) | Err(error: Error)

  // ---------------------------------------------------------------- addresses

  function InLine(a: nat): (i: nat)
    ensures i < 16
  {
    a % 16
  }

  function LineOf(a: nat): nat { a - InLine(a) }

  function SetIndex(a: nat): nat { (a / 16) % 512 }

  function Min(a: nat, b: nat): nat { if a <= b then a else b }

  /** The n bytes from a lie inside one registered region. */
  predicate Covered(regions: seq<Region>, a: nat, n: nat) {
    exists i | 0 <= i < |regions| :: regions[i].base <= a && a + n <= regions[i].base + regions[i].size
  }

  predicate RegionOk(r: Region) {
    0 < r.size <= 0x10_0000 && r.base + r.size <= ADDRESS_SPACE && r.base % 16 == 0 && r.size % 16 == 0
  }

  predicate Disjoint(r: Region, q: Region) {
    r.base + r.size <= q.base || q.base + q.size <= r.base
  }

  predicate RegionsOk(regions: seq<Region>) {
    && (forall i | 0 <= i < |regions| :: RegionOk(regions[i]))
    && (forall i, j | 0 <= i < j < |regions| :: Disjoint(regions[i], regions[j]))
  }

  // ---------------------------------------------------------------- cache mode

  /** One ACR against the megabyte an address lies in (address >> 20). */
  predicate AcrMatches(acr: bv32, megabyte: bv32) {
    && acr & 0x8000 != 0
    && (acr >> 13) & 3 != 0
    && (if acr & 0x400 != 0 then
          megabyte >> 4 == acr >> 24 && (megabyte ^ (acr >> 20)) & !(acr >> 16) & 15 == 0
        else
          ((megabyte >> 4) ^ (acr >> 24)) & !((acr >> 16) & 0xff) & 0xff == 0)
  }

  function DecodeMode(bits: bv32): Mode {
    if bits == 0 then ThroughMode else if bits == 1 then CopybackMode else InhibitedMode
  }

  function ModeOfMegabyte(k: Controls, megabyte: bv32): Mode
    requires |k.acr| == 4
  {
    if k.cacr & DEC == 0 then InhibitedMode
    else if AcrMatches(k.acr[0], megabyte) then DecodeMode((k.acr[0] >> 5) & 3)
    else if AcrMatches(k.acr[1], megabyte) then DecodeMode((k.acr[1] >> 5) & 3)
    else DecodeMode((k.cacr >> 25) & 3)
  }

  function ModeAt(k: Controls, a: nat): Mode
    requires |k.acr| == 4 && a < ADDRESS_SPACE
  {
    ModeOfMegabyte(k, (a / 0x10_0000) as bv32)
  }

  // ---------------------------------------------------------------- lookup

  predicate Holds(l: Line, la: nat) { l.valid && l.address == la }

  /** The lowest slot of the line's own set that holds it, or NO_SLOT. */
  function Find(lines: seq<Line>, la: nat): (slot: nat)
    requires |lines| == 2048
    ensures slot == NO_SLOT || (slot < 2048 && slot / 4 == SetIndex(la) && Holds(lines[slot], la))
    ensures slot == NO_SLOT ==> forall s | 0 <= s < 2048 && s / 4 == SetIndex(la) :: !Holds(lines[s], la)
  {
    var first := SetIndex(la) * 4;
    if Holds(lines[first], la) then first
    else if Holds(lines[first + 1], la) then first + 1
    else if Holds(lines[first + 2], la) then first + 2
    else if Holds(lines[first + 3], la) then first + 3
    else NO_SLOT
  }

  function FirstWay(k: Controls): (w: nat)
    ensures w == 0 || w == 2
  {
    if k.cacr & DHLCK != 0 then 2 else 0
  }

  /** The lowest invalid way from `way` on, or 4. */
  function InvalidWay(lines: seq<Line>, set_: nat, way: nat): (w: nat)
    requires |lines| == 2048 && set_ < 512 && way <= 4
    ensures way <= w <= 4
    ensures w < 4 ==> !lines[set_ * 4 + w].valid
    ensures forall s | set_ * 4 + way <= s < set_ * 4 + w :: lines[s].valid
    decreases 4 - way
  {
    if way == 4 || !lines[set_ * 4 + way].valid then way else InvalidWay(lines, set_, way + 1)
  }

  /** The slot a miss refills: the lowest invalid unlocked way, else the round-robin one. */
  function Victim(lines: seq<Line>, k: Controls, replacement: nat, set_: nat): (slot: nat)
    requires |lines| == 2048 && set_ < 512 && replacement < 4
    ensures slot < 2048 && slot / 4 == set_ && slot >= set_ * 4 + FirstWay(k)
    ensures lines[slot].valid ==> forall s | set_ * 4 + FirstWay(k) <= s < set_ * 4 + 4 :: lines[s].valid
  {
    var first := FirstWay(k);
    var w := InvalidWay(lines, set_, first);
    if w < 4 then set_ * 4 + w
    else if first == 2 then set_ * 4 + 2 + replacement / 2
    else set_ * 4 + replacement
  }

  // ---------------------------------------------------------------- well-formed caches

  predicate LineOk(regions: seq<Region>, l: Line, slot: nat) {
    && |l.bytes| == 16
    && (l.dirty ==> l.valid)
    && (l.valid ==> l.address % 16 == 0 && SetIndex(l.address) == slot / 4 && Covered(regions, l.address, 16))
  }

  /** The line of a slot is well formed and, if valid, held by this slot alone. */
  predicate SlotOk(regions: seq<Region>, lines: seq<Line>, slot: nat)
    requires |lines| == 2048 && slot < 2048
  {
    && LineOk(regions, lines[slot], slot)
    && (lines[slot].valid ==> Find(lines, lines[slot].address) == slot)
  }

  /** Dirty implies valid; tags are aligned, in their own set, inside one region and held once. */
  predicate LinesOk(regions: seq<Region>, lines: seq<Line>) {
    && |lines| == 2048
    && (forall s {:trigger SlotOk(regions, lines, s)} | 0 <= s < 2048 :: SlotOk(regions, lines, s))
  }

  /** Bytes of the access left in the line under the cursor. */
  function ChunkAt(cursor: nat, left: nat): (n: nat)
    ensures n <= left && (left > 0 ==> n > 0) && InLine(cursor) + n <= 16
  {
    Min(left, 16 - InLine(cursor))
  }

  function ChunkSize(c: Cache): nat
    requires c.offset <= c.count
  {
    ChunkAt(c.address + c.offset, c.count - c.offset)
  }

  predicate Bypasses(mode: Mode, write: bool, resident: bool) {
    mode.InhibitedMode? || (write && mode.ThroughMode? && !resident)
  }

  predicate PendingOk(c: Cache)
    requires |c.lines| == 2048 && c.offset < c.count
  {
    && c.pendingAddress == LineOf(c.address + c.offset)
    && c.pendingSize == ChunkSize(c)
    && match c.pending {
         case Idle => true
         case BypassRead => !c.write
         case BypassWrite => c.write
         case Fill =>
           && c.pendingSlot < 2048 && c.pendingSlot / 4 == SetIndex(c.pendingAddress)
           && !c.lines[c.pendingSlot].dirty && Find(c.lines, c.pendingAddress) == NO_SLOT
         case Evict =>
           && c.pendingSlot < 2048 && c.pendingSlot / 4 == SetIndex(c.pendingAddress)
           && c.lines[c.pendingSlot].dirty && Find(c.lines, c.pendingAddress) == NO_SLOT
         case WriteThrough => c.write && c.pendingSlot == Find(c.lines, c.pendingAddress) < 2048
         case PushBack => false
       }
  }

  predicate TransactionOk(c: Cache)
    requires |c.lines| == 2048
  {
    if c.pushing then
      && c.count == 0 && c.offset == 0 && c.bytes == [] && !c.write
      && c.pendingSlot < 2048
      && (c.pending.Idle? || (c.pending.PushBack? && c.lines[c.pendingSlot].dirty))
    else
      && c.offset <= c.count <= 8 && |c.bytes| == c.count
      && (c.count > 0 ==> Covered(c.regions, c.address, c.count))
      && (c.pending.Idle? || (c.offset < c.count && PendingOk(c)))
  }

  predicate Valid(c: Cache) {
    && RegionsOk(c.regions)
    && |c.controls.acr| == 4
    && LinesOk(c.regions, c.lines)
    && c.replacement < 4
    && (c.active ==> TransactionOk(c))
    && (!c.active ==> c.pending.Idle?)
  }

  // ---------------------------------------------------------------- configuration

  const EmptyLine: Line := Line(seq(16, i => 0), 0, false, false)

  const Fresh: Cache :=
    Cache([], Controls(0, [0, 0, 0, 0]), seq(2048, i => EmptyLine), 0, 0,
          false, false, false, false, Idle, 0, 0, 0, [], 0, 0, 0)

  function AddRegion(c: Cache, r: Region): (res: Result<Cache>) {
    if c.active then Err(Ordering)
    else if !RegionOk(r) || exists i | 0 <= i < |c.regions| :: !Disjoint(c.regions[i], r) then Err(InvalidArgument)
    else Ok(c.(regions := c.regions + [r]))
  }

  /** Reset clears the controls and keeps tags and data. */
  function Reset(c: Cache): (res: Result<Cache>) {
    if c.active then Err(Ordering) else Ok(c.(controls := Controls(0, [0, 0, 0, 0])))
  }

  // ---------------------------------------------------------------- starting a transaction

  function Start(c: Cache): Cache {
    c.(active := true, pending := Idle, pushing := false, count := 0, offset := 0, bytes := [], write := false)
  }

  /** Begin a read of `size` bytes, or a write of `data`. */
  function Access(c: Cache, address: nat, size: nat, write: bool, data: seq<Byte>): (res: Result<Cache>) {
    if size == 0 || size > 8 || !Covered(c.regions, address, size) || (write && |data| != size) then
      Err(InvalidArgument)
    else if c.active then Err(Ordering)
    else Ok(Start(c).(address := address, count := size, write := write,
                      bytes := if write then data else seq(size, i => 0)))
  }

  function Invalidated(lines: seq<Line>): (r: seq<Line>) {
    seq(|lines|, i requires 0 <= i < |lines| => lines[i].(valid := false, dirty := false))
  }

  function DirtyCount(lines: seq<Line>): nat {
    if lines == [] then 0
    else DirtyCount(lines[..|lines| - 1]) + (if lines[|lines| - 1].valid && lines[|lines| - 1].dirty then 1 else 0)
  }

  /** The control registers after MOVEC; the invalidate bits clear themselves. */
  function ControlsAfter(k: Controls, reg: nat, value: bv32): Controls
    requires |k.acr| == 4 && (reg == 2 || 4 <= reg <= 7)
  {
    if reg == 2 then k.(cacr := value & !(DCINVA | 0x0004_0100)) else k.(acr := k.acr[reg - 4 := value])
  }

  predicate MovecAccepted(reg: nat, value: bv32) {
    && (reg == 2 || 4 <= reg <= 7)
    && (reg == 2 ==> value & 0x6000_0000 == 0)
    && (reg == 4 || reg == 5 ==> value & 4 == 0)
  }

  predicate InvalidatesAll(reg: nat, value: bv32) { reg == 2 && value & DCINVA != 0 }

  function Movec(c: Cache, reg: nat, value: bv32): (res: Result<Cache>)
    requires |c.controls.acr| == 4
  {
    if !MovecAccepted(reg, value) then Err(InvalidArgument)
    else if c.active then Err(Ordering)
    else
      var k := ControlsAfter(c.controls, reg, value);
      if InvalidatesAll(reg, value) then
        Ok(Start(c).(controls := k, lines := Invalidated(c.lines),
                     dirtyDiscards := c.dirtyDiscards + DirtyCount(c.lines)))
      else Ok(Start(c).(controls := k))
  }

  predicate PushAccepted(instruction: bv16) { instruction & 0xff38 == 0xf428 && instruction & 0xc0 != 0 }

  predicate PushesData(instruction: bv16) { instruction & 0x40 != 0 }

  /** CPUSHL picks the set from operand bits 12..4 and the way from bits 1..0. */
  function PushSlot(operand: nat): (slot: nat)
    ensures slot < 2048
  {
    SetIndex(operand) * 4 + operand % 4
  }

  function Push(c: Cache, instruction: bv16, operand: nat): (res: Result<Cache>) {
    if !PushAccepted(instruction) then Err(InvalidArgument)
    else if c.active then Err(Ordering)
    else if !PushesData(instruction) then Ok(Start(c))
    else Ok(Start(c).(pushing := true, invalidatePush := c.controls.cacr & DDPI == 0, pendingSlot := PushSlot(operand)))
  }

  // ---------------------------------------------------------------- half-steps

  function Splice(s: seq<Byte>, at: nat, data: seq<Byte>): (r: seq<Byte>)
    requires at + |data| <= |s|
    ensures |r| == |s|
    ensures forall i | 0 <= i < |s| :: r[i] == if at <= i < at + |data| then data[i - at] else s[i]
  {
    s[..at] + data + s[at + |data|..]
  }

  /** A running access with no request outstanding. */
  predicate Stepping(c: Cache) { Valid(c) && c.active && c.pending.Idle? && !c.pushing }

  function Cursor(c: Cache): nat { c.address + c.offset }

  function Chunk(c: Cache): seq<Byte>
    requires Stepping(c) && c.offset < c.count
  {
    c.bytes[c.offset..c.offset + ChunkSize(c)]
  }

  lemma CoveredBounds(regions: seq<Region>, a: nat, n: nat)
    requires RegionsOk(regions) && Covered(regions, a, n)
    ensures a + n <= ADDRESS_SPACE
  {
    var i :| 0 <= i < |regions| && regions[i].base <= a && a + n <= regions[i].base + regions[i].size;
    assert RegionOk(regions[i]);
  }

  lemma CursorInSpace(c: Cache)
    requires Stepping(c) && c.offset < c.count
    ensures Cursor(c) < ADDRESS_SPACE
  {
    CoveredBounds(c.regions, c.address, c.count);
  }

  function CursorMode(c: Cache): Mode
    requires Stepping(c) && c.offset < c.count
  {
    CursorInSpace(c);
    ModeAt(c.controls, Cursor(c))
  }

  /** The chunk under the cursor is served from a resident line, with no backing request. */
  predicate IsHit(c: Cache)
    requires Stepping(c) && c.offset < c.count
  {
    && Find(c.lines, LineOf(Cursor(c))) < 2048
    && (CursorMode(c).CopybackMode? || (CursorMode(c).ThroughMode? && !c.write))
  }

  function AtChunk(c: Cache): Cache
    requires Stepping(c) && c.offset < c.count
  {
    c.(pendingSize := ChunkSize(c), pendingAddress := LineOf(Cursor(c)))
  }

  function HitStep(c: Cache): Cache
    requires Stepping(c) && c.offset < c.count && IsHit(c)
  {
    var slot := Find(c.lines, LineOf(Cursor(c)));
    var line := c.lines[slot];
    var at := InLine(Cursor(c));
    var n := ChunkSize(c);
    assert SlotOk(c.regions, c.lines, slot);
    if c.write then
      AtChunk(c).(lines := c.lines[slot := line.(bytes := Splice(line.bytes, at, Chunk(c)), dirty := true)],
                  offset := c.offset + n)
    else
      AtChunk(c).(bytes := Splice(c.bytes, c.offset, line.bytes[at..at + n]), offset := c.offset + n)
  }

  /** An inhibited access, or a write-through miss, goes straight to memory. */
  function BypassRequest(c: Cache): (Cache, Action)
    requires Stepping(c) && c.offset < c.count
  {
    if c.write then (AtChunk(c).(pending := BypassWrite), Write(Cursor(c), Chunk(c)))
    else (AtChunk(c).(pending := BypassRead), Read(Cursor(c), ChunkSize(c)))
  }

  /** A miss first writes a dirty victim back, then fills. */
  function MissRequest(c: Cache): (Cache, Action)
    requires Stepping(c) && c.offset < c.count
  {
    var la := LineOf(Cursor(c));
    var v := Victim(c.lines, c.controls, c.replacement, SetIndex(la));
    var evicted := c.lines[v];
    if evicted.valid && evicted.dirty then
      (AtChunk(c).(pendingSlot := v, pending := Evict), Write(evicted.address, evicted.bytes))
    else (AtChunk(c).(pendingSlot := v, pending := Fill), Read(la, 16))
  }

  /** A write-through hit updates the line and then memory. */
  function ThroughRequest(c: Cache): (Cache, Action)
    requires Stepping(c) && c.offset < c.count && Find(c.lines, LineOf(Cursor(c))) < 2048
  {
    var slot := Find(c.lines, LineOf(Cursor(c)));
    var line := c.lines[slot];
    assert SlotOk(c.regions, c.lines, slot);
    (AtChunk(c).(lines := c.lines[slot := line.(bytes := Splice(line.bytes, InLine(Cursor(c)), Chunk(c)))],
                 pendingSlot := slot, pending := WriteThrough),
     Write(Cursor(c), Chunk(c)))
  }

  /** The backing request of a chunk that is not a hit. */
  function Request(c: Cache): (Cache, Action)
    requires Stepping(c) && c.offset < c.count && !IsHit(c)
  {
    var slot := Find(c.lines, LineOf(Cursor(c)));
    if Bypasses(CursorMode(c), c.write, slot < 2048) then BypassRequest(c)
    else if slot == NO_SLOT then MissRequest(c)
    else ThroughRequest(c)
  }

  function Finish(c: Cache): (Cache, Action) {
    (c.(active := false), Done(if c.write then [] else c.bytes))
  }

  /** Rewriting the bytes or the dirty bit of a valid line, or invalidating a line, keeps the structure. */
  lemma RewriteKeepsLines(regions: seq<Region>, lines: seq<Line>, slot: nat, l: Line)
    requires LinesOk(regions, lines) && slot < 2048 && |l.bytes| == 16
    requires l.address == lines[slot].address && (l.dirty ==> l.valid) && (l.valid ==> lines[slot].valid)
    ensures LinesOk(regions, lines[slot := l])
    ensures forall la | l.valid == lines[slot].valid :: Find(lines[slot := l], la) == Find(lines, la)
  {
    var after := lines[slot := l];
    assert SlotOk(regions, lines, slot);
    forall s | 0 <= s < 2048 ensures SlotOk(regions, after, s) {
      assert SlotOk(regions, lines, s);
    }
  }

  /** Putting a line into its own set where it is not held yet keeps the structure. */
  lemma FillKeepsLines(regions: seq<Region>, lines: seq<Line>, slot: nat, l: Line)
    requires LinesOk(regions, lines) && slot < 2048 && LineOk(regions, l, slot) && l.valid
    requires Find(lines, l.address) == NO_SLOT
    ensures LinesOk(regions, lines[slot := l])
    ensures Find(lines[slot := l], l.address) == slot
  {
    var after := lines[slot := l];
    forall s | 0 <= s < 2048 ensures SlotOk(regions, after, s) {
      assert SlotOk(regions, lines, s);
    }
  }

  lemma HitStepKeeps(c: Cache)
    requires Stepping(c) && c.offset < c.count && IsHit(c)
    ensures Stepping(HitStep(c)) && c.offset < HitStep(c).offset <= c.count
  {
    var slot := Find(c.lines, LineOf(Cursor(c)));
    if c.write {
      assert SlotOk(c.regions, c.lines, slot);
      RewriteKeepsLines(c.regions, c.lines, slot, HitStep(c).lines[slot]);
    }
  }

  /** The chunk loop of next(): hits are served until a chunk needs the backing memory or none is left. */
  function NextChunk(c: Cache): (r: (Cache, Action))
    requires Stepping(c)
    decreases c.count - c.offset
  {
    if c.offset == c.count then Finish(c)
    else if IsHit(c) then
      HitStepKeeps(c);
      NextChunk(HitStep(c))
    else Request(c)
  }

  function NextPush(c: Cache): (r: (Cache, Action))
    requires Valid(c) && c.active && c.pending.Idle? && c.pushing
  {
    var line := c.lines[c.pendingSlot];
    if line.valid && line.dirty then (c.(pending := PushBack), Write(line.address, line.bytes))
    else
      Finish(c.(lines := if c.invalidatePush then c.lines[c.pendingSlot := line.(valid := false)] else c.lines,
                pushing := false))
  }

  function Next(c: Cache): (r: (Cache, Action))
    requires Valid(c) && c.active && c.pending.Idle?
  {
    if c.pushing then NextPush(c) else NextChunk(c)
  }

  /** How many bytes the outstanding request must be answered with. */
  function Expected(c: Cache): nat {
    match c.pending
    case Fill => 16
    case BypassRead => c.pendingSize
    case _ => 0
  }

  function Complete(c: Cache, answer: seq<Byte>): (r: Cache)
    requires Valid(c) && c.active && !c.pending.Idle?
    requires c.pending.Fill? || c.pending.BypassRead? ==> |answer| == Expected(c)
  {
    var d := c.(pending := Idle);
    match c.pending
    case Fill =>
      d.(lines := c.lines[c.pendingSlot := Line(answer, c.pendingAddress, true, false)],
         replacement := (c.replacement + 1) % 4)
    case BypassRead => d.(bytes := Splice(c.bytes, c.offset, answer), offset := c.offset + c.pendingSize)
    case PushBack =>
      var line := c.lines[c.pendingSlot];
      d.(lines := c.lines[c.pendingSlot := line.(dirty := false, valid := line.valid && !c.invalidatePush)],
         pushing := false)
    case Evict =>
      d.(lines := c.lines[c.pendingSlot := c.lines[c.pendingSlot].(dirty := false, valid := false)])
    case WriteThrough =>
      d.(lines := c.lines[c.pendingSlot := c.lines[c.pendingSlot].(dirty := false)],
         offset := c.offset + c.pendingSize)
    case BypassWrite => d.(offset := c.offset + c.pendingSize)
  }

  // ---------------------------------------------------------------- structure

  lemma FreshValid()
    ensures Valid(Fresh) && !Fresh.active
  {
  }

  lemma CoveredGrows(regions: seq<Region>, r: Region, a: nat, n: nat)
    requires Covered(regions, a, n)
    ensures Covered(regions + [r], a, n)
  {
    var i :| 0 <= i < |regions| && regions[i].base <= a && a + n <= regions[i].base + regions[i].size;
    assert (regions + [r])[i] == regions[i];
  }

  lemma ConfigurationKeepsStructure(c: Cache, r: Region)
    requires Valid(c)
    ensures AddRegion(c, r).Ok? ==> Valid(AddRegion(c, r).value)
    ensures Reset(c).Ok? ==> Valid(Reset(c).value)
  {
    if AddRegion(c, r).Ok? {
      var d := AddRegion(c, r).value;
      forall s | 0 <= s < 2048 ensures SlotOk(d.regions, d.lines, s) {
        assert SlotOk(c.regions, c.lines, s);
        if c.lines[s].valid { CoveredGrows(c.regions, r, c.lines[s].address, 16); }
      }
    }
  }

  lemma StartKeepsStructure(c: Cache, address: nat, size: nat, write: bool, data: seq<Byte>,
                            reg: nat, value: bv32, instruction: bv16, operand: nat)
    requires Valid(c)
    ensures Access(c, address, size, write, data).Ok? ==> Valid(Access(c, address, size, write, data).value)
    ensures Movec(c, reg, value).Ok? ==> Valid(Movec(c, reg, value).value)
    ensures Push(c, instruction, operand).Ok? ==> Valid(Push(c, instruction, operand).value)
  {
    forall s | 0 <= s < 2048 ensures SlotOk(c.regions, Invalidated(c.lines), s) {
      assert SlotOk(c.regions, c.lines, s);
    }
  }

  lemma LineInside(base: nat, size: nat, a: nat)
    requires base % 16 == 0 && size % 16 == 0 && base <= a < base + size
    ensures base <= LineOf(a) && LineOf(a) + 16 <= base + size
  {
    var p, q, t := base / 16, size / 16, a / 16;
    assert base == 16 * p && size == 16 * q && LineOf(a) == 16 * t;
  }

  /** The 16-byte line around a covered address lies in the same region. */
  lemma LineCovered(regions: seq<Region>, address: nat, count: nat, a: nat)
    requires RegionsOk(regions) && Covered(regions, address, count) && address <= a < address + count
    ensures Covered(regions, LineOf(a), 16)
  {
    var i :| 0 <= i < |regions| && regions[i].base <= address && address + count <= regions[i].base + regions[i].size;
    assert RegionOk(regions[i]);
    LineInside(regions[i].base, regions[i].size, a);
  }

  lemma ChunkCovered(c: Cache)
    requires Stepping(c) && c.offset < c.count
    ensures Covered(c.regions, Cursor(c), ChunkSize(c))
  {
    var i :| 0 <= i < |c.regions| && c.regions[i].base <= c.address
        && c.address + c.count <= c.regions[i].base + c.regions[i].size;
    assert c.regions[i].base <= Cursor(c) && Cursor(c) + ChunkSize(c) <= c.regions[i].base + c.regions[i].size;
  }

  /** A backing request of a valid cache stays inside one registered region and is never empty. */
  predicate ActionOk(c: Cache, a: Action) {
    match a
    case Done(_) => true
    case Read(address, size) =>
      0 < size <= 16 && Covered(c.regions, address, size) && LineOf(address) + 16 >= address + size
    case Write(address, bytes) =>
      0 < |bytes| <= 16 && Covered(c.regions, address, |bytes|) && LineOf(address) + 16 >= address + |bytes|
  }

  /** The request `r` made in state c leaves a valid cache that awaits the answer `r` asks for. */
  predicate AwaitsAnswer(c: Cache, r: (Cache, Action)) {
    && Valid(r.0) && r.0.active && !r.0.pending.Idle?
    && !r.1.Done? && ActionOk(c, r.1)
    && (r.1.Read? ==> Expected(r.0) == r.1.size)
    && (r.1.Read? <==> r.0.pending.Fill? || r.0.pending.BypassRead?)
  }

  lemma BypassAwaits(c: Cache)
    requires Stepping(c) && c.offset < c.count
    ensures AwaitsAnswer(c, BypassRequest(c))
  {
    ChunkCovered(c);
  }

  lemma FillAwaits(c: Cache, v: nat)
    requires Stepping(c) && c.offset < c.count && Find(c.lines, LineOf(Cursor(c))) == NO_SLOT
    requires v < 2048 && v / 4 == SetIndex(LineOf(Cursor(c))) && !c.lines[v].dirty
    ensures AwaitsAnswer(c, (AtChunk(c).(pendingSlot := v, pending := Fill), Read(LineOf(Cursor(c)), 16)))
  {
    LineCovered(c.regions, c.address, c.count, Cursor(c));
  }

  lemma EvictAwaits(c: Cache, v: nat)
    requires Stepping(c) && c.offset < c.count && Find(c.lines, LineOf(Cursor(c))) == NO_SLOT
    requires v < 2048 && v / 4 == SetIndex(LineOf(Cursor(c))) && c.lines[v].dirty
    ensures AwaitsAnswer(c, (AtChunk(c).(pendingSlot := v, pending := Evict),
                             Write(c.lines[v].address, c.lines[v].bytes)))
  {
    assert SlotOk(c.regions, c.lines, v);
  }

  lemma MissAwaits(c: Cache)
    requires Stepping(c) && c.offset < c.count && Find(c.lines, LineOf(Cursor(c))) == NO_SLOT
    ensures AwaitsAnswer(c, MissRequest(c))
  {
    var v := Victim(c.lines, c.controls, c.replacement, SetIndex(LineOf(Cursor(c))));
    assert SlotOk(c.regions, c.lines, v);
    if c.lines[v].dirty { EvictAwaits(c, v); } else { FillAwaits(c, v); }
  }

  lemma ThroughAwaits(c: Cache)
    requires Stepping(c) && c.offset < c.count && c.write && Find(c.lines, LineOf(Cursor(c))) < 2048
    ensures AwaitsAnswer(c, ThroughRequest(c))
  {
    ChunkCovered(c);
    var slot := Find(c.lines, LineOf(Cursor(c)));
    assert SlotOk(c.regions, c.lines, slot);
    RewriteKeepsLines(c.regions, c.lines, slot,
      c.lines[slot].(bytes := Splice(c.lines[slot].bytes, InLine(Cursor(c)), Chunk(c))));
  }

  lemma RequestAwaits(c: Cache)
    requires Stepping(c) && c.offset < c.count && !IsHit(c)
    ensures AwaitsAnswer(c, Request(c))
  {
    if Bypasses(CursorMode(c), c.write, Find(c.lines, LineOf(Cursor(c))) < 2048) {
      BypassAwaits(c);
    } else if Find(c.lines, LineOf(Cursor(c))) == NO_SLOT {
      MissAwaits(c);
    } else {
      ThroughAwaits(c);
    }
  }

  /** A half-step either ends the transaction or awaits an answer. */
  predicate StepOk(c: Cache, r: (Cache, Action)) {
    if r.1.Done? then Valid(r.0) && !r.0.active else AwaitsAnswer(c, r)
  }

  lemma NextChunkKeepsStructure(c: Cache)
    requires Stepping(c)
    ensures StepOk(c, NextChunk(c))
    decreases c.count - c.offset
  {
    if c.offset == c.count {
    } else if IsHit(c) {
      HitStepKeeps(c);
      NextChunkKeepsStructure(HitStep(c));
    } else {
      RequestAwaits(c);
    }
  }

  /** Every half-step keeps the structure, and every request lies in one registered region and one line. */
  lemma NextKeepsStructure(c: Cache)
    requires Valid(c) && c.active && c.pending.Idle?
    ensures StepOk(c, Next(c))
  {
    if c.pushing {
      var line := c.lines[c.pendingSlot];
      assert SlotOk(c.regions, c.lines, c.pendingSlot);
      RewriteKeepsLines(c.regions, c.lines, c.pendingSlot, line.(valid := line.valid && line.dirty));
    } else {
      NextChunkKeepsStructure(c);
    }
  }

  lemma FillCompleteKeeps(c: Cache, answer: seq<Byte>)
    requires Valid(c) && c.active && c.pending.Fill? && |answer| == 16
    ensures Valid(Complete(c, answer))
  {
    LineCovered(c.regions, c.address, c.count, Cursor(c));
    FillKeepsLines(c.regions, c.lines, c.pendingSlot, Line(answer, c.pendingAddress, true, false));
  }

  lemma RewriteCompleteKeeps(c: Cache, answer: seq<Byte>)
    requires Valid(c) && c.active && (c.pending.PushBack? || c.pending.Evict? || c.pending.WriteThrough?)
    ensures Valid(Complete(c, answer))
  {
    assert SlotOk(c.regions, c.lines, c.pendingSlot);
    RewriteKeepsLines(c.regions, c.lines, c.pendingSlot, Complete(c, answer).lines[c.pendingSlot]);
  }

  lemma CompleteKeepsStructure(c: Cache, answer: seq<Byte>)
    requires Valid(c) && c.active && !c.pending.Idle?
    requires c.pending.Fill? || c.pending.BypassRead? ==> |answer| == Expected(c)
    ensures Valid(Complete(c, answer)) && Complete(c, answer).active && Complete(c, answer).pending.Idle?
  {
    if c.pending.Fill? {
      FillCompleteKeeps(c, answer);
    } else if !c.pending.BypassRead? && !c.pending.BypassWrite? {
      RewriteCompleteKeeps(c, answer);
    }
  }
}
