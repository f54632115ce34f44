/** The window cache against the one flat memory it stands in front of. */
module CacheRefinement {
  import opened WindowCache
  import opened CacheTransactions

  // ---------------------------------------------------------------- the combined view

  /** The lines, by address, that accesses pass by. */
  type Hiding = nat -> bool

  /** The controls hide the lines they inhibit. */
  function HiddenBy(k: Controls): Hiding
    requires |k.acr| == 4
  {
    (la: nat) => la < ADDRESS_SPACE && ModeAt(k, la).InhibitedMode?
  }

  /** What a program reads at `a`: the resident line if there is one and it is not hidden, else memory. */
  function ViewAt(hidden: Hiding, lines: seq<Line>, m: Memory, a: nat): Byte
    requires |lines| == 2048 && (forall s | 0 <= s < 2048 :: |lines[s].bytes| == 16) && a < ADDRESS_SPACE
  {
    var slot := Find(lines, LineOf(a));
    if slot < 2048 && !hidden(LineOf(a)) then lines[slot].bytes[InLine(a)] else m[a]
  }

  /** The cache over memory looks like the flat memory. */
  predicate Sees(hidden: Hiding, regions: seq<Region>, lines: seq<Line>, m: Memory, flat: Memory)
    requires LinesOk(regions, lines)
  {
    LineLengths(regions, lines);
    forall a {:trigger flat[a]} | 0 <= a < ADDRESS_SPACE :: ViewAt(hidden, lines, m, a) == flat[a]
  }

  /** Memory holds the bytes of the line. */
  predicate InMemory(l: Line, m: Memory) {
    l.address + 16 <= ADDRESS_SPACE && l.bytes == m[l.address..l.address + 16]
  }

  lemma LineLengths(regions: seq<Region>, lines: seq<Line>)
    requires LinesOk(regions, lines)
    ensures forall s | 0 <= s < 2048 :: |lines[s].bytes| == 16
  {
    forall s | 0 <= s < 2048 ensures |lines[s].bytes| == 16 { assert SlotOk(regions, lines, s); }
  }

  lemma SlotBounds(regions: seq<Region>, lines: seq<Line>, slot: nat)
    requires RegionsOk(regions) && LinesOk(regions, lines) && slot < 2048
    ensures |lines[slot].bytes| == 16
    ensures lines[slot].valid ==>
              lines[slot].address + 16 <= ADDRESS_SPACE && LineOf(lines[slot].address) == lines[slot].address
    ensures lines[slot].valid ==> Find(lines, lines[slot].address) == slot
  {
    assert SlotOk(regions, lines, slot);
    if lines[slot].valid { CoveredBounds(regions, lines[slot].address, 16); }
  }

  lemma SameLine(la: nat, a: nat)
    requires la % 16 == 0
    ensures LineOf(a) == la <==> la <= a < la + 16
    ensures LineOf(a) == la ==> InLine(a) == a - la
  {
  }

  /** The line l is the resident line of the slot, which can be seen, with some bytes spliced in. */
  predicate LineWrite(hidden: Hiding, regions: seq<Region>, lines: seq<Line>, slot: nat, at: nat, data: seq<Byte>,
                      l: Line) {
    && RegionsOk(regions) && LinesOk(regions, lines) && slot < 2048 && lines[slot].valid && at + |data| <= 16
    && l.valid && l.address == lines[slot].address && !hidden(l.address) && LinesOk(regions, lines[slot := l])
    && |lines[slot].bytes| == 16 && l.bytes == Splice(lines[slot].bytes, at, data)
  }

  /** Splicing bytes into a resident line changes the view at exactly those addresses. */
  lemma ViewLineWrite(hidden: Hiding, regions: seq<Region>, lines: seq<Line>, m: Memory, slot: nat, at: nat,
                      data: seq<Byte>,
                      l: Line, a: nat)
    requires LineWrite(hidden, regions, lines, slot, at, data, l) && a < ADDRESS_SPACE
    ensures (LineLengths(regions, lines); LineLengths(regions, lines[slot := l]);
             var from := lines[slot].address + at;
             ViewAt(hidden, lines[slot := l], m, a)
             == if from <= a < from + |data| then data[a - from] else ViewAt(hidden, lines, m, a))
  {
    LineLengths(regions, lines);
    LineLengths(regions, lines[slot := l]);
    SlotBounds(regions, lines, slot);
    RewriteKeepsLines(regions, lines, slot, l);
    SameLine(lines[slot].address, a);
  }

  /** The line of address `at` is resident and not hidden. */
  predicate Shown(hidden: Hiding, lines: seq<Line>, at: nat)
    requires |lines| == 2048
  {
    Find(lines, LineOf(at)) < 2048 && !hidden(LineOf(at))
  }

  /** Writing memory inside one line is seen exactly when that line is not. */
  lemma ViewMemoryWrite(hidden: Hiding, regions: seq<Region>, lines: seq<Line>, m: Memory, at: nat, data: seq<Byte>,
                        a: nat)
    requires LinesOk(regions, lines) && at + |data| <= LineOf(at) + 16 && at + |data| <= ADDRESS_SPACE
             && a < ADDRESS_SPACE
    ensures (LineLengths(regions, lines);
             ViewAt(hidden, lines, Splice(m, at, data), a)
             == if !Shown(hidden, lines, at) && at <= a < at + |data| then data[a - at]
                else ViewAt(hidden, lines, m, a))
  {
    LineLengths(regions, lines);
    SameLine(LineOf(at), a);
  }

  /** A line that makes no difference to what is seen: absent, hidden, or the same as memory. */
  predicate Unseen(hidden: Hiding, l: Line, m: Memory) { l.valid ==> hidden(l.address) || InMemory(l, m) }

  /** A line that makes no difference may be replaced by any other such line. */
  lemma ViewReplace(hidden: Hiding, regions: seq<Region>, lines: seq<Line>, m: Memory, slot: nat, l: Line, a: nat)
    requires RegionsOk(regions) && LinesOk(regions, lines) && slot < 2048 && a < ADDRESS_SPACE
    requires LinesOk(regions, lines[slot := l]) && Unseen(hidden, lines[slot], m) && Unseen(hidden, l, m)
    ensures (LineLengths(regions, lines); LineLengths(regions, lines[slot := l]);
             ViewAt(hidden, lines[slot := l], m, a) == ViewAt(hidden, lines, m, a))
  {
    LineLengths(regions, lines);
    LineLengths(regions, lines[slot := l]);
    var after := lines[slot := l];
    var la := LineOf(a);
    SlotBounds(regions, lines, slot);
    SlotBounds(regions, after, slot);
    var s, t := Find(lines, la), Find(after, la);
    if s == slot { SameLine(lines[slot].address, a); }
    if t == slot { SameLine(l.address, a); }
    if s != slot && t != slot {
      if s < 2048 { assert Holds(after[s], la); SlotBounds(regions, after, s); }
      if t < 2048 { assert Holds(lines[t], la); SlotBounds(regions, lines, t); }
    } else if s == slot && t != slot && t < 2048 {
      SlotBounds(regions, lines, t);
    } else if t == slot && s != slot && s < 2048 {
      SlotBounds(regions, after, s);
    }
  }

  lemma SeesLineWrite(hidden: Hiding, regions: seq<Region>, lines: seq<Line>, m: Memory, slot: nat, at: nat,
                      data: seq<Byte>,
                      l: Line, flat: Memory)
    requires LineWrite(hidden, regions, lines, slot, at, data, l) && l.address + 16 <= ADDRESS_SPACE
    requires Sees(hidden, regions, lines, m, flat)
    ensures Sees(hidden, regions, lines[slot := l], m, Splice(flat, l.address + at, data))
  {
    LineLengths(regions, lines);
    LineLengths(regions, lines[slot := l]);
    var flat' := Splice(flat, l.address + at, data);
    forall a | 0 <= a < ADDRESS_SPACE ensures ViewAt(hidden, lines[slot := l], m, a) == flat'[a] {
      ViewLineWrite(hidden, regions, lines, m, slot, at, data, l, a);
      assert ViewAt(hidden, lines, m, a) == flat[a];
    }
  }

  lemma SeesMemoryWrite(hidden: Hiding, regions: seq<Region>, lines: seq<Line>, m: Memory, at: nat, data: seq<Byte>,
                        flat: Memory)
    requires LinesOk(regions, lines) && at + |data| <= LineOf(at) + 16 && at + |data| <= ADDRESS_SPACE
    requires Sees(hidden, regions, lines, m, flat)
    ensures Sees(hidden, regions, lines, Splice(m, at, data), if Shown(hidden, lines, at) then flat
        else Splice(flat, at, data))
  {
    LineLengths(regions, lines);
    var flat' := if Shown(hidden, lines, at) then flat else Splice(flat, at, data);
    forall a | 0 <= a < ADDRESS_SPACE ensures ViewAt(hidden, lines, Splice(m, at, data), a) == flat'[a] {
      ViewMemoryWrite(hidden, regions, lines, m, at, data, a);
      assert ViewAt(hidden, lines, m, a) == flat[a];
    }
  }

  lemma SeesReplace(hidden: Hiding, regions: seq<Region>, lines: seq<Line>, m: Memory, slot: nat, l: Line, flat: Memory)
    requires RegionsOk(regions) && LinesOk(regions, lines) && slot < 2048 && LinesOk(regions, lines[slot := l])
    requires Unseen(hidden, lines[slot], m) && Unseen(hidden, l, m)
    requires Sees(hidden, regions, lines, m, flat)
    ensures Sees(hidden, regions, lines[slot := l], m, flat)
  {
    LineLengths(regions, lines);
    LineLengths(regions, lines[slot := l]);
    forall a | 0 <= a < ADDRESS_SPACE ensures ViewAt(hidden, lines[slot := l], m, a) == flat[a] {
      ViewReplace(hidden, regions, lines, m, slot, l, a);
      assert ViewAt(hidden, lines, m, a) == flat[a];
    }
  }

  // ---------------------------------------------------------------- coherence

  /** Which resident lines the controls can live with: an inhibited line must be clean, so that it is never written
      back; a write-through line must equal memory, so that it may lose its dirty bit; a copyback line must be one or
      the other. */
  predicate LineFits(k: Controls, l: Line, m: Memory)
    requires |k.acr| == 4 && l.address < ADDRESS_SPACE
  {
    match ModeAt(k, l.address)
    case InhibitedMode => !l.dirty
    case ThroughMode => InMemory(l, m)
    case CopybackMode => l.dirty || InMemory(l, m)
  }

  predicate SlotCoherent(k: Controls, lines: seq<Line>, m: Memory, s: nat)
    requires |k.acr| == 4 && |lines| == 2048 && s < 2048
  {
    lines[s].valid ==> lines[s].address + 16 <= ADDRESS_SPACE && LineFits(k, lines[s], m)
  }

  predicate LinesCoherent(k: Controls, lines: seq<Line>, m: Memory)
    requires |k.acr| == 4 && |lines| == 2048
  {
    forall s {:trigger SlotCoherent(k, lines, m, s)} | 0 <= s < 2048 :: SlotCoherent(k, lines, m, s)
  }

  predicate Coherent(c: Cache, m: Memory) { Valid(c) && LinesCoherent(c.controls, c.lines, m) }

  /** The bit-level mode is the same for every byte of a line. */
  lemma ModeConstantOnLine(k: Controls, a: nat, b: nat)
    requires |k.acr| == 4 && a < ADDRESS_SPACE && b < ADDRESS_SPACE && LineOf(a) == LineOf(b)
    ensures ModeAt(k, a) == ModeAt(k, b)
  {
    assert a / 0x10_0000 == b / 0x10_0000 by {
      assert a / 16 == b / 16;
      assert a / 0x10_0000 == (a / 16) / 0x1_0000 && b / 0x10_0000 == (b / 16) / 0x1_0000;
    }
  }

  /** Writing memory away from a line leaves that line's bytes. */
  lemma SpliceApart(m: Memory, at: nat, data: seq<Byte>, la: nat)
    requires at + |data| <= LineOf(at) + 16 && at + |data| <= ADDRESS_SPACE
    requires la % 16 == 0 && la + 16 <= ADDRESS_SPACE && la != LineOf(at)
    ensures Splice(m, at, data)[la..la + 16] == m[la..la + 16]
  {
    SameLine(la, at);
    if |data| > 0 { SameLine(la, at + |data| - 1); }
    assert at + |data| <= la || la + 16 <= at;
  }

  /** Coherence does not ask this line to equal memory. */
  predicate Indifferent(k: Controls, l: Line)
    requires |k.acr| == 4 && l.address < ADDRESS_SPACE
  {
    ModeAt(k, l.address).InhibitedMode? || (ModeAt(k, l.address).CopybackMode? && l.dirty)
  }

  /** Coherence survives a memory write inside a line that is not resident, or resident and indifferent to memory. */
  lemma CoherentMemoryWrite(c: Cache, m: Memory, at: nat, data: seq<Byte>)
    requires Coherent(c, m) && at + |data| <= LineOf(at) + 16 && at + |data| <= ADDRESS_SPACE
    requires (var slot := Find(c.lines, LineOf(at));
              slot < 2048 ==> c.lines[slot].address < ADDRESS_SPACE && Indifferent(c.controls, c.lines[slot]))
    ensures Coherent(c, Splice(m, at, data))
  {
    var m' := Splice(m, at, data);
    forall s | 0 <= s < 2048 ensures SlotCoherent(c.controls, c.lines, m', s) {
      assert SlotCoherent(c.controls, c.lines, m, s);
      SlotBounds(c.regions, c.lines, s);
      if c.lines[s].valid && c.lines[s].address != LineOf(at) {
        assert SlotOk(c.regions, c.lines, s);
        SpliceApart(m, at, data, c.lines[s].address);
      }
    }
  }

  /** Coherence survives replacing one slot by a coherent line. */
  lemma CoherentReplace(k: Controls, lines: seq<Line>, m: Memory, slot: nat, l: Line)
    requires |k.acr| == 4 && |lines| == 2048 && slot < 2048 && LinesCoherent(k, lines, m)
    requires SlotCoherent(k, lines[slot := l], m, slot)
    ensures LinesCoherent(k, lines[slot := l], m)
  {
    var after := lines[slot := l];
    forall s | 0 <= s < 2048 ensures SlotCoherent(k, after, m, s) {
      assert SlotCoherent(k, lines, m, s);
    }
  }

  // ---------------------------------------------------------------- an access in progress

  /** The flat memory after the bytes done so far. */
  function FlatSoFar(c: Cache, before: Memory): Memory
    requires c.offset <= |c.bytes| && c.address + c.offset <= ADDRESS_SPACE
  {
    if c.write then Splice(before, c.address, c.bytes[..c.offset]) else before
  }

  /** Reads so far returned flat memory; writes so far changed the view as a flat write would. */
  predicate Progress(c: Cache, m: Memory, before: Memory) {
    && Stepping(c) && Coherent(c, m)
    && c.address + c.count <= ADDRESS_SPACE
    && Sees(HiddenBy(c.controls), c.regions, c.lines, m, FlatSoFar(c, before))
    && (!c.write ==> c.bytes[..c.offset] == before[c.address..c.address + c.offset])
  }

  /** Advancing a write by n bytes splices just those bytes into the flat memory. */
  lemma FlatAdvance(before: Memory, address: nat, bytes: seq<Byte>, offset: nat, n: nat)
    requires offset + n <= |bytes| && address + offset + n <= ADDRESS_SPACE
    ensures Splice(before, address, bytes[..offset + n])
         == Splice(Splice(before, address, bytes[..offset]), address + offset, bytes[offset..offset + n])
  {
  }

  lemma WriteAdvance(c: Cache, d: Cache, before: Memory)
    requires Stepping(c) && c.offset < c.count && c.write && c.address + c.count <= ADDRESS_SPACE
    requires d.write && d.address == c.address && d.bytes == c.bytes && d.offset == c.offset + ChunkSize(c)
    ensures FlatSoFar(d, before) == Splice(FlatSoFar(c, before), Cursor(c), Chunk(c))
  {
    FlatAdvance(before, c.address, c.bytes, c.offset, ChunkSize(c));
  }

  /** Advancing a read by n bytes that equal flat memory keeps the read equal to flat memory. */
  lemma ReadAdvance(before: Memory, address: nat, bytes: seq<Byte>, offset: nat, data: seq<Byte>)
    requires offset + |data| <= |bytes| && address + offset + |data| <= ADDRESS_SPACE
    requires bytes[..offset] == before[address..address + offset]
    requires data == before[address + offset..address + offset + |data|]
    ensures Splice(bytes, offset, data)[..offset + |data|] == before[address..address + offset + |data|]
  {
    assert before[address..address + offset + |data|] == before[address..address + offset] + data;
    assert Splice(bytes, offset, data)[..offset + |data|] == bytes[..offset] + data;
  }

  lemma CursorLine(c: Cache)
    requires Stepping(c) && c.offset < c.count
    ensures (var slot := Find(c.lines, LineOf(Cursor(c)));
             slot < 2048 ==> c.lines[slot].valid && c.lines[slot].address == LineOf(Cursor(c))
                             && c.lines[slot].address + InLine(Cursor(c)) == Cursor(c)
                             && c.lines[slot].address + 16 <= ADDRESS_SPACE)
    ensures InLine(Cursor(c)) + ChunkSize(c) <= 16
    ensures Cursor(c) + ChunkSize(c) <= LineOf(Cursor(c)) + 16
    ensures Cursor(c) + ChunkSize(c) <= ADDRESS_SPACE
  {
    var slot := Find(c.lines, LineOf(Cursor(c)));
    if slot < 2048 { SlotBounds(c.regions, c.lines, slot); }
    CoveredBounds(c.regions, c.address, c.count);
  }

  /** The mode under the cursor is the mode of its line. */
  lemma CursorHidden(c: Cache)
    requires Stepping(c) && c.offset < c.count
    ensures LineOf(Cursor(c)) < ADDRESS_SPACE && ModeAt(c.controls, LineOf(Cursor(c))) == CursorMode(c)
    ensures HiddenBy(c.controls)(LineOf(Cursor(c))) == CursorMode(c).InhibitedMode?
  {
    CursorInSpace(c);
    ModeConstantOnLine(c.controls, Cursor(c), LineOf(Cursor(c)));
  }

  /** The bytes [at, at + n) of a line, wherever the view takes them from. */
  lemma ViewOfChunk(hidden: Hiding, regions: seq<Region>, lines: seq<Line>, m: Memory, flat: Memory, la: nat, at: nat,
                    n: nat)
    requires LinesOk(regions, lines) && Sees(hidden, regions, lines, m, flat)
    requires la % 16 == 0 && at + n <= 16 && la + at + n <= ADDRESS_SPACE
    ensures (var slot := Find(lines, la);
             if slot < 2048 && !hidden(la) then |lines[slot].bytes| == 16
                   && lines[slot].bytes[at..at + n] == flat[la + at..la + at + n]
             else m[la + at..la + at + n] == flat[la + at..la + at + n])
  {
    LineLengths(regions, lines);
    var slot := Find(lines, la);
    forall a | la + at <= a < la + at + n
      ensures flat[a] == if slot < 2048 && !hidden(la) then lines[slot].bytes[a - la] else m[a]
    {
      SameLine(la, a);
      assert ViewAt(hidden, lines, m, a) == flat[a];
    }
  }

  lemma CopybackHitCoherent(c: Cache, m: Memory)
    requires Stepping(c) && Coherent(c, m) && c.offset < c.count && IsHit(c) && c.write
    ensures Coherent(HitStep(c), m)
  {
    HitStepKeeps(c);
    CursorLine(c);
    var slot := Find(c.lines, LineOf(Cursor(c)));
    CursorHidden(c);
    CoherentReplace(c.controls, c.lines, m, slot, HitStep(c).lines[slot]);
  }

  lemma CopybackHitSees(c: Cache, m: Memory, flat: Memory)
    requires Stepping(c) && c.offset < c.count && IsHit(c) && c.write
    requires Sees(HiddenBy(c.controls), c.regions, c.lines, m, flat) && Cursor(c) + ChunkSize(c) <= ADDRESS_SPACE
    ensures Stepping(HitStep(c))
    ensures Sees(HiddenBy(c.controls), c.regions, HitStep(c).lines, m, Splice(flat, Cursor(c), Chunk(c)))
  {
    HitStepKeeps(c);
    CursorLine(c);
    CursorHidden(c);
    var slot := Find(c.lines, LineOf(Cursor(c)));
    assert SlotOk(c.regions, c.lines, slot);
    SeesLineWrite(HiddenBy(c.controls), c.regions, c.lines, m, slot, InLine(Cursor(c)), Chunk(c),
                  HitStep(c).lines[slot], flat);
  }

  lemma CopybackHitRefines(c: Cache, m: Memory, before: Memory)
    requires Progress(c, m, before) && c.offset < c.count && IsHit(c) && c.write
    ensures Progress(HitStep(c), m, before)
  {
    HitStepKeeps(c);
    CursorLine(c);
    CopybackHitCoherent(c, m);
    CopybackHitSees(c, m, FlatSoFar(c, before));
    WriteAdvance(c, HitStep(c), before);
  }

  lemma ReadSees(c: Cache, m: Memory, before: Memory)
    requires Progress(c, m, before) && !c.write
    ensures Sees(HiddenBy(c.controls), c.regions, c.lines, m, before)
  {
  }

  lemma CursorParts(c: Cache)
    requires c.offset < c.count
    ensures LineOf(Cursor(c)) % 16 == 0 && LineOf(Cursor(c)) + InLine(Cursor(c)) == Cursor(c)
  {
  }

  /** The next chunk of a read, from the line if it is resident and not inhibited and from memory if not, is flat
      memory's. */
  lemma ReadChunkView(c: Cache, m: Memory, before: Memory)
    requires Progress(c, m, before) && c.offset < c.count && !c.write
    ensures Cursor(c) + ChunkSize(c) <= ADDRESS_SPACE && InLine(Cursor(c)) + ChunkSize(c) <= 16
    ensures (var slot := Find(c.lines, LineOf(Cursor(c))); var at := InLine(Cursor(c)); var n := ChunkSize(c);
             if slot < 2048 && !CursorMode(c).InhibitedMode?
             then |c.lines[slot].bytes| == 16 && c.lines[slot].bytes[at..at + n] == before[Cursor(c)..Cursor(c) + n]
             else m[Cursor(c)..Cursor(c) + n] == before[Cursor(c)..Cursor(c) + n])
  {
    CursorLine(c);
    CursorParts(c);
    CursorHidden(c);
    ReadSees(c, m, before);
    ViewOfChunk(HiddenBy(c.controls), c.regions, c.lines, m, before, LineOf(Cursor(c)), InLine(Cursor(c)),
                ChunkSize(c));
  }

  lemma ReadHitRefines(c: Cache, m: Memory, before: Memory)
    requires Progress(c, m, before) && c.offset < c.count && IsHit(c) && !c.write
    ensures Progress(HitStep(c), m, before)
  {
    HitStepKeeps(c);
    ReadChunkView(c, m, before);
    var slot := Find(c.lines, LineOf(Cursor(c)));
    var at := InLine(Cursor(c));
    ReadAdvance(before, c.address, c.bytes, c.offset, c.lines[slot].bytes[at..at + ChunkSize(c)]);
  }

  lemma BypassReadRefines(c: Cache, m: Memory, before: Memory)
    requires Progress(c, m, before) && c.offset < c.count && CursorMode(c).InhibitedMode? && !c.write
    ensures AwaitsAnswer(c, BypassRequest(c))
    ensures (var (e, m') := Answered(c, m, BypassRequest(c)); Progress(e, m', before))
  {
    BypassAwaits(c);
    ReadChunkView(c, m, before);
    assert Answered(c, m, BypassRequest(c)).1 == m;
    ReadAdvance(before, c.address, c.bytes, c.offset, m[Cursor(c)..Cursor(c) + ChunkSize(c)]);
  }

  lemma BypassWriteRefines(c: Cache, m: Memory, before: Memory)
    requires Progress(c, m, before) && c.offset < c.count && c.write
    requires Find(c.lines, LineOf(Cursor(c))) == NO_SLOT || CursorMode(c).InhibitedMode?
    ensures AwaitsAnswer(c, BypassRequest(c))
    ensures (var (e, m') := Answered(c, m, BypassRequest(c)); Progress(e, m', before))
  {
    BypassAwaits(c);
    CursorLine(c);
    CursorHidden(c);
    var (e, m') := Answered(c, m, BypassRequest(c));
    assert LinesCoherent(e.controls, e.lines, m') by { CoherentMemoryWrite(c, m, Cursor(c), Chunk(c)); }
    WriteAdvance(c, e, before);
    assert Sees(HiddenBy(e.controls), e.regions, e.lines, m', FlatSoFar(e, before)) by {
      SeesMemoryWrite(HiddenBy(c.controls), c.regions, c.lines, m, Cursor(c), Chunk(c), FlatSoFar(c, before));
    }
  }

  /** The line the cursor misses is in a caching mode. */
  lemma MissMode(c: Cache)
    requires Stepping(c) && c.offset < c.count && !Bypasses(CursorMode(c), c.write, false)
    ensures LineOf(Cursor(c)) + 16 <= ADDRESS_SPACE
    ensures !ModeAt(c.controls, LineOf(Cursor(c))).InhibitedMode?
  {
    LineCovered(c.regions, c.address, c.count, Cursor(c));
    CoveredBounds(c.regions, LineOf(Cursor(c)), 16);
    CursorHidden(c);
  }

  /** A fill brings in what the view already showed. */
  lemma FillKeepsView(c: Cache, m: Memory, flat: Memory)
    requires Stepping(c) && Coherent(c, m) && c.offset < c.count && MissRequest(c).0.pending.Fill?
    requires Find(c.lines, LineOf(Cursor(c))) == NO_SLOT && !Bypasses(CursorMode(c), c.write, false)
    requires Sees(HiddenBy(c.controls), c.regions, c.lines, m, flat)
    ensures AwaitsAnswer(c, MissRequest(c))
    ensures (var (e, m') := Answered(c, m, MissRequest(c));
             Coherent(e, m') && e.regions == c.regions && Sees(HiddenBy(c.controls), c.regions, e.lines, m', flat))
  {
    MissAwaits(c);
    MissMode(c);
    var slot := MissRequest(c).0.pendingSlot;
    var (e, m') := Answered(c, m, MissRequest(c));
    assert m' == m;
    var l := e.lines[slot];
    assert SlotOk(c.regions, c.lines, slot) && SlotCoherent(c.controls, c.lines, m, slot);
    assert e.lines == c.lines[slot := l];
    CoherentReplace(c.controls, c.lines, m, slot, l);
    SeesReplace(HiddenBy(c.controls), c.regions, c.lines, m, slot, l, flat);
  }

  /** Writing a dirty line back keeps the view, and the line then equals memory. */
  lemma WriteBackSees(c: Cache, m: Memory, slot: nat, flat: Memory)
    requires Coherent(c, m) && slot < 2048 && c.lines[slot].dirty
             && Sees(HiddenBy(c.controls), c.regions, c.lines, m, flat)
    ensures c.lines[slot].valid && |c.lines[slot].bytes| == 16 && c.lines[slot].address + 16 <= ADDRESS_SPACE
    ensures (var la := c.lines[slot].address;
             var m' := Splice(m, la, c.lines[slot].bytes);
             Coherent(c, m') && Sees(HiddenBy(c.controls), c.regions, c.lines, m', flat) && InMemory(c.lines[slot], m'))
  {
    assert SlotOk(c.regions, c.lines, slot) && SlotCoherent(c.controls, c.lines, m, slot);
    SlotBounds(c.regions, c.lines, slot);
    var la := c.lines[slot].address;
    if InMemory(c.lines[slot], m) {
      assert Splice(m, la, c.lines[slot].bytes) == m;
    } else {
      CoherentMemoryWrite(c, m, la, c.lines[slot].bytes);
      SeesMemoryWrite(HiddenBy(c.controls), c.regions, c.lines, m, la, c.lines[slot].bytes, flat);
    }
  }

  /** Cleaning or dropping a line that makes no difference keeps the view. */
  lemma DropKeepsView(c: Cache, m: Memory, slot: nat, keep: bool, flat: Memory)
    requires Coherent(c, m) && slot < 2048 && Sees(HiddenBy(c.controls), c.regions, c.lines, m, flat)
    requires Unseen(HiddenBy(c.controls), c.lines[slot], m)
    ensures (var lines' := c.lines[slot := c.lines[slot].(dirty := false, valid := c.lines[slot].valid && keep)];
             && LinesOk(c.regions, lines') && LinesCoherent(c.controls, lines', m)
             && Sees(HiddenBy(c.controls), c.regions, lines', m, flat))
  {
    assert SlotOk(c.regions, c.lines, slot) && SlotCoherent(c.controls, c.lines, m, slot);
    var l := c.lines[slot].(dirty := false, valid := c.lines[slot].valid && keep);
    RewriteKeepsLines(c.regions, c.lines, slot, l);
    CoherentReplace(c.controls, c.lines, m, slot, l);
    SeesReplace(HiddenBy(c.controls), c.regions, c.lines, m, slot, l, flat);
  }

  lemma EvictKeepsView(c: Cache, m: Memory, flat: Memory)
    requires Stepping(c) && Coherent(c, m) && c.offset < c.count && MissRequest(c).0.pending.Evict?
    requires Find(c.lines, LineOf(Cursor(c))) == NO_SLOT
    requires Sees(HiddenBy(c.controls), c.regions, c.lines, m, flat)
    ensures AwaitsAnswer(c, MissRequest(c))
    ensures (var (e, m') := Answered(c, m, MissRequest(c));
             Coherent(e, m') && e.regions == c.regions && Sees(HiddenBy(c.controls), c.regions, e.lines, m', flat))
  {
    MissAwaits(c);
    var slot := MissRequest(c).0.pendingSlot;
    var (e, m') := Answered(c, m, MissRequest(c));
    WriteBackSees(c, m, slot, flat);
    assert m' == Splice(m, c.lines[slot].address, c.lines[slot].bytes);
    DropKeepsView(c, m', slot, false, flat);
  }

  lemma MissFields(c: Cache, m: Memory)
    requires Stepping(c) && c.offset < c.count && AwaitsAnswer(c, MissRequest(c))
    ensures (var e := Answered(c, m, MissRequest(c)).0;
             Stepping(e) && e.address == c.address && e.offset == c.offset && e.count == c.count && e.write == c.write
             && e.bytes == c.bytes && e.regions == c.regions && e.controls == c.controls)
  {
  }

  lemma SameProgress(c: Cache, m: Memory, e: Cache, m': Memory, before: Memory)
    requires Progress(c, m, before) && Stepping(e) && Coherent(e, m') && e.regions == c.regions
    requires e.address == c.address && e.offset == c.offset && e.count == c.count && e.write == c.write
             && e.bytes == c.bytes
    requires HiddenBy(e.controls) == HiddenBy(c.controls)
    requires Sees(HiddenBy(e.controls), e.regions, e.lines, m', FlatSoFar(c, before))
    ensures Progress(e, m', before)
  {
  }

  /** A miss moves a line but not the bytes done. */
  lemma MissRefines(c: Cache, m: Memory, before: Memory)
    requires Progress(c, m, before) && c.offset < c.count
    requires Find(c.lines, LineOf(Cursor(c))) == NO_SLOT && !Bypasses(CursorMode(c), c.write, false)
    ensures AwaitsAnswer(c, MissRequest(c))
    ensures (var (e, m') := Answered(c, m, MissRequest(c)); Progress(e, m', before))
  {
    if MissRequest(c).0.pending.Evict? {
      EvictKeepsView(c, m, FlatSoFar(c, before));
    } else {
      FillKeepsView(c, m, FlatSoFar(c, before));
    }
    MissFields(c, m);
    var (e, m') := Answered(c, m, MissRequest(c));
    SameProgress(c, m, e, m', before);
  }

  lemma SpliceInLine(m: Memory, la: nat, at: nat, data: seq<Byte>)
    requires at + |data| <= 16 && la + 16 <= ADDRESS_SPACE
    ensures Splice(m, la + at, data)[la..la + 16] == Splice(m[la..la + 16], at, data)
  {
  }

  /** The slot after a write-through hit: the bytes written, and the dirty bit clear. */
  function WrittenThrough(lines: seq<Line>, slot: nat, at: nat, data: seq<Byte>): seq<Line>
    requires slot < |lines| && at + |data| <= |lines[slot].bytes|
  {
    lines[slot := lines[slot].(bytes := Splice(lines[slot].bytes, at, data), dirty := false)]
  }

  lemma OtherSlot(regions: seq<Region>, lines: seq<Line>, slot: nat, s: nat)
    requires LinesOk(regions, lines) && slot < 2048 && s < 2048 && s != slot && lines[slot].valid && lines[s].valid
    ensures lines[s].address != lines[slot].address && lines[s].address % 16 == 0
  {
    assert SlotOk(regions, lines, slot) && SlotOk(regions, lines, s);
  }

  lemma ThroughOwnSlot(c: Cache, m: Memory, slot: nat, at: nat, data: seq<Byte>)
    requires Valid(c) && slot < 2048 && InMemory(c.lines[slot], m) && |c.lines[slot].bytes| == 16 && at + |data| <= 16
    ensures SlotCoherent(c.controls, WrittenThrough(c.lines, slot, at, data),
                         Splice(m, c.lines[slot].address + at, data), slot)
  {
    SpliceInLine(m, c.lines[slot].address, at, data);
  }

  lemma ThroughOtherSlot(c: Cache, m: Memory, slot: nat, at: nat, data: seq<Byte>, s: nat)
    requires Coherent(c, m) && slot < 2048 && c.lines[slot].valid && |c.lines[slot].bytes| == 16 && s < 2048
             && s != slot
    requires data != [] && at + |data| <= 16 && c.lines[slot].address + 16 <= ADDRESS_SPACE
    ensures SlotCoherent(c.controls, WrittenThrough(c.lines, slot, at, data),
                         Splice(m, c.lines[slot].address + at, data), s)
  {
    var la := c.lines[slot].address;
    SlotBounds(c.regions, c.lines, slot);
    assert LineOf(la + at) == la by { SameLine(la, la + at); }
    assert SlotCoherent(c.controls, c.lines, m, s);
    if c.lines[s].valid {
      OtherSlot(c.regions, c.lines, slot, s);
      SpliceApart(m, la + at, data, c.lines[s].address);
    }
  }

  /** Writing the same bytes into a resident line that equals memory and into memory keeps them equal. */
  lemma ThroughCoherent(c: Cache, m: Memory, slot: nat, at: nat, data: seq<Byte>)
    requires Coherent(c, m) && slot < 2048 && c.lines[slot].valid && InMemory(c.lines[slot], m)
             && |c.lines[slot].bytes| == 16
    requires data != [] && at + |data| <= 16
    ensures LinesCoherent(c.controls, WrittenThrough(c.lines, slot, at, data),
                          Splice(m, c.lines[slot].address + at, data))
  {
    var lines' := WrittenThrough(c.lines, slot, at, data);
    var m' := Splice(m, c.lines[slot].address + at, data);
    forall s | 0 <= s < 2048 ensures SlotCoherent(c.controls, lines', m', s) {
      if s == slot { ThroughOwnSlot(c, m, slot, at, data); } else { ThroughOtherSlot(c, m, slot, at, data, s); }
    }
  }

  lemma ThroughSees(c: Cache, m: Memory, slot: nat, at: nat, data: seq<Byte>, flat: Memory)
    requires Valid(c) && slot < 2048 && c.lines[slot].valid && |c.lines[slot].bytes| == 16
    requires data != [] && at + |data| <= 16 && c.lines[slot].address + 16 <= ADDRESS_SPACE
    requires Sees(HiddenBy(c.controls), c.regions, c.lines, m, flat) && !HiddenBy(c.controls)(c.lines[slot].address)
    ensures (var lines' := WrittenThrough(c.lines, slot, at, data);
             var from := c.lines[slot].address + at;
             LinesOk(c.regions, lines') && Sees(HiddenBy(c.controls), c.regions, lines', Splice(m, from, data),
                                                Splice(flat, from, data)))
  {
    var la := c.lines[slot].address;
    var lines' := WrittenThrough(c.lines, slot, at, data);
    RewriteKeepsLines(c.regions, c.lines, slot, lines'[slot]);
    SlotBounds(c.regions, lines', slot);
    assert SlotOk(c.regions, lines', slot);
    SameLine(la, la + at);
    SeesLineWrite(HiddenBy(c.controls), c.regions, c.lines, m, slot, at, data, lines'[slot], flat);
    SeesMemoryWrite(HiddenBy(c.controls), c.regions, lines', m, la + at, data, Splice(flat, la + at, data));
  }

  lemma ThroughFields(c: Cache, m: Memory)
    requires Stepping(c) && c.offset < c.count && c.write && Find(c.lines, LineOf(Cursor(c))) < 2048
    requires AwaitsAnswer(c, ThroughRequest(c)) && Cursor(c) + ChunkSize(c) <= ADDRESS_SPACE
    ensures (var (e, m') := Answered(c, m, ThroughRequest(c));
             var slot := Find(c.lines, LineOf(Cursor(c)));
             && |c.lines[slot].bytes| == 16
             && e.lines == WrittenThrough(c.lines, slot, InLine(Cursor(c)), Chunk(c))
             && m' == Splice(m, Cursor(c), Chunk(c))
             && Stepping(e) && e.address == c.address && e.offset == c.offset + ChunkSize(c) && e.count == c.count
             && e.write && e.bytes == c.bytes && e.regions == c.regions && e.controls == c.controls)
  {
    assert SlotOk(c.regions, c.lines, Find(c.lines, LineOf(Cursor(c))));
  }

  lemma ThroughRefines(c: Cache, m: Memory, before: Memory)
    requires Progress(c, m, before) && c.offset < c.count && c.write && CursorMode(c).ThroughMode?
    requires Find(c.lines, LineOf(Cursor(c))) < 2048
    ensures AwaitsAnswer(c, ThroughRequest(c))
    ensures (var (e, m') := Answered(c, m, ThroughRequest(c)); Progress(e, m', before))
  {
    ThroughAwaits(c);
    CursorLine(c);
    CursorHidden(c);
    ThroughFields(c, m);
    var slot := Find(c.lines, LineOf(Cursor(c)));
    assert SlotCoherent(c.controls, c.lines, m, slot);
    ThroughCoherent(c, m, slot, InLine(Cursor(c)), Chunk(c));
    ThroughSees(c, m, slot, InLine(Cursor(c)), Chunk(c), FlatSoFar(c, before));
    WriteAdvance(c, Answered(c, m, ThroughRequest(c)).0, before);
  }

  lemma RequestRefines(c: Cache, m: Memory, before: Memory)
    requires Progress(c, m, before) && c.offset < c.count && !IsHit(c)
    ensures AwaitsAnswer(c, Request(c))
    ensures (var (e, m') := Answered(c, m, Request(c)); Progress(e, m', before))
  {
    var slot := Find(c.lines, LineOf(Cursor(c)));
    if Bypasses(CursorMode(c), c.write, slot < 2048) {
      if c.write { BypassWriteRefines(c, m, before); } else { BypassReadRefines(c, m, before); }
    } else if slot == NO_SLOT {
      MissRefines(c, m, before);
    } else {
      ThroughRefines(c, m, before);
    }
  }

  /** Nothing but the lines, the cursor and the bytes read changes within an access. */
  predicate SameAccess(c: Cache, d: Cache) {
    && d.regions == c.regions && d.controls == c.controls
    && d.address == c.address && d.count == c.count && d.write == c.write
    && (c.write ==> d.bytes == c.bytes)
  }

  /** The flat memory and the bytes delivered once the access c is done. */
  function FlatEnd(c: Cache, before: Memory): Memory
    requires c.address + |c.bytes| <= ADDRESS_SPACE
  {
    if c.write then Splice(before, c.address, c.bytes) else before
  }

  function FlatResult(c: Cache, before: Memory): seq<Byte>
    requires c.address + c.count <= ADDRESS_SPACE
  {
    if c.write then [] else before[c.address..c.address + c.count]
  }

  predicate DoneRight(c: Cache, d: Cache, m: Memory, result: seq<Byte>, before: Memory) {
    && c.address + c.count <= ADDRESS_SPACE && |c.bytes| == c.count
    && Coherent(d, m) && !d.active && d.regions == c.regions && d.controls == c.controls
    && Sees(HiddenBy(d.controls), d.regions, d.lines, m, FlatEnd(c, before))
    && result == FlatResult(c, before)
  }

  lemma FinishRefines(c: Cache, m: Memory, before: Memory)
    requires Progress(c, m, before) && c.offset == c.count
    ensures DoneRight(c, Finish(c).0, m, Finish(c).1.bytes, before)
  {
    assert c.bytes[..c.offset] == c.bytes;
  }

  lemma RequestFields(c: Cache)
    requires Stepping(c) && c.offset < c.count && !IsHit(c)
    ensures SameAccess(c, Request(c).0) && Request(c).0.bytes == c.bytes && !Request(c).0.pushing
    ensures c.write ==> !Request(c).0.pending.BypassRead?
  {
  }

  lemma CompleteFields(c: Cache, answer: seq<Byte>)
    requires Valid(c) && c.active && !c.pending.Idle? && !c.pushing && (c.write ==> !c.pending.BypassRead?)
    requires c.pending.Fill? || c.pending.BypassRead? ==> |answer| == Expected(c)
    ensures SameAccess(c, Complete(c, answer))
  {
  }

  lemma RequestSameAccess(c: Cache, m: Memory)
    requires Stepping(c) && c.offset < c.count && !IsHit(c) && AwaitsAnswer(c, Request(c))
    ensures SameAccess(c, Answered(c, m, Request(c)).0)
  {
    RequestFields(c);
    var r := Request(c);
    ActionInSpace(c, r.1);
    CompleteFields(r.0, Perform(m, r.1).1);
  }

  lemma HitSameAccess(c: Cache)
    requires Stepping(c) && c.offset < c.count && IsHit(c)
    ensures SameAccess(c, HitStep(c)) && |HitStep(c).bytes| == |c.bytes|
  {
  }

  lemma DoneRightTransfers(c: Cache, d: Cache, e: Cache, m: Memory, result: seq<Byte>, before: Memory)
    requires SameAccess(c, d) && |c.bytes| == c.count && DoneRight(d, e, m, result, before)
    ensures DoneRight(c, e, m, result, before)
  {
  }

  /** Where one next() leaves an access: done and right, or making progress once answered. */
  predicate StepRefines(c: Cache, m: Memory, r: (Cache, Action), before: Memory)
    requires Valid(c)
  {
    if r.1.Done? then DoneRight(c, r.0, m, r.1.bytes, before)
    else AwaitsAnswer(c, r)
         && (var (e, m') := Answered(c, m, r); Progress(e, m', before) && SameAccess(c, e))
  }

  lemma StepRefinesTransfers(c: Cache, d: Cache, m: Memory, r: (Cache, Action), before: Memory)
    requires Valid(c) && Valid(d) && SameAccess(c, d) && |c.bytes| == c.count && StepRefines(d, m, r, before)
    ensures StepRefines(c, m, r, before)
  {
    if r.1.Done? { DoneRightTransfers(c, d, r.0, m, r.1.bytes, before); }
  }

  lemma NextChunkRefines(c: Cache, m: Memory, before: Memory)
    requires Progress(c, m, before)
    ensures StepRefines(c, m, NextChunk(c), before)
    decreases c.count - c.offset
  {
    if c.offset == c.count {
      FinishRefines(c, m, before);
    } else if IsHit(c) {
      HitStepKeeps(c);
      if c.write { CopybackHitRefines(c, m, before); } else { ReadHitRefines(c, m, before); }
      NextChunkRefines(HitStep(c), m, before);
      HitSameAccess(c);
      StepRefinesTransfers(c, HitStep(c), m, NextChunk(c), before);
    } else {
      RequestRefines(c, m, before);
      RequestSameAccess(c, m);
    }
  }

  /** A whole access against flat memory, whatever mix of hits, fills, evictions and bypasses it takes. */
  lemma RunRefines(c: Cache, m: Memory, before: Memory)
    requires Progress(c, m, before)
    ensures (var o := Run(c, m); DoneRight(c, o.cache, o.memory, o.result, before))
    decreases Cost(c)
  {
    NextChunkRefines(c, m, before);
    if !NextChunk(c).1.Done? {
      NextCost(c, m);
      var (e, m') := Answered(c, m, NextChunk(c));
      RunRefines(e, m', before);
      DoneRightTransfers(c, e, Run(e, m').cache, Run(e, m').memory, Run(e, m').result, before);
    }
  }
}
