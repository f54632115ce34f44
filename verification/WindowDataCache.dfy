/** The window cache as the mutable object of src/quetz_window_cache.h: every method is proved against the
    transition of module WindowCache it performs. */
module WindowDataCacheObject {
  import opened WindowCache

  /** How a call ended: a failed call throws in the source and leaves the object as it was. */
  datatype Status = Success | Failure(error: Error)

  datatype Transaction = Transaction(
    active: bool, pushing: bool, invalidatePush: bool, write: bool, pending: Pending,
    address: nat, count: nat, offset: nat, bytes: seq<Byte>,
    pendingSlot: nat, pendingAddress: nat, pendingSize: nat)

  class WindowDataCache {
    var regions: seq<Region>
    var controls: Controls
    const lines: array<Line>
    var replacement: nat
    var dirtyDiscards: nat
    /** The fields of the transaction in progress, grouped. */
    var t: Transaction

    function State(): Cache
      reads this, lines
    {
      Cache(regions, controls, lines[..], replacement, dirtyDiscards,
            t.active, t.pushing, t.invalidatePush, t.write, t.pending, t.address, t.count, t.offset, t.bytes,
            t.pendingSlot, t.pendingAddress, t.pendingSize)
    }

    constructor ()
      ensures fresh(lines) && State() == Fresh
    {
      regions, controls, replacement, dirtyDiscards := [], Controls(0, [0, 0, 0, 0]), 0, 0;
      t := Transaction(false, false, false, false, Idle, 0, 0, 0, [], 0, 0, 0);
      lines := new Line[2048](i => EmptyLine);
      new;
      assert lines[..] == Fresh.lines;
    }

    /** The first registered region that contains the address, or none. */
    method RegionFor(a: nat) returns (i: nat)
      ensures i <= |regions|
      ensures i < |regions| ==> regions[i].base <= a < regions[i].base + regions[i].size
      ensures i == |regions| ==> forall j | 0 <= j < |regions| ::
          !(regions[j].base <= a < regions[j].base + regions[j].size)
    {
      i := 0;
      while i < |regions|
        invariant i <= |regions|
        invariant forall j | 0 <= j < i :: !(regions[j].base <= a < regions[j].base + regions[j].size)
      {
        if regions[i].base <= a && a - regions[i].base < regions[i].size { return; }
        i := i + 1;
      }
    }

    method AddRegion(base: nat, size: nat) returns (status: Status)
      requires Valid(State())
      modifies this
      ensures match WindowCache.AddRegion(old(State()), Region(base, size))
              case Ok(d) => status.Success? && State() == d
              case Err(e) => status == Failure(e) && State() == old(State())
      ensures Valid(State())
    {
      ConfigurationKeepsStructure(State(), Region(base, size));
      if t.active { return Failure(Ordering); }
      if size == 0 || size > 0x10_0000 || base > 0xffff_ffff || size - 1 > 0xffff_ffff - base || base % 16 != 0
            || size % 16 != 0 {
        return Failure(InvalidArgument);
      }
      var i := 0;
      while i < |regions|
        invariant i <= |regions|
        invariant forall j | 0 <= j < i :: Disjoint(regions[j], Region(base, size))
      {
        if base < regions[i].base + regions[i].size && regions[i].base < base + size {
          assert !Disjoint(regions[i], Region(base, size));
          return Failure(InvalidArgument);
        }
        i := i + 1;
      }
      regions := regions + [Region(base, size)];
      status := Success;
    }

    method Reset() returns (status: Status)
      requires Valid(State())
      modifies this
      ensures match WindowCache.Reset(old(State()))
              case Ok(d) => status.Success? && State() == d
              case Err(e) => status == Failure(e) && State() == old(State())
      ensures Valid(State())
    {
      ConfigurationKeepsStructure(State(), Region(0, 0));
      if t.active { return Failure(Ordering); }
      controls := Controls(0, [0, 0, 0, 0]);
      status := Success;
    }

    method StartTransaction()
      modifies this
      ensures State() == Start(old(State()))
    {
      t := t.(active := true, pending := Idle, pushing := false, count := 0, offset := 0, bytes := [], write := false);
    }

    method Access(a: nat, size: nat, writing: bool, data: seq<Byte>) returns (status: Status)
      requires Valid(State())
      modifies this
      ensures match WindowCache.Access(old(State()), a, size, writing, data)
              case Ok(d) => status.Success? && State() == d
              case Err(e) => status == Failure(e) && State() == old(State())
      ensures Valid(State())
    {
      StartKeepsStructure(State(), a, size, writing, data, 0, 0, 0, 0);
      var i := RegionFor(a);
      RegionIsCover(regions, i, a, size);
      if size == 0 || size > 8 || i == |regions| || size > regions[i].size - (a - regions[i].base)
            || (writing && |data| != size) {
        return Failure(InvalidArgument);
      }
      if t.active { return Failure(Ordering); }
      StartTransaction();
      t := t.(address := a, count := size, offset := 0, write := writing,
              bytes := if writing then data else seq(size, i => 0));
      status := Success;
    }

    method Movec(reg: nat, value: bv32) returns (status: Status)
      requires Valid(State())
      modifies this, lines
      ensures match WindowCache.Movec(old(State()), reg, value)
              case Ok(d) => status.Success? && State() == d
              case Err(e) => status == Failure(e) && State() == old(State())
      ensures Valid(State())
    {
      StartKeepsStructure(State(), 0, 0, false, [], reg, value, 0, 0);
      if reg != 2 && !(4 <= reg <= 7) { return Failure(InvalidArgument); }
      if reg == 2 && value & 0x6000_0000 != 0 { return Failure(InvalidArgument); }
      if (reg == 4 || reg == 5) && value & 4 != 0 { return Failure(InvalidArgument); }
      if t.active { return Failure(Ordering); }
      StartTransaction();
      WriteControl(reg, value);
      status := Success;
    }

    method WriteControl(reg: nat, value: bv32)
      requires (reg == 2 || 4 <= reg <= 7) && |controls.acr| == 4
      modifies this`controls, this`dirtyDiscards, lines
      ensures controls == ControlsAfter(old(controls), reg, value)
      ensures if InvalidatesAll(reg, value)
              then lines[..] == Invalidated(old(lines[..]))
                  && dirtyDiscards == old(dirtyDiscards) + DirtyCount(old(lines[..]))
              else lines[..] == old(lines[..]) && dirtyDiscards == old(dirtyDiscards)
    {
      if reg == 2 {
        if value & DCINVA != 0 { InvalidateAll(); }
        controls := controls.(cacr := value & !(DCINVA | 0x0004_0100));
      } else {
        controls := controls.(acr := controls.acr[reg - 4 := value]);
      }
    }

    /** Invalidate discards, and counts, dirty lines; it does not write them back. */
    method InvalidateAll()
      modifies this`dirtyDiscards, lines
      ensures lines[..] == Invalidated(old(lines[..]))
      ensures dirtyDiscards == old(dirtyDiscards) + DirtyCount(old(lines[..]))
    {
      ghost var before := lines[..];
      var i := 0;
      while i < lines.Length
        invariant 0 <= i <= lines.Length == |before|
        invariant forall k {:trigger lines[k]} | 0 <= k < lines.Length ::
                    lines[k] == if k < i then before[k].(valid := false, dirty := false) else before[k]
        invariant dirtyDiscards == old(dirtyDiscards) + DirtyCount(before[..i])
      {
        assert before[..i + 1][..i] == before[..i];
        dirtyDiscards := dirtyDiscards + (if lines[i].valid && lines[i].dirty then 1 else 0);
        lines[i] := lines[i].(valid := false, dirty := false);
        i := i + 1;
      }
      assert before[..i] == before;
    }

    method Push(instruction: bv16, operand: nat) returns (status: Status)
      requires Valid(State())
      modifies this
      ensures match WindowCache.Push(old(State()), instruction, operand)
              case Ok(d) => status.Success? && State() == d
              case Err(e) => status == Failure(e) && State() == old(State())
      ensures Valid(State())
    {
      StartKeepsStructure(State(), 0, 0, false, [], 0, 0, instruction, operand);
      if instruction & 0xff38 != 0xf428 || instruction & 0xc0 == 0 { return Failure(InvalidArgument); }
      if t.active { return Failure(Ordering); }
      StartTransaction();
      if instruction & 0x40 != 0 {
        t := t.(pushing := true, invalidatePush := controls.cacr & DDPI == 0,
                pendingSlot := SetIndex(operand) * 4 + operand % 4);
      }
      status := Success;
    }

    method FindSlot(la: nat) returns (slot: nat)
      requires lines.Length == 2048
      ensures slot == Find(lines[..], la)
    {
      var first := SetIndex(la) * 4;
      slot := first;
      while slot < first + 4
        invariant first <= slot <= first + 4
        invariant forall s | first <= s < slot :: !Holds(lines[s], la)
      {
        if lines[slot].valid && lines[slot].address == la { return; }
        slot := slot + 1;
      }
      slot := NO_SLOT;
    }

    method VictimSlot(set_: nat) returns (slot: nat)
      requires lines.Length == 2048 && set_ < 512 && replacement < 4
      ensures slot == Victim(lines[..], controls, replacement, set_)
    {
      var firstWay := if controls.cacr & DHLCK != 0 then 2 else 0;
      var way := firstWay;
      while way < 4
        invariant firstWay <= way <= 4
        invariant InvalidWay(lines[..], set_, firstWay) == InvalidWay(lines[..], set_, way)
      {
        if !lines[set_ * 4 + way].valid { return set_ * 4 + way; }
        way := way + 1;
      }
      way := if firstWay != 0 then 2 + replacement / 2 else replacement;
      slot := set_ * 4 + way;
    }

    /** One next(): serve hits until a backing request is needed or the transaction is over. */
    method Next() returns (status: Status, action: Action)
      requires Valid(State())
      modifies this, lines
      ensures if old(t.active && t.pending.Idle?)
              then status.Success? && (State(), action) == WindowCache.Next(old(State()))
              else status == Failure(Ordering) && State() == old(State())
      ensures Valid(State())
    {
      if !t.active || !t.pending.Idle? { return Failure(Ordering), Done([]); }
      NextKeepsStructure(State());
      status := Success;
      if t.pushing {
        action := NextPushed();
      } else {
        action := NextOfAccess();
      }
    }

    method NextPushed() returns (action: Action)
      requires Valid(State()) && t.active && t.pending.Idle? && t.pushing
      modifies this, lines
      ensures (State(), action) == NextPush(old(State()))
    {
      var line := lines[t.pendingSlot];
      if line.valid && line.dirty {
        t := t.(pending := PushBack);
        return Write(line.address, line.bytes);
      }
      if t.invalidatePush {
        ghost var before := lines[..];
        lines[t.pendingSlot] := line.(valid := false);
        assert lines[..] == before[t.pendingSlot := line.(valid := false)];
      }
      t := t.(pushing := false, active := false);
      action := Done(if t.write then [] else t.bytes);
    }

    method NextOfAccess() returns (action: Action)
      requires Stepping(State())
      modifies this, lines
      ensures (State(), action) == NextChunk(old(State()))
    {
      while t.offset < t.count
        invariant Stepping(State()) && NextChunk(State()) == NextChunk(old(State()))
        decreases t.count - t.offset
      {
        ghost var here := State();
        if IsHit(here) { HitStepKeeps(here); }
        var requested;
        requested, action := ProbeChunk();
        if requested { return; }
      }
      t := t.(active := false);
      action := Done(if t.write then [] else t.bytes);
    }

    /** The chunk under the cursor: serve it from a resident line, or make its backing request. */
    method ProbeChunk() returns (requested: bool, action: Action)
      requires Stepping(State()) && t.offset < t.count
      modifies this, lines
      ensures requested == !IsHit(old(State()))
      ensures if requested then (State(), action) == Request(old(State())) else State() == HitStep(old(State()))
    {
      CursorInSpace(State());
      var at := t.address + t.offset;
      var slot := FindSlot(LineOf(at));
      var mode := ModeAt(controls, at);
      assert mode == CursorMode(State());
      requested, action := true, Done([]);
      if mode.InhibitedMode? || (t.write && mode.ThroughMode? && slot == NO_SLOT) {
        action := Bypass();
      } else if slot == NO_SLOT {
        action := Miss();
      } else if t.write && mode.ThroughMode? {
        action := WriteThroughHit(slot);
      } else {
        if t.write { ServeWriteHit(slot); } else { ServeReadHit(slot); }
        requested := false;
      }
    }

    /** Note the line and the size of the chunk under the cursor. */
    method NoteChunk()
      requires Stepping(State()) && t.offset < t.count
      modifies this`t
      ensures State() == AtChunk(old(State()))
    {
      var at := t.address + t.offset;
      t := t.(pendingSize := Min(t.count - t.offset, 16 - InLine(at)), pendingAddress := LineOf(at));
    }

    method Bypass() returns (action: Action)
      requires Stepping(State()) && t.offset < t.count
      modifies this
      ensures (State(), action) == BypassRequest(old(State()))
    {
      NoteChunk();
      if t.write {
        t := t.(pending := BypassWrite);
        action := Write(t.address + t.offset, t.bytes[t.offset..t.offset + t.pendingSize]);
      } else {
        t := t.(pending := BypassRead);
        action := Read(t.address + t.offset, t.pendingSize);
      }
    }

    method Miss() returns (action: Action)
      requires Stepping(State()) && t.offset < t.count
      modifies this
      ensures (State(), action) == MissRequest(old(State()))
    {
      NoteChunk();
      var v := VictimSlot(SetIndex(t.pendingAddress));
      if lines[v].valid && lines[v].dirty {
        t := t.(pendingSlot := v, pending := Evict);
        action := Write(lines[v].address, lines[v].bytes);
      } else {
        t := t.(pendingSlot := v, pending := Fill);
        action := Read(t.pendingAddress, 16);
      }
    }

    method WriteThroughHit(slot: nat) returns (action: Action)
      requires Stepping(State()) && t.offset < t.count
      requires slot == Find(lines[..], LineOf(t.address + t.offset)) < 2048
      modifies this, lines
      ensures (State(), action) == ThroughRequest(old(State()))
    {
      assert SlotOk(regions, lines[..], slot);
      NoteChunk();
      var at := t.address + t.offset;
      var chunk := t.bytes[t.offset..t.offset + t.pendingSize];
      SetLine(slot, lines[slot].(bytes := Splice(lines[slot].bytes, InLine(at), chunk)));
      t := t.(pending := WriteThrough, pendingSlot := slot);
      action := Write(at, chunk);
    }

    method ServeWriteHit(slot: nat)
      requires Stepping(State()) && t.offset < t.count && IsHit(State()) && t.write
      requires slot == Find(lines[..], LineOf(t.address + t.offset)) < 2048
      modifies this, lines
      ensures State() == HitStep(old(State()))
    {
      assert SlotOk(regions, lines[..], slot);
      NoteChunk();
      var chunk := t.bytes[t.offset..t.offset + t.pendingSize];
      SetLine(slot, lines[slot].(bytes := Splice(lines[slot].bytes, InLine(t.address + t.offset), chunk),
                                 dirty := true));
      t := t.(offset := t.offset + t.pendingSize);
    }

    method ServeReadHit(slot: nat)
      requires Stepping(State()) && t.offset < t.count && IsHit(State()) && !t.write
      requires slot == Find(lines[..], LineOf(t.address + t.offset)) < 2048
      modifies this`t
      ensures State() == HitStep(old(State()))
    {
      assert SlotOk(regions, lines[..], slot);
      NoteChunk();
      var i := InLine(t.address + t.offset);
      t := t.(bytes := Splice(t.bytes, t.offset, lines[slot].bytes[i..i + t.pendingSize]),
              offset := t.offset + t.pendingSize);
    }

    /** Feed the answer of the outstanding request back in. */
    method Complete(answer: seq<Byte>) returns (status: Status)
      requires Valid(State())
      modifies this, lines
      ensures if !old(t.active) || old(t.pending.Idle?) then status == Failure(Ordering) && State() == old(State())
              else if old(t.pending.Fill? || t.pending.BypassRead?) && |answer| != Expected(old(State()))
              then status == Failure(ShortResponse) && State() == old(State())
              else status.Success? && State() == WindowCache.Complete(old(State()), answer)
      ensures Valid(State())
    {
      if !t.active || t.pending.Idle? { return Failure(Ordering); }
      if t.pending.Fill? && |answer| != 16 { return Failure(ShortResponse); }
      if t.pending.BypassRead? && |answer| != t.pendingSize { return Failure(ShortResponse); }
      CompleteKeepsStructure(State(), answer);
      if t.pending.Fill? || t.pending.PushBack? || t.pending.Evict? || t.pending.WriteThrough? {
        CompleteInLine(answer);
      } else if t.pending.BypassRead? {
        t := t.(bytes := Splice(t.bytes, t.offset, answer), offset := t.offset + t.pendingSize, pending := Idle);
      } else {
        t := t.(offset := t.offset + t.pendingSize, pending := Idle);
      }
      status := Success;
    }

    /** The answers that change the pending slot. */
    method CompleteInLine(answer: seq<Byte>)
      requires Valid(State()) && t.active && (t.pending.Fill? ==> |answer| == 16)
      requires t.pending.Fill? || t.pending.PushBack? || t.pending.Evict? || t.pending.WriteThrough?
      modifies this, lines
      ensures State() == WindowCache.Complete(old(State()), answer)
    {
      var slot := t.pendingSlot;
      if t.pending.Fill? {
        SetLine(slot, Line(answer, t.pendingAddress, true, false));
        replacement := (replacement + 1) % 4;
        t := t.(pending := Idle);
      } else if t.pending.PushBack? {
        SetLine(slot, lines[slot].(dirty := false, valid := lines[slot].valid && !t.invalidatePush));
        t := t.(pushing := false, pending := Idle);
      } else if t.pending.Evict? {
        SetLine(slot, lines[slot].(dirty := false, valid := false));
        t := t.(pending := Idle);
      } else {
        SetLine(slot, lines[slot].(dirty := false));
        t := t.(offset := t.offset + t.pendingSize, pending := Idle);
      }
    }

    method SetLine(slot: nat, l: Line)
      requires slot < lines.Length
      modifies lines
      ensures lines[..] == old(lines[..])[slot := l]
    {
      lines[slot] := l;
    }
  }

  /** Regions do not overlap, so the region found for the first byte is the only one that can hold the access. */
  lemma RegionIsCover(regions: seq<Region>, i: nat, a: nat, size: nat)
    requires RegionsOk(regions) && i <= |regions|
    requires i < |regions| ==> regions[i].base <= a < regions[i].base + regions[i].size
    requires i == |regions| ==> forall j | 0 <= j < |regions| ::
        !(regions[j].base <= a < regions[j].base + regions[j].size)
    ensures size > 0 ==> (Covered(regions, a, size) <==>
      i < |regions| && size <= regions[i].size - (a - regions[i].base))
  {
    if size > 0 && Covered(regions, a, size) {
      var j :| 0 <= j < |regions| && regions[j].base <= a && a + size <= regions[j].base + regions[j].size;
      if i < |regions| && i != j {
        assert Disjoint(regions[if i < j then i else j], regions[if i < j then j else i]);
      }
    }
  }
}
