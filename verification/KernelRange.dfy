/** The configured DMA range in numbers (src/quetz_gpu_device.cc): what an operation may touch, and exactly which
    operations are rejected for it. */
module KernelRange {
  import opened LineMath
  import opened MemoryIssue
  import opened KernelOp
  import opened KernelEnding

  /** The n bytes at `addr` end inside the 64-bit address space and, if a range is configured, lie in it. */
  predicate Inside(cfg: Config, addr: nat, n: nat) {
    && addr + n <= 0x1_0000_0000_0000_0000
    && (cfg.rangeEnd != 0 ==> cfg.rangeStart <= addr && addr + n - 1 <= cfg.rangeEnd)
  }

  /** The guard of the device, on 64-bit words without wrap-around, says just that. */
  lemma GuardIsInside(cfg: Config, addr: nat, n: nat)
    requires Word(addr) && n > 0
    ensures DmaRangeOk(cfg, addr, n) <==> Inside(cfg, addr, n)
  {
  }

  // ---------------------------------------------------------------- every request

  /** In every run, whatever the guest programs, every read and every write of the operation in progress is nonempty,
      at most 64 bytes long, and inside the address space and the configured range. */
  lemma RequestsInside(cfg: Config, s0: KernelOp.Op, steps: seq<Step>, s: KernelOp.Op)
    requires Init(s0) && Runs(cfg, s0, steps) && s == After(cfg, s0, steps) && !s.fatal && s.phase != Idle
    ensures forall r | r in s.readLog && s.phase.Reading? :: 0 < r.len <= 64 && Inside(cfg, r.addr, r.len)
    ensures forall w | w in s.writeLog :: 0 < |w.data| <= 64 && Inside(cfg, w.addr, |w.data|)
  {
    KernelOpSafety(cfg, s0, steps);
    if s.phase.Reading? {
      forall r | r in s.readLog ensures 0 < r.len <= 64 && Inside(cfg, r.addr, r.len) {
        var id: nat :| id < |s.readLog| && s.readLog[id] == r;
        assert ReadOk(cfg, s, id);
        GuardIsInside(cfg, r.addr, r.len);
      }
    } else {
      forall w | w in s.writeLog ensures 0 < |w.data| <= 64 && Inside(cfg, w.addr, |w.data|) {
        var k: nat :| k < |s.writeLog| && s.writeLog[k] == w;
        assert WriteOk(cfg, s, k);
        GuardIsInside(cfg, w.addr, |w.data|);
      }
    }
  }

  /** A request is as long as it can be: 64 bytes, unless the line or the buffer ends before. */
  predicate FullLength(cfg: Config, addr: nat, len: nat, end: nat) {
    len == 64 || addr + len == end || (cfg.line > 0 && (addr + len) % cfg.line == 0)
  }

  lemma ChunkIsFull(cfg: Config, addr: nat, remaining: nat)
    ensures FullLength(cfg, addr, DmaChunk(cfg, addr, remaining), addr + remaining)
  {
    var most := if remaining < CHUNK then remaining else CHUNK;
    ChunkIs(addr, most, cfg.line);
    if cfg.line > 0 { NextLine(addr, cfg.line); }
  }

  lemma ReadsFull(cfg: Config, s: KernelOp.Op, r: Read)
    requires ReadingOk(cfg, s) && r in s.readLog
    ensures FullLength(cfg, r.addr, r.len, s.args.src + s.inBytes)
  {
    var id: nat :| id < |s.readLog| && s.readLog[id] == r;
    assert ReadOk(cfg, s, id);
    ChunkIsFull(cfg, r.addr, s.args.src + s.inBytes - r.addr);
  }

  lemma WritesFull(cfg: Config, s: KernelOp.Op, w: Write)
    requires WritingOk(cfg, s) && w in s.writeLog
    ensures FullLength(cfg, w.addr, |w.data|, s.args.dst + |s.outBuf|)
  {
    var k: nat :| k < |s.writeLog| && s.writeLog[k] == w;
    assert WriteOk(cfg, s, k);
    ChunkIsFull(cfg, w.addr, s.args.dst + |s.outBuf| - w.addr);
  }

  /** In every run the operation in progress keeps 64 requests out until everything has been asked for, none of them
      shorter than it has to be. */
  lemma RequestsFull(cfg: Config, s0: KernelOp.Op, steps: seq<Step>, s: KernelOp.Op)
    requires Init(s0) && Runs(cfg, s0, steps) && s == After(cfg, s0, steps) && !s.fatal && s.phase != Idle
    ensures s.outstanding <= 64 && (s.outstanding == 64 || s.next == if s.phase.Reading? then s.inBytes else |s.outBuf|)
    ensures forall r | r in s.readLog && s.phase.Reading? :: FullLength(cfg, r.addr, r.len, s.args.src + s.inBytes)
    ensures forall w | w in s.writeLog :: FullLength(cfg, w.addr, |w.data|, s.args.dst + |s.outBuf|)
  {
    KernelOpSafety(cfg, s0, steps);
    if s.phase.Reading? {
      forall r | r in s.readLog ensures FullLength(cfg, r.addr, r.len, s.args.src + s.inBytes) { ReadsFull(cfg, s, r); }
    } else {
      forall w | w in s.writeLog ensures FullLength(cfg, w.addr, |w.data|, s.args.dst + |s.outBuf|) {
        WritesFull(cfg, s, w);
      }
    }
  }

  // ---------------------------------------------------------------- every stop

  /** A step stops the simulation if and only if it rings a busy device, or runs the kernel and gets no output. */
  lemma StopsIff(cfg: Config, s: KernelOp.Op, step: Step)
    requires StateOk(cfg, s) && !s.fatal && Enabled(s, step) && StepOk(step)
    ensures Next(cfg, s, step).fatal <==>
              (step.RingStep? && s.phase != Idle) || (Computes(cfg, s, step) && Result(cfg, s) == [])
  {
    match step
    case ReadResp(id) => ReadRespStops(cfg, s, id);
    case WriteResp => var _ := WriteRespForm(cfg, s);
    case TickStep => RetireRuns(cfg, s.(clk := (s.clk + 1) % WORD64));
    case Poll => RetireRuns(cfg, s);
    case RingStep(args, posted) => if s.phase == Idle { RingFixesTask(cfg, s, args, posted); }
    case Override(_) =>
    case GuestStore(_, _) =>
  }

  lemma ReadRespStops(cfg: Config, s: KernelOp.Op, id: nat)
    requires StateOk(cfg, s) && !s.fatal && Enabled(s, ReadResp(id))
    ensures Next(cfg, s, ReadResp(id)).fatal <==> Computes(cfg, s, ReadResp(id)) && Result(cfg, s) == []
  {
    var b := ReadRespForm(cfg, s, id);
    if b.outstanding == 0 {
      ReadComplete(cfg, b);
      WritebackTask(cfg, b.(outBuf := Result(cfg, b), override := 0));
    }
  }

  lemma RetireRuns(cfg: Config, c: KernelOp.Op)
    requires !c.fatal && (c.busyUntil != 0 ==> c.phase.Reading? && c.writeLog == [] && Word(c.args.dst))
    ensures !RetireIfReady(cfg, c).fatal
  {
    if c.busyUntil != 0 && c.clk >= c.busyUntil { WritebackTask(cfg, c.(busyUntil := 0)); }
  }

  /** A status poll ends a busy window that is due, as a tick does. */
  lemma PollEndsWindow(cfg: Config, s: KernelOp.Op)
    requires StateOk(cfg, s) && !s.fatal && Waiting(s) && 0 < s.busyUntil <= s.clk
    ensures !Next(cfg, s, Poll).phase.Reading?
  {
    WritebackTask(cfg, s.(busyUntil := 0));
  }

  // ---------------------------------------------------------------- every rejection

  /** A doorbell on an idle device is rejected at once if and only if the kernel refuses its arguments, or its source
      bytes or its first destination byte are not inside. */
  lemma RejectedAtStartIff(cfg: Config, s0: KernelOp.Op, steps: seq<Step>, r: KernelOp.Op, args: Args, posted: bool)
    requires Init(s0) && Runs(cfg, s0, steps) && r == After(cfg, s0, steps) && !r.fatal && r.phase.Idle? && ArgsOk(args)
    ensures (var t, n := Ring(cfg, r, args, posted), cfg.inputBytes(args);
             && t.rejected + t.kernelId + Bit(t.phase != Idle) == r.rejected + r.kernelId + 1
             && (t.rejected == r.rejected + 1 <==> n == 0 || !Inside(cfg, args.src, n) || !Inside(cfg, args.dst, 1))
             && (t.phase != Idle <==> t.rejected == r.rejected))
  {
    KernelOpSafety(cfg, s0, steps);
    var a, n := Rung(cfg, r, args, posted), cfg.inputBytes(args);
    if n > 0 { GuardIsInside(cfg, args.src, n); }
    GuardIsInside(cfg, args.dst, 1);
    RingFixesTask(cfg, r, args, posted);
    if n != 0 && DmaRangeOk(cfg, args.src, n) && DmaRangeOk(cfg, args.dst, 1) {
      BegunReads(cfg, a, n);
      IssueReadsKeeps(cfg, Begun(a, n));
    }
  }

  /** The writeback of a computed operation rejects it if and only if its whole output is not inside. */
  lemma WritebackRejects(cfg: Config, s: KernelOp.Op)
    requires s.phase != Idle && s.writeLog == [] && Word(s.args.dst) && s.outBuf != []
    ensures (var t := BeginWriteback(cfg, s);
             && (t.phase.Idle? <==> !Inside(cfg, s.args.dst, |s.outBuf|))
             && t.rejected == s.rejected + Bit(!Inside(cfg, s.args.dst, |s.outBuf|)))
  {
    GuardIsInside(cfg, s.args.dst, |s.outBuf|);
    if DmaRangeOk(cfg, s.args.dst, |s.outBuf|) {
      IssueWritesKeeps(cfg, s.(phase := Writing, outstanding := 0, next := 0));
    }
  }

  /** A step that ends an operation rejects it exactly if the kernel's whole output is not inside. */
  lemma StepRejectsIff(cfg: Config, s: KernelOp.Op, step: Step)
    requires StateOk(cfg, s) && InProgress(s) && Enabled(s, step) && StepOk(step) && Result(cfg, s) != []
    requires !Next(cfg, s, step).fatal && !InProgress(Next(cfg, s, step))
    ensures Next(cfg, s, step).rejected == s.rejected + Bit(!Inside(cfg, s.args.dst, |Result(cfg, s)|))
  {
    match step
    case ReadResp(id) =>
      var b := ReadRespForm(cfg, s, id);
      if b.outstanding == 0 { ComputeRejects(cfg, b); }
    case WriteResp =>
      var _ := WriteRespForm(cfg, s);
      GuardIsInside(cfg, s.args.dst, |s.outBuf|);
    case TickStep => RetireRejects(cfg, s, s.(clk := (s.clk + 1) % WORD64));
    case Poll => RetireRejects(cfg, s, s);
    case RingStep(_, _) =>
    case Override(_) =>
    case GuestStore(_, _) =>
  }

  lemma ComputeRejects(cfg: Config, b: KernelOp.Op)
    requires b.phase.Reading? && ReadingOk(cfg, b) && b.writeLog == [] && b.outstanding == 0 && b.next == b.inBytes
    requires Word(b.args.dst) && b.clk < WORD64 && Result(cfg, b) != []
    ensures (var t := Compute(cfg, b);
             t.phase.Idle? ==> t.rejected == b.rejected + Bit(!Inside(cfg, b.args.dst, |Result(cfg, b)|)))
  {
    ComputeForm(cfg, b);
    WritebackRejects(cfg, b.(outBuf := Result(cfg, b), override := 0));
  }

  lemma RetireRejects(cfg: Config, s: KernelOp.Op, c: KernelOp.Op)
    requires StateOk(cfg, s) && InProgress(s) && c == s.(clk := c.clk) && Result(cfg, s) != []
    ensures (var t := RetireIfReady(cfg, c);
             t.phase.Idle? ==> t.rejected == s.rejected + Bit(!Inside(cfg, s.args.dst, |Result(cfg, s)|)))
  {
    if c.busyUntil != 0 && c.clk >= c.busyUntil { WritebackRejects(cfg, c.(busyUntil := 0)); }
  }

  lemma {:induction false} RunRejectsIff(cfg: Config, s: KernelOp.Op, steps: seq<Step>)
    requires StateOk(cfg, s) && InProgress(s) && Within(cfg, s, steps) && Result(cfg, s) != []
    requires !Reach(cfg, s, steps).fatal && !InProgress(Reach(cfg, s, steps))
    ensures Reach(cfg, s, steps).rejected == s.rejected + Bit(!Inside(cfg, s.args.dst, |Result(cfg, s)|))
    decreases |steps|
  {
    var n := Next(cfg, s, steps[0]);
    FatalStays(cfg, n, steps[1..]);
    StepKeeps(cfg, s, steps[0]);
    StepTask(cfg, s, steps[0]);
    if InProgress(n) {
      StepUncounted(cfg, s, steps[0]);
      StepEnds(cfg, s, steps[0]);
      RunRejectsIff(cfg, n, steps[1..]);
    } else {
      StepRejectsIff(cfg, s, steps[0]);
    }
  }

  /** From doorbell to end, in every run and every order of responses: an operation is rejected if and only if the
      kernel refuses its arguments, or its source bytes or the whole of its output are not inside; otherwise it
      completes. */
  lemma RejectedIff(cfg: Config, s0: KernelOp.Op, earlier: seq<Step>, r: KernelOp.Op, args: Args, posted: bool,
                    steps: seq<Step>, t: KernelOp.Op)
    requires Init(s0) && Runs(cfg, s0, earlier) && r == After(cfg, s0, earlier) && !r.fatal && r.phase.Idle?
             && ArgsOk(args)
    requires Within(cfg, Ring(cfg, r, args, posted), steps) && t == Reach(cfg, Ring(cfg, r, args, posted), steps)
    requires !t.fatal && !InProgress(t) && Output(cfg, r, args) != []
    ensures (var n := cfg.inputBytes(args);
             var refused := n == 0 || !Inside(cfg, args.src, n) || !Inside(cfg, args.dst, |Output(cfg, r, args)|);
             t.rejected == r.rejected + Bit(refused) && t.kernelId == r.kernelId + Bit(!refused))
  {
    var s := Ring(cfg, r, args, posted);
    RejectedAtStartIff(cfg, s0, earlier, r, args, posted);
    KernelOpSafety(cfg, s0, earlier);
    RingFixesTask(cfg, r, args, posted);
    RingKeeps(cfg, r, args, posted);
    if InProgress(s) {
      WithinEnds(cfg, s, steps);
      RunRejectsIff(cfg, s, steps);
    }
  }
}
