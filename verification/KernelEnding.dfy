/** How a kernel operation ends (src/quetz_gpu_device.cc): what it leaves in memory, how many responses and ticks it
    takes at most, and the one clock and latency for which it never ends. */
module KernelEnding {
  import opened LineMath
    import opened KernelOp

  // ---------------------------------------------------------------- one operation from doorbell to end

  predicate InProgress(s: KernelOp.Op) { s.phase != Idle }

  /** A run inside one operation: it may end the operation with its last step only. */
  predicate Within(cfg: Config, s: KernelOp.Op, steps: seq<Step>)
    decreases |steps|
  {
    steps == [] || (InProgress(s) && Enabled(s, steps[0]) && StepOk(steps[0])
                    && Within(cfg, Next(cfg, s, steps[0]), steps[1..]))
  }

  function Reach(cfg: Config, s: KernelOp.Op, steps: seq<Step>): KernelOp.Op
    requires Within(cfg, s, steps)
    decreases |steps|
  {
    if steps == [] then s else Reach(cfg, Next(cfg, s, steps[0]), steps[1..])
  }

  /** What belongs to the operation and not to its progress. */
  ghost predicate SameTask(s: KernelOp.Op, t: KernelOp.Op) {
    t.args == s.args && t.memory == s.memory && t.inBytes == s.inBytes
  }

  lemma WritebackTask(cfg: Config, s: KernelOp.Op)
    requires s.phase != Idle && s.writeLog == [] && Word(s.args.dst)
    ensures (var t := BeginWriteback(cfg, s);
             SameTask(s, t) && t.clk == s.clk && t.outBuf == s.outBuf && t.fatal == s.fatal
                 && t.submitted == s.submitted)
    ensures BeginWriteback(cfg, s).kernelId == s.kernelId
    ensures (var t := BeginWriteback(cfg, s); t.phase.Idle? ==> t.writeLog == [] && t.rejected == s.rejected + 1)
    ensures (var t := BeginWriteback(cfg, s);
             !t.phase.Idle? ==> t.phase.Writing? && 2 * (|t.outBuf| - t.next) + t.outstanding <= 2 * |s.outBuf|)
  {
    if DmaRangeOk(cfg, s.args.dst, |s.outBuf|) {
      IssueWritesKeeps(cfg, s.(phase := Writing, outstanding := 0, next := 0));
    }
  }

  /** A read response: the window moves on, or the operation is computed. */
  lemma ReadRespForm(cfg: Config, s: KernelOp.Op, id: nat) returns (b: KernelOp.Op)
    requires StateOk(cfg, s) && Enabled(s, ReadResp(id))
    ensures b == IssueReads(cfg, Answered(cfg, s, id)) && SameOp(s, b) && SameTask(s, b) && ReadingOk(cfg, b)
            && b.writeLog == []
    ensures 0 <= Work(b) < Work(s) && (Work(b) == 0 <==> b.outstanding == 0)
            && (b.outstanding == 0 ==> b.next == b.inBytes)
    ensures Next(cfg, s, ReadResp(id)) == if b.outstanding == 0 then Compute(cfg, b) else b
  {
    assert ReqOk(s, id);
    AnsweredKeeps(cfg, s, id);
    IssueReadsKeeps(cfg, Answered(cfg, s, id));
    b := IssueReads(cfg, Answered(cfg, s, id));
  }

  /** A write response: the window moves on, or the operation is finished. */
  lemma WriteRespForm(cfg: Config, s: KernelOp.Op) returns (b: KernelOp.Op)
    requires StateOk(cfg, s) && Enabled(s, WriteResp)
    ensures SameOp(s, b) && SameTask(s, b) && b.outBuf == s.outBuf
    ensures 0 <= Work(b) < Work(s) && (Work(b) == 0 <==> b.outstanding == 0)
    ensures Next(cfg, s, WriteResp) == if b.outstanding == 0 then Finish(b) else b
  {
    var a := s.(outstanding := s.outstanding - 1);
    forall k: nat | k < |a.writeLog| ensures WriteOk(cfg, a, k) { assert WriteOk(cfg, s, k); }
    IssueWritesKeeps(cfg, a);
    b := IssueWrites(cfg, a);
  }

  /** Responses still to come in this phase, at most. */
  function Work(s: KernelOp.Op): int {
    if s.phase.Reading? then 2 * (s.inBytes - s.next) + s.outstanding else 2 * (|s.outBuf| - s.next) + s.outstanding
  }

  /** The latency the operation will be given if it is computed with the registers as they are. */
  function Latency(cfg: Config, s: KernelOp.Op): nat {
    LatencyOf(cfg, s, cfg.compute(s.args, Bytes(s.memory, s.args.src, s.inBytes)).1)
  }

  lemma ComputeForm(cfg: Config, b: KernelOp.Op)
    requires b.phase.Reading? && ReadingOk(cfg, b) && b.writeLog == [] && b.outstanding == 0 && b.next == b.inBytes
             && Word(b.args.dst)
    requires b.clk < WORD64 && Result(cfg, b) != []
    ensures (var t := Compute(cfg, b);
             && SameTask(b, t) && t.fatal == b.fatal && t.clk == b.clk && t.outBuf == Result(cfg, b)
             && (if Latency(cfg, b) > 0
                 then t == b.(outBuf := t.outBuf, override := 0, busyUntil := (b.clk + Latency(cfg, b)) % WORD64)
                 else t == BeginWriteback(cfg, b.(outBuf := t.outBuf, override := 0))))
  {
    ReadComplete(cfg, b);
    WritebackTask(cfg, b.(outBuf := Result(cfg, b), override := 0));
  }

  /** Everything an operation is about stays as it was at its start, through every step until it has ended. */
  lemma StepTask(cfg: Config, s: KernelOp.Op, step: Step)
    requires StateOk(cfg, s) && InProgress(s) && Enabled(s, step) && !Next(cfg, s, step).fatal
    ensures SameTask(s, Next(cfg, s, step))
  {
    match step
    case ReadResp(id) =>
      var b := ReadRespForm(cfg, s, id);
      if b.outstanding == 0 { ComputeTask(cfg, b); }
    case WriteResp => var _ := WriteRespForm(cfg, s);
    case TickStep => RetireTask(cfg, s.(clk := (s.clk + 1) % WORD64));
    case Poll => RetireTask(cfg, s);
    case RingStep(_, _) =>
    case Override(_) =>
    case GuestStore(_, _) =>
  }

  lemma ComputeTask(cfg: Config, b: KernelOp.Op)
    requires b.phase.Reading? && b.writeLog == [] && Word(b.args.dst)
    ensures SameTask(b, Compute(cfg, b))
  {
    var (out, _) := cfg.compute(b.args, b.inBuf);
    WritebackTask(cfg, b.(outBuf := out, override := 0));
  }

  lemma RetireTask(cfg: Config, s: KernelOp.Op)
    requires s.phase.Reading? ==> s.writeLog == [] && Word(s.args.dst)
    requires !s.phase.Reading? ==> s.busyUntil == 0
    ensures SameTask(s, RetireIfReady(cfg, s))
  {
    if s.busyUntil != 0 && s.clk >= s.busyUntil { WritebackTask(cfg, s.(busyUntil := 0)); }
  }

  /** Rejected: counted once, and nothing written. */
  predicate Rejected(s: KernelOp.Op, t: KernelOp.Op) {
    t.phase.Idle? && t.rejected == s.rejected + 1 && t.kernelId == s.kernelId && t.writeLog == []
  }

  /** A step inside an operation either leaves it in progress and uncounted, or ends it in one of two ways. */
  lemma StepEnds(cfg: Config, s: KernelOp.Op, step: Step)
    requires StateOk(cfg, s) && InProgress(s) && Enabled(s, step) && StepOk(step) && !Next(cfg, s, step).fatal
    ensures (var t := Next(cfg, s, step);
             && t.submitted == s.submitted
             && (InProgress(t) ==> t.kernelId == s.kernelId && t.rejected == s.rejected)
             && (!InProgress(t) ==> Completed(cfg, s, t) || Rejected(s, t)))
  {
    StepUncounted(cfg, s, step);
    match step
    case ReadResp(id) => ReadRespEnds(cfg, s, id);
    case WriteResp => WriteRespEnds(cfg, s);
    case TickStep => RetireEnds(cfg, s.(clk := (s.clk + 1) % WORD64));
    case Poll => RetireEnds(cfg, s);
    case RingStep(_, _) =>
    case Override(_) =>
    case GuestStore(_, _) =>
  }

  /** A step that neither starts nor ends an operation counts nothing. */
  lemma StepUncounted(cfg: Config, s: KernelOp.Op, step: Step)
    requires StateOk(cfg, s) && InProgress(s) && Enabled(s, step) && StepOk(step) && !Next(cfg, s, step).fatal
    ensures (var t := Next(cfg, s, step);
             InProgress(t) && t.submitted == s.submitted ==> t.kernelId == s.kernelId && t.rejected == s.rejected)
  {
    StepKeeps(cfg, s, step);
  }

  lemma WriteRespEnds(cfg: Config, s: KernelOp.Op)
    requires StateOk(cfg, s) && Enabled(s, WriteResp)
    ensures (var t := Next(cfg, s, WriteResp);
             t.submitted == s.submitted && t.rejected == s.rejected && (InProgress(t) ==> t.kernelId == s.kernelId)
                 && (!InProgress(t) ==> Completed(cfg, s, t)))
  {
    var _ := WriteRespForm(cfg, s);
    WriteRespKeeps(cfg, s);
  }

  lemma ReadRespEnds(cfg: Config, s: KernelOp.Op, id: nat)
    requires StateOk(cfg, s) && Enabled(s, ReadResp(id))
    ensures (var t := Next(cfg, s, ReadResp(id)); t.submitted == s.submitted && (t.phase.Idle? ==> Rejected(s, t)))
  {
    var b := ReadRespForm(cfg, s, id);
    if b.outstanding == 0 { ComputeEnds(cfg, b); }
  }

  lemma ComputeEnds(cfg: Config, b: KernelOp.Op)
    requires b.phase.Reading? && b.writeLog == [] && Word(b.args.dst)
    ensures (var t := Compute(cfg, b); t.submitted == b.submitted && (t.phase.Idle? ==> Rejected(b, t)))
  {
    var (out, _) := cfg.compute(b.args, b.inBuf);
    WritebackTask(cfg, b.(outBuf := out, override := 0));
  }

  lemma RetireEnds(cfg: Config, s: KernelOp.Op)
    requires s.phase.Reading? ==> s.writeLog == [] && Word(s.args.dst)
    requires !s.phase.Reading? ==> s.busyUntil == 0
    ensures (var t := RetireIfReady(cfg, s);
             t.submitted == s.submitted && (s.phase.Reading? && t.phase.Idle? ==> Rejected(s, t)))
  {
    if s.busyUntil != 0 && s.clk >= s.busyUntil { WritebackTask(cfg, s.(busyUntil := 0)); }
  }

  /** A run inside an operation ends it at most once, and its arguments and input never change. */
  lemma {:induction false} WithinEnds(cfg: Config, s: KernelOp.Op, steps: seq<Step>)
    requires StateOk(cfg, s) && InProgress(s) && Within(cfg, s, steps) && !Reach(cfg, s, steps).fatal
    ensures (var t := Reach(cfg, s, steps);
             && StateOk(cfg, t) && SameTask(s, t) && t.submitted == s.submitted
             && (InProgress(t) ==> t.kernelId == s.kernelId && t.rejected == s.rejected)
             && (!InProgress(t) ==> Ended(cfg, s, t)))
    decreases |steps|
  {
    if steps != [] {
      var n := Next(cfg, s, steps[0]);
      FatalStays(cfg, n, steps[1..]);
      StepKeeps(cfg, s, steps[0]);
      StepTask(cfg, s, steps[0]);
      StepEnds(cfg, s, steps[0]);
      if InProgress(n) { WithinEnds(cfg, n, steps[1..]); }
    }
  }

  /** Completed with the kernel's output in memory, or rejected with memory as it was; counted once either way. */
  ghost predicate Ended(cfg: Config, s: KernelOp.Op, t: KernelOp.Op) {
    || (t.kernelId == s.kernelId + 1 && t.rejected == s.rejected && t.outBuf == Result(cfg, s)
        && Tiled(t.args.dst, t.outBuf, t.writeLog, |t.outBuf|))
    || (t.rejected == s.rejected + 1 && t.kernelId == s.kernelId && t.writeLog == [])
  }

  lemma {:induction false} FatalStays(cfg: Config, s: KernelOp.Op, steps: seq<Step>)
    requires Within(cfg, s, steps) && !Reach(cfg, s, steps).fatal
    ensures !s.fatal
  {
  }

  /** What an operation started at `r` finds in memory, and what the kernel makes of it. */
  function Output(cfg: Config, r: KernelOp.Op, args: Args): seq<bv8> {
    cfg.compute(args, Bytes(Settled(r), args.src, cfg.inputBytes(args))).0
  }

  lemma StartFixesTask(cfg: Config, a: KernelOp.Op)
    requires a.phase.Idle? && a.busyUntil == 0 && ArgsOk(a.args)
    ensures (var s := StartDma(cfg, a);
             && s.fatal == a.fatal && s.kernelId == a.kernelId
             && (InProgress(s) ==>
                   && s.args == a.args && s.memory == Settled(a) && s.inBytes == cfg.inputBytes(a.args)
                   && s.rejected == a.rejected)
             && (!InProgress(s) ==> s.rejected == a.rejected + 1 && s.memory == a.memory && s.writeLog == a.writeLog))
  {
    var n := cfg.inputBytes(a.args);
    if n != 0 && DmaRangeOk(cfg, a.args.src, n) && DmaRangeOk(cfg, a.args.dst, 1) {
      BegunReads(cfg, a, n);
      IssueReadsKeeps(cfg, Begun(a, n));
    }
  }

  /** An accepted doorbell fixes the operation's task: its arguments, and memory as it is at that moment. */
  lemma RingFixesTask(cfg: Config, r: KernelOp.Op, args: Args, posted: bool)
    requires StateOk(cfg, r) && !r.fatal && r.phase.Idle? && ArgsOk(args)
    ensures (var s := Ring(cfg, r, args, posted);
             && !s.fatal && s.kernelId == r.kernelId
             && (InProgress(s) ==>
                   && s.args == args && s.memory == Settled(r) && s.inBytes == cfg.inputBytes(args)
                   && s.rejected == r.rejected)
             && (!InProgress(s) ==> s.rejected == r.rejected + 1 && s.memory == r.memory && s.writeLog == r.writeLog))
  {
    StartFixesTask(cfg, Rung(cfg, r, args, posted));
  }

  /** What operation `r -> t` leaves at address a. */
  predicate Leaves(cfg: Config, r: KernelOp.Op, args: Args, t: KernelOp.Op, a: nat) {
    var out := Output(cfg, r, args);
    if t.kernelId > r.kernelId
    then t.kernelId == r.kernelId + 1 && t.rejected == r.rejected
         && Settled(t)(a) == if args.dst <= a < args.dst + |out| then out[a - args.dst] else Settled(r)(a)
    else t.rejected == r.rejected + 1 && Settled(t)(a) == Settled(r)(a)
  }

  lemma OperationLeaves(cfg: Config, r: KernelOp.Op, args: Args, s: KernelOp.Op, t: KernelOp.Op, a: nat)
    requires s.args == args && s.memory == Settled(r) && s.inBytes == cfg.inputBytes(args)
    requires s.kernelId == r.kernelId && s.rejected == r.rejected && SameTask(s, t) && Ended(cfg, s, t)
    ensures Leaves(cfg, r, args, t, a)
  {
    if t.kernelId > r.kernelId { TiledStores(t.args.dst, t.outBuf, t.writeLog, |t.outBuf|, t.memory, a); }
  }

  /** In any run, however many operations came before: an operation that completes leaves memory with the kernel's
      output on the bytes memory held when its doorbell rang, at the destination, and everything else as it was then;
      one that is rejected leaves memory as it was. */
  lemma CompletionStoresResult(cfg: Config, s0: KernelOp.Op, earlier: seq<Step>, r: KernelOp.Op, args: Args,
                               posted: bool,
                               steps: seq<Step>, t: KernelOp.Op, a: nat)
    requires Init(s0) && Runs(cfg, s0, earlier) && r == After(cfg, s0, earlier) && !r.fatal && r.phase.Idle?
             && ArgsOk(args)
    requires Within(cfg, Ring(cfg, r, args, posted), steps) && t == Reach(cfg, Ring(cfg, r, args, posted), steps)
    requires !t.fatal && !InProgress(t)
    ensures Leaves(cfg, r, args, t, a)
  {
    KernelOpSafety(cfg, s0, earlier);
    var s := Ring(cfg, r, args, posted);
    RingFixesTask(cfg, r, args, posted);
    RingKeeps(cfg, r, args, posted);
    if InProgress(s) {
      WithinEnds(cfg, s, steps);
      OperationLeaves(cfg, r, args, s, t, a);
    }
  }

  // ---------------------------------------------------------------- the busy window

  /** Computed, and waiting out its busy window. */
  predicate Waiting(s: KernelOp.Op) { s.phase.Reading? && s.outstanding == 0 }

  function Ticks(cfg: Config, s: KernelOp.Op, n: nat): KernelOp.Op
    decreases n
  {
    if n == 0 then s else Ticks(cfg, Tick(cfg, s), n - 1)
  }

  /** How many ticks the window lasts: up to its end time; one tick if that has wrapped and is already behind the
      clock, or, if the clock itself wraps with that tick, up to the end time from zero. */
  function WindowTicks(s: KernelOp.Op): int {
    if s.busyUntil == 0 then 0
    else if s.clk < s.busyUntil then s.busyUntil - s.clk
    else if s.clk + 1 < WORD64 then 1
    else 1 + s.busyUntil
  }

  lemma WindowTick(cfg: Config, s: KernelOp.Op)
    requires StateOk(cfg, s) && Waiting(s) && s.busyUntil != 0
    ensures 0 < WindowTicks(s) <= WORD64
    ensures (var t := Tick(cfg, s);
             if WindowTicks(s) > 1 then t == s.(clk := t.clk) && t.clk < WORD64 && WindowTicks(t) == WindowTicks(s) - 1
             else t == BeginWriteback(cfg, s.(clk := t.clk, busyUntil := 0)) && !t.phase.Reading?)
  {
    var c := s.(clk := (s.clk + 1) % WORD64);
    WritebackTask(cfg, c.(busyUntil := 0));
  }

  /** The window lasts exactly that many ticks: the operation is in its busy window before, and has left it after. */
  lemma {:induction false} WindowLasts(cfg: Config, s: KernelOp.Op, n: nat)
    requires StateOk(cfg, s) && !s.fatal && Waiting(s) && s.busyUntil != 0 && n <= WindowTicks(s)
    ensures if n < WindowTicks(s) then Waiting(Ticks(cfg, s, n)) else !Ticks(cfg, s, n).phase.Reading?
    decreases n
  {
    if n > 0 {
      WindowTick(cfg, s);
      TickKeeps(cfg, s);
      if WindowTicks(s) > 1 { WindowLasts(cfg, Tick(cfg, s), n - 1); }
    }
  }

  /** With the idle value for its end time the operation never leaves the window. */
  lemma {:induction false} NoWindow(cfg: Config, s: KernelOp.Op, n: nat)
    requires Waiting(s) && s.busyUntil == 0
    ensures Waiting(Ticks(cfg, s, n)) && Ticks(cfg, s, n).busyUntil == 0
    decreases n
  {
    if n > 0 { NoWindow(cfg, Tick(cfg, s), n - 1); }
  }

  /** All input is in, and the kernel is about to be run on it. */
  ghost predicate Complete(cfg: Config, b: KernelOp.Op) {
    && b.phase.Reading? && ReadingOk(cfg, b) && b.writeLog == [] && b.outstanding == 0 && b.next == b.inBytes
       && Word(b.args.dst)
    && b.clk < WORD64 && b.busyUntil == 0 && CountsOk(b) && !b.fatal && Result(cfg, b) != []
  }

  /** Some number of ticks takes a computed operation out of its busy window, to writeback or rejection, if and only
      if clock plus latency is not a multiple of 2^64; an end time that wraps to anything else only shortens the
      window. */
  lemma WindowEndsIff(cfg: Config, b: KernelOp.Op)
    requires Complete(cfg, b) && Latency(cfg, b) > 0
    ensures (exists n: nat :: !Ticks(cfg, Compute(cfg, b), n).phase.Reading?) <==>
      (b.clk + Latency(cfg, b)) % WORD64 != 0
  {
    ComputeForm(cfg, b);
    ComputeKeeps(cfg, b);
    var t := Compute(cfg, b);
    if t.busyUntil != 0 {
      WindowTick(cfg, t);
      WindowLasts(cfg, t, WindowTicks(t));
    } else {
      forall n: nat ensures Ticks(cfg, t, n).phase.Reading? { NoWindow(cfg, t, n); }
    }
  }

  /** The guest's override comes before the kernel's own latency, and that before the device's. With none of them the
      operation is written back at once; otherwise, if the sum with the clock fits, it waits exactly that many ticks.
      An override serves one operation. */
  lemma WindowIsLatency(cfg: Config, b: KernelOp.Op, n: nat)
    requires Complete(cfg, b)
    ensures (var own := cfg.compute(b.args, Bytes(b.memory, b.args.src, b.inBytes)).1;
             var l := if b.override != 0 then b.override else if own != 0 then own else cfg.deviceLatency;
             var t := Compute(cfg, b);
             && t.override == 0 && (l == 0 ==> !t.phase.Reading?)
             && (l > 0 && b.clk + l < WORD64 && n <= l ==> (Ticks(cfg, t, n).phase.Reading? <==> n < l)))
  {
    ComputeForm(cfg, b);
    if Latency(cfg, b) == 0 {
      WrittenAtOnce(cfg, b);
    } else if b.clk + Latency(cfg, b) < WORD64 && n <= Latency(cfg, b) {
      ComputeKeeps(cfg, b);
      WindowLasts(cfg, Compute(cfg, b), n);
    }
  }

  lemma WrittenAtOnce(cfg: Config, b: KernelOp.Op)
    requires Complete(cfg, b) && Latency(cfg, b) == 0
    ensures Compute(cfg, b).override == 0 && !Compute(cfg, b).phase.Reading?
  {
    ComputeForm(cfg, b);
    var w := b.(outBuf := Result(cfg, b), override := 0);
    if DmaRangeOk(cfg, w.args.dst, |w.outBuf|) {
      IssueWritesKeeps(cfg, w.(phase := Writing, outstanding := 0, next := 0));
    }
  }

  // ---------------------------------------------------------------- a bound for every schedule

  /** A response, or a tick of the busy window: the steps that bring an operation nearer to its end. */
  predicate Useful(s: KernelOp.Op, step: Step) {
    step.ReadResp? || step.WriteResp? || (step.TickStep? && Waiting(s) && s.busyUntil != 0)
  }

  /** How many useful steps an operation can still take. */
  function Fuel(cfg: Config, s: KernelOp.Op): int {
    if s.phase.Writing? then Work(s)
    else if Waiting(s) then WindowTicks(s) + 2 * |s.outBuf| + 1
    else Work(s) + WORD64 + 2 * |Result(cfg, s)| + 1
  }

  /** Any step of an operation that goes on takes no fuel, and a useful one at least one. */
  predicate Burns(cfg: Config, s: KernelOp.Op, step: Step, t: KernelOp.Op) {
    InProgress(t) ==> 0 <= Fuel(cfg, t) <= Fuel(cfg, s) - (if Useful(s, step) then 1 else 0)
  }

  lemma ReadRespBurns(cfg: Config, s: KernelOp.Op, id: nat)
    requires StateOk(cfg, s) && Enabled(s, ReadResp(id)) && Result(cfg, s) != []
    ensures Burns(cfg, s, ReadResp(id), Next(cfg, s, ReadResp(id)))
  {
    var b := ReadRespForm(cfg, s, id);
    if b.outstanding == 0 { ComputeFuel(cfg, b); }
  }

  lemma ComputeFuel(cfg: Config, b: KernelOp.Op)
    requires b.phase.Reading? && ReadingOk(cfg, b) && b.writeLog == [] && b.outstanding == 0 && b.next == b.inBytes
             && Word(b.args.dst)
    requires b.clk < WORD64 && b.busyUntil == 0 && CountsOk(b) && Result(cfg, b) != []
    ensures (var t := Compute(cfg, b); InProgress(t) ==> 0 <= Fuel(cfg, t) <= WORD64 + 2 * |Result(cfg, b)| + 1)
  {
    ComputeForm(cfg, b);
    var w := b.(outBuf := Result(cfg, b), override := 0);
    WritebackTask(cfg, w);
    WritebackKeeps(cfg, w);
  }

  lemma RetireBurns(cfg: Config, s: KernelOp.Op)
    requires StateOk(cfg, s) && Waiting(s) && s.busyUntil != 0
    ensures (var t := BeginWriteback(cfg, s.(busyUntil := 0)); InProgress(t) ==> 0 <= Fuel(cfg, t) < Fuel(cfg, s))
  {
    WritebackTask(cfg, s.(busyUntil := 0));
    WindowTick(cfg, s);
    WritebackKeeps(cfg, s.(busyUntil := 0));
  }

  lemma TickBurns(cfg: Config, s: KernelOp.Op)
    requires StateOk(cfg, s) && InProgress(s) && !s.fatal
    ensures Burns(cfg, s, TickStep, Tick(cfg, s))
  {
    if Waiting(s) && s.busyUntil != 0 {
      WindowTick(cfg, s);
      var c := s.(clk := (s.clk + 1) % WORD64);
      if WindowTicks(s) == 1 {
        QuietKeeps(cfg, s, c);
        WritebackTask(cfg, c.(busyUntil := 0));
        WritebackKeeps(cfg, c.(busyUntil := 0));
      }
    }
  }

  lemma StepBurns(cfg: Config, s: KernelOp.Op, step: Step)
    requires StateOk(cfg, s) && InProgress(s) && Enabled(s, step) && Result(cfg, s) != [] && !Next(cfg, s, step).fatal
    ensures Burns(cfg, s, step, Next(cfg, s, step))
  {
    match step
    case ReadResp(id) => ReadRespBurns(cfg, s, id);
    case WriteResp => var _ := WriteRespForm(cfg, s);
    case TickStep => TickBurns(cfg, s);
    case Poll => if Waiting(s) && s.busyUntil != 0 { RetireBurns(cfg, s); }
    case RingStep(_, _) =>
    case Override(_) =>
    case GuestStore(_, _) =>
  }

  function CountUseful(cfg: Config, s: KernelOp.Op, steps: seq<Step>): nat
    requires Within(cfg, s, steps)
    decreases |steps|
  {
    if steps == [] then 0
    else (if Useful(s, steps[0]) then 1 else 0) + CountUseful(cfg, Next(cfg, s, steps[0]), steps[1..])
  }

  /** Whatever else happens in between and in whatever order, an operation takes no more responses and busy ticks than
      its fuel, of which every state in progress can tell the amount. */
  lemma {:induction false} EveryScheduleBounded(cfg: Config, s: KernelOp.Op, steps: seq<Step>)
    requires StateOk(cfg, s) && InProgress(s) && Within(cfg, s, steps) && !Reach(cfg, s, steps).fatal
             && Result(cfg, s) != []
    ensures CountUseful(cfg, s, steps)
              + (if InProgress(Reach(cfg, s, steps)) then Fuel(cfg, Reach(cfg, s, steps)) else 0) <= Fuel(cfg, s)
    decreases |steps|
  {
    if steps != [] {
      var n := Next(cfg, s, steps[0]);
      FatalStays(cfg, n, steps[1..]);
      StepKeeps(cfg, s, steps[0]);
      StepTask(cfg, s, steps[0]);
      StepBurns(cfg, s, steps[0]);
      if InProgress(n) { EveryScheduleBounded(cfg, n, steps[1..]); } else { FuelPositive(cfg, s); }
    }
  }

  lemma FuelPositive(cfg: Config, s: KernelOp.Op)
    requires StateOk(cfg, s) && InProgress(s)
    ensures Fuel(cfg, s) > 0
  {
    if Waiting(s) && s.busyUntil != 0 { WindowTick(cfg, s); }
  }

  // ---------------------------------------------------------------- when an operation ends

  /** Memory answers before the next tick: a response while one is due, a tick otherwise. */
  predicate Prompt(s: KernelOp.Op, step: Step) {
    Enabled(s, step) && if s.outstanding > 0 then step.ReadResp? || step.WriteResp? else step.TickStep?
  }

  /** Within n prompt steps, whichever response comes first each time, the count of ended operations reaches
      `goal`. */
  ghost predicate EndsWithin(cfg: Config, s: KernelOp.Op, n: nat, goal: nat)
    decreases n
  {
    || s.kernelId + s.rejected >= goal
    || (n > 0 && (exists step :: Prompt(s, step))
        && forall step {:trigger Prompt(s, step)} | Prompt(s, step) :: EndsWithin(cfg, Next(cfg, s, step), n - 1, goal))
  }

  /** The sum that the operation's end time comes from is the idle value. */
  predicate Wraps(cfg: Config, s: KernelOp.Op) {
    s.phase.Reading? && if s.outstanding == 0 then s.busyUntil == 0 else SumWraps(s.clk, Latency(cfg, s))
  }

  predicate SumWraps(clk: nat, latency: nat) { latency > 0 && (clk + latency) % WORD64 == 0 }

  lemma SameLatency(cfg: Config, s: KernelOp.Op, b: KernelOp.Op)
    requires SameTask(s, b) && b.override == s.override
    ensures Latency(cfg, b) == Latency(cfg, s) && Result(cfg, b) == Result(cfg, s)
  {
  }

  lemma PromptExists(cfg: Config, s: KernelOp.Op) returns (step: Step)
    requires StateOk(cfg, s) && InProgress(s) && !s.fatal
    ensures Prompt(s, step) && StepOk(step)
  {
    if s.outstanding == 0 {
      step := TickStep;
    } else if s.phase.Writing? {
      step := WriteResp;
    } else {
      var id :| id in s.reqs;
      assert ReqOk(s, id);
      step := ReadResp(id);
    }
  }

  lemma PromptNotFatal(cfg: Config, s: KernelOp.Op, step: Step)
    requires StateOk(cfg, s) && InProgress(s) && Prompt(s, step) && Result(cfg, s) != []
    ensures !Next(cfg, s, step).fatal && StepOk(step)
  {
    match step
    case ReadResp(id) =>
      var b := ReadRespForm(cfg, s, id);
      if b.outstanding == 0 { ComputeForm(cfg, b); }
    case WriteResp => var _ := WriteRespForm(cfg, s);
    case TickStep => TickKeeps(cfg, s);
  }

  /** A prompt step does not change whether the sum wraps, and an operation whose sum wraps goes on. */
  lemma WrapsKept(cfg: Config, s: KernelOp.Op, step: Step)
    requires StateOk(cfg, s) && InProgress(s) && Prompt(s, step) && Result(cfg, s) != []
    ensures (var t := Next(cfg, s, step);
             (InProgress(t) ==> Wraps(cfg, t) == Wraps(cfg, s)) && (!InProgress(t) ==> !Wraps(cfg, s)))
  {
    match step
    case ReadResp(id) => ReadRespWraps(cfg, s, id);
    case WriteResp => var _ := WriteRespForm(cfg, s);
    case TickStep => if Waiting(s) && s.busyUntil != 0 { WindowTick(cfg, s); }
  }

  lemma ReadRespWraps(cfg: Config, s: KernelOp.Op, id: nat)
    requires StateOk(cfg, s) && Enabled(s, ReadResp(id)) && s.outstanding > 0 && Result(cfg, s) != []
    ensures (var t := Next(cfg, s, ReadResp(id));
             (InProgress(t) ==> Wraps(cfg, t) == Wraps(cfg, s)) && (!InProgress(t) ==> !Wraps(cfg, s)))
  {
    var b := ReadRespForm(cfg, s, id);
    SameLatency(cfg, s, b);
    if b.outstanding == 0 { ComputeWraps(cfg, b); }
  }

  lemma ComputeWraps(cfg: Config, b: KernelOp.Op)
    requires b.phase.Reading? && ReadingOk(cfg, b) && b.writeLog == [] && b.outstanding == 0 && b.next == b.inBytes
             && Word(b.args.dst)
    requires b.clk < WORD64 && b.busyUntil == 0 && CountsOk(b) && Result(cfg, b) != []
    ensures (var t := Compute(cfg, b); var wraps := SumWraps(b.clk, Latency(cfg, b));
             (InProgress(t) ==> Wraps(cfg, t) == wraps) && (!InProgress(t) ==> !wraps))
  {
    ComputeForm(cfg, b);
    var w := b.(outBuf := Result(cfg, b), override := 0);
    WritebackTask(cfg, w);
    WritebackKeeps(cfg, w);
  }

  /** An operation in progress that a kernel with some output will finish. */
  ghost predicate Live(cfg: Config, s: KernelOp.Op) {
    StateOk(cfg, s) && InProgress(s) && !s.fatal && Result(cfg, s) != []
  }

  /** One more operation than have ended so far. */
  function Goal(s: KernelOp.Op): nat { s.kernelId + s.rejected + 1 }

  /** A prompt step goes on with the same arguments and the same sum, or ends the operation, whose sum then did not
      wrap. */
  ghost predicate PromptOk(cfg: Config, s: KernelOp.Op, t: KernelOp.Op) {
    if InProgress(t) then Live(cfg, t) && Goal(t) == Goal(s) && Wraps(cfg, t) == Wraps(cfg, s)
                          && (!Wraps(cfg, s) || s.outstanding > 0 ==> 0 <= Fuel(cfg, t) < Fuel(cfg, s))
    else Goal(t) == Goal(s) + 1 && !Wraps(cfg, s)
  }

  lemma PromptUseful(cfg: Config, s: KernelOp.Op, step: Step)
    requires StateOk(cfg, s) && InProgress(s) && Prompt(s, step) && (!Wraps(cfg, s) || s.outstanding > 0)
    ensures Useful(s, step)
  {
  }

  lemma PromptStep(cfg: Config, s: KernelOp.Op, step: Step)
    requires Live(cfg, s) && Prompt(s, step)
    ensures PromptOk(cfg, s, Next(cfg, s, step))
  {
    PromptNotFatal(cfg, s, step);
    StepKeeps(cfg, s, step);
    StepTask(cfg, s, step);
    StepEnds(cfg, s, step);
    StepBurns(cfg, s, step);
    WrapsKept(cfg, s, step);
    if !Wraps(cfg, s) || s.outstanding > 0 { PromptUseful(cfg, s, step); }
  }

  lemma {:induction false} EndsPromptly(cfg: Config, s: KernelOp.Op, n: nat, goal: nat)
    requires Live(cfg, s) && !Wraps(cfg, s) && n >= Fuel(cfg, s) && goal == Goal(s)
    ensures EndsWithin(cfg, s, n, goal)
    decreases n
  {
    FuelPositive(cfg, s);
    var any := PromptExists(cfg, s);
    var m: nat := n - 1;
    forall step | Prompt(s, step) ensures EndsWithin(cfg, Next(cfg, s, step), m, goal) {
      PromptStep(cfg, s, step);
      if InProgress(Next(cfg, s, step)) { EndsPromptly(cfg, Next(cfg, s, step), m, goal); }
    }
  }

  lemma {:induction false} NeverEnds(cfg: Config, s: KernelOp.Op, n: nat, goal: nat)
    requires Live(cfg, s) && Wraps(cfg, s) && goal == Goal(s)
    ensures !EndsWithin(cfg, s, n, goal)
    decreases n
  {
    if n > 0 {
      var step := PromptExists(cfg, s);
      PromptStep(cfg, s, step);
      NeverEnds(cfg, Next(cfg, s, step), n - 1, goal);
    }
  }

  /** From any state of any run with an operation in progress: the operation is completed or rejected within some
      number of responses and ticks if and only if clock plus latency does not wrap to zero; and then its fuel is
      enough. */
  lemma OperationEndsIff(cfg: Config, s0: KernelOp.Op, steps: seq<Step>, s: KernelOp.Op)
    requires Init(s0) && Runs(cfg, s0, steps) && s == After(cfg, s0, steps) && !s.fatal && InProgress(s)
             && Result(cfg, s) != []
    ensures (exists n: nat :: EndsWithin(cfg, s, n, Goal(s))) <==> !Wraps(cfg, s)
    ensures !Wraps(cfg, s) ==> Fuel(cfg, s) >= 0 && EndsWithin(cfg, s, Fuel(cfg, s), Goal(s))
  {
    KernelOpSafety(cfg, s0, steps);
    EndsIff(cfg, s);
  }

  lemma EndsIff(cfg: Config, s: KernelOp.Op)
    requires Live(cfg, s)
    ensures (exists n: nat :: EndsWithin(cfg, s, n, Goal(s))) <==> !Wraps(cfg, s)
    ensures !Wraps(cfg, s) ==> Fuel(cfg, s) >= 0 && EndsWithin(cfg, s, Fuel(cfg, s), Goal(s))
  {
    FuelPositive(cfg, s);
    if Wraps(cfg, s) {
      forall n: nat ensures !EndsWithin(cfg, s, n, Goal(s)) { NeverEnds(cfg, s, n, Goal(s)); }
    } else {
      var n: nat := Fuel(cfg, s);
      EndsPromptly(cfg, s, n, Goal(s));
      assert EndsWithin(cfg, s, n, Goal(s));
    }
  }

  // ---------------------------------------------------------------- every schedule

  /** Computed, with the idle value for its end time. */
  predicate Stuck(s: KernelOp.Op) { Waiting(s) && s.busyUntil == 0 }

  /** An operation computed with the idle end time: no step of any kind ever ends it. */
  lemma StuckStays(cfg: Config, s: KernelOp.Op, step: Step)
    requires StateOk(cfg, s) && Stuck(s) && Enabled(s, step)
    ensures (var t := Next(cfg, s, step); t.fatal || (Stuck(t) && t.kernelId == s.kernelId && t.rejected == s.rejected))
  {
    assert s.reqs == map[];
  }

  lemma {:induction false} StuckRun(cfg: Config, s: KernelOp.Op, steps: seq<Step>)
    requires StateOk(cfg, s) && Stuck(s) && Within(cfg, s, steps) && !Reach(cfg, s, steps).fatal
    ensures Stuck(Reach(cfg, s, steps))
    decreases |steps|
  {
    if steps != [] {
      var n := Next(cfg, s, steps[0]);
      FatalStays(cfg, n, steps[1..]);
      StuckStays(cfg, s, steps[0]);
      StepKeeps(cfg, s, steps[0]);
      StuckRun(cfg, n, steps[1..]);
    }
  }

  /** The read response that completes the input and runs the kernel. */
  predicate Computes(cfg: Config, s: KernelOp.Op, step: Step)
    requires Enabled(s, step)
  {
    step.ReadResp? && s.phase.Reading? && step.id < |s.readLog|
        && IssueReads(cfg, Answered(cfg, s, step.id)).outstanding == 0
  }

  /** In the run the kernel is computed at a clock and with a latency whose sum wraps to zero. */
  predicate ComputesWrapped(cfg: Config, s: KernelOp.Op, steps: seq<Step>)
    requires Within(cfg, s, steps)
    decreases |steps|
  {
    steps != [] && ((Computes(cfg, s, steps[0]) && SumWraps(s.clk, Latency(cfg, s)))
                    || ComputesWrapped(cfg, Next(cfg, s, steps[0]), steps[1..]))
  }

  /** A step leaves an operation stuck exactly if it computes with a sum that wraps. */
  lemma StepSticks(cfg: Config, s: KernelOp.Op, step: Step)
    requires StateOk(cfg, s) && InProgress(s) && !Stuck(s) && Enabled(s, step) && Result(cfg, s) != []
             && !Next(cfg, s, step).fatal
    ensures Stuck(Next(cfg, s, step)) <==> Computes(cfg, s, step) && SumWraps(s.clk, Latency(cfg, s))
  {
    match step
    case ReadResp(id) => ReadRespSticks(cfg, s, id);
    case WriteResp => var _ := WriteRespForm(cfg, s);
    case TickStep => if Waiting(s) { WindowTick(cfg, s); }
    case Poll => if Waiting(s) { WritebackTask(cfg, s.(busyUntil := 0)); }
    case RingStep(_, _) =>
    case Override(_) =>
    case GuestStore(_, _) =>
  }

  lemma ReadRespSticks(cfg: Config, s: KernelOp.Op, id: nat)
    requires StateOk(cfg, s) && Enabled(s, ReadResp(id)) && Result(cfg, s) != [] && !Next(cfg, s, ReadResp(id)).fatal
    ensures Stuck(Next(cfg, s, ReadResp(id))) <==> Computes(cfg, s, ReadResp(id)) && SumWraps(s.clk, Latency(cfg, s))
  {
    var b := ReadRespForm(cfg, s, id);
    SameLatency(cfg, s, b);
    if b.outstanding == 0 { ComputeSticks(cfg, b); }
  }

  lemma ComputeSticks(cfg: Config, b: KernelOp.Op)
    requires b.phase.Reading? && ReadingOk(cfg, b) && b.writeLog == [] && b.outstanding == 0 && b.next == b.inBytes
             && Word(b.args.dst)
    requires b.clk < WORD64 && Result(cfg, b) != []
    ensures Stuck(Compute(cfg, b)) <==> SumWraps(b.clk, Latency(cfg, b))
  {
    ComputeForm(cfg, b);
    WritebackTask(cfg, b.(outBuf := Result(cfg, b), override := 0));
  }

  /** A run inside an operation leaves it stuck exactly if it computes with a sum that wraps. */
  lemma {:induction false} RunSticksIff(cfg: Config, s: KernelOp.Op, steps: seq<Step>)
    requires StateOk(cfg, s) && InProgress(s) && !Stuck(s) && Within(cfg, s, steps) && !Reach(cfg, s, steps).fatal
             && Result(cfg, s) != []
    ensures Stuck(Reach(cfg, s, steps)) <==> ComputesWrapped(cfg, s, steps)
    decreases |steps|
  {
    if steps != [] {
      var n := Next(cfg, s, steps[0]);
      FatalStays(cfg, n, steps[1..]);
      StepKeeps(cfg, s, steps[0]);
      StepTask(cfg, s, steps[0]);
      StepSticks(cfg, s, steps[0]);
      if Stuck(n) { StuckRun(cfg, n, steps[1..]); } else if InProgress(n) { RunSticksIff(cfg, n, steps[1..]); }
    }
  }

  /** An operation in progress that is not stuck has a response due or a busy tick to go. */
  lemma UsefulExists(cfg: Config, s: KernelOp.Op) returns (step: Step)
    requires StateOk(cfg, s) && InProgress(s) && !s.fatal && !Stuck(s)
    ensures Enabled(s, step) && Useful(s, step)
  {
    step := PromptExists(cfg, s);
    PromptUseful(cfg, s, step);
  }

  /** No response is due and no busy tick is to go. */
  ghost predicate Exhausted(s: KernelOp.Op) {
    forall step {:trigger Useful(s, step)} :: Enabled(s, step) ==> !Useful(s, step)
  }

  /** Every schedule, from any state of any run with an operation in progress: once no response is due and no busy
      tick is to go, which takes at most its fuel of them, the operation has ended in one completion or rejection,
      unless it was computed at a clock and with a latency whose sum wraps to zero, and then it is stuck. */
  lemma EveryScheduleEnds(cfg: Config, s0: KernelOp.Op, earlier: seq<Step>, s: KernelOp.Op, steps: seq<Step>,
                          t: KernelOp.Op)
    requires Init(s0) && Runs(cfg, s0, earlier) && s == After(cfg, s0, earlier) && !s.fatal
    requires InProgress(s) && !Stuck(s) && Result(cfg, s) != []
    requires Within(cfg, s, steps) && t == Reach(cfg, s, steps) && !t.fatal && Exhausted(t)
    ensures CountUseful(cfg, s, steps) <= Fuel(cfg, s)
    ensures if ComputesWrapped(cfg, s, steps) then Stuck(t) && Goal(t) == Goal(s)
            else !InProgress(t) && Goal(t) == Goal(s) + 1
  {
    KernelOpSafety(cfg, s0, earlier);
    WithinEnds(cfg, s, steps);
    EveryScheduleBounded(cfg, s, steps);
    RunSticksIff(cfg, s, steps);
    if InProgress(t) {
      FuelPositive(cfg, t);
      if !Stuck(t) { var _ := UsefulExists(cfg, t); }
    }
  }

  // ---------------------------------------------------------------- a run that never ends

  lemma {:induction false} AnswerAll(cfg: Config, s: KernelOp.Op) returns (steps: seq<Step>)
    requires Live(cfg, s) && s.phase.Reading? && Wraps(cfg, s)
    ensures Runs(cfg, s, steps) && Live(cfg, After(cfg, s, steps)) && Stuck(After(cfg, s, steps))
    ensures forall i | 0 <= i < |steps| :: steps[i].ReadResp?
    decreases Fuel(cfg, s)
  {
    steps := [];
    if s.outstanding > 0 {
      var step := PromptExists(cfg, s);
      PromptStep(cfg, s, step);
      var rest := AnswerAll(cfg, Next(cfg, s, step));
      steps := [step] + rest;
      assert steps[1..] == rest;
    }
  }

  /** Tick once, set the latency override to 2^64 - 1, ring with arguments the kernel and the range accept, answer
      every read: the operation is computed and never ends. */
  lemma LargestLatencySticks(cfg: Config, s: KernelOp.Op, args: Args, posted: bool) returns (steps: seq<Step>)
    requires Init(s) && Accepts(cfg, args) && Output(cfg, s, args) != []
    ensures |steps| >= 3 && steps[..3] == [TickStep, Override(WORD64 - 1), RingStep(args, posted)]
    ensures forall i | 3 <= i < |steps| :: steps[i].ReadResp?
    ensures Runs(cfg, s, steps)
    ensures (var t := After(cfg, s, steps); !t.fatal && Stuck(t) && forall n: nat :: !EndsWithin(cfg, t, n, Goal(t)))
  {
    var a := Next(cfg, s, TickStep);
    var b := Next(cfg, a, Override(WORD64 - 1));
    var c := Next(cfg, b, RingStep(args, posted));
    RingStarts(cfg, b, args, posted);
    var rest := AnswerAll(cfg, c);
    steps := Joined(cfg, s, args, posted, rest);
    var t := After(cfg, s, steps);
    forall n: nat ensures !EndsWithin(cfg, t, n, Goal(t)) { NeverEnds(cfg, t, n, Goal(t)); }
  }

  /** Arguments that start an operation. */
  predicate Accepts(cfg: Config, args: Args) {
    && ArgsOk(args) && cfg.inputBytes(args) > 0
    && DmaRangeOk(cfg, args.src, cfg.inputBytes(args)) && DmaRangeOk(cfg, args.dst, 1)
  }

  lemma Joined(cfg: Config, s: KernelOp.Op, args: Args, posted: bool, rest: seq<Step>) returns (steps: seq<Step>)
    requires !s.fatal && Init(s) && ArgsOk(args)
    requires (var b := Next(cfg, Next(cfg, s, TickStep), Override(WORD64 - 1));
              Runs(cfg, Next(cfg, b, RingStep(args, posted)), rest))
    ensures steps == [TickStep, Override(WORD64 - 1), RingStep(args, posted)] + rest && Runs(cfg, s, steps)
    ensures (var b := Next(cfg, Next(cfg, s, TickStep), Override(WORD64 - 1));
             After(cfg, s, steps) == After(cfg, Next(cfg, b, RingStep(args, posted)), rest))
  {
    steps := [TickStep, Override(WORD64 - 1), RingStep(args, posted)] + rest;
    var s1, s2 := steps[1..], steps[1..][1..];
    assert s1[0] == Override(WORD64 - 1) && s2[0] == RingStep(args, posted) && s2[1..] == rest;
    var a := Next(cfg, s, TickStep);
    var b := Next(cfg, a, Override(WORD64 - 1));
    var c := Next(cfg, b, RingStep(args, posted));
    assert Runs(cfg, b, s2) && Runs(cfg, a, s1);
    assert After(cfg, s, steps) == After(cfg, a, s1) == After(cfg, b, s2) == After(cfg, c, rest);
  }

  lemma StartDoesRead(cfg: Config, a: KernelOp.Op)
    requires a.phase.Idle? && a.busyUntil == 0 && Accepts(cfg, a.args)
    ensures (var s := StartDma(cfg, a);
             s.phase.Reading? && s.clk == a.clk && s.override == a.override && s.outstanding > 0)
  {
    var n := cfg.inputBytes(a.args);
    BegunReads(cfg, a, n);
    IssueReadsKeeps(cfg, Begun(a, n));
  }

  lemma RingStarts(cfg: Config, r: KernelOp.Op, args: Args, posted: bool)
    requires StateOk(cfg, r) && !r.fatal && r.phase.Idle? && Accepts(cfg, args) && Output(cfg, r, args) != []
    requires r.clk == 1 && r.override == WORD64 - 1
    ensures (var s := Ring(cfg, r, args, posted); s.phase.Reading? && Live(cfg, s) && Wraps(cfg, s))
  {
    StartDoesRead(cfg, Rung(cfg, r, args, posted));
    RingFixesTask(cfg, r, args, posted);
    RingKeeps(cfg, r, args, posted);
  }

  /** A kernel that copies one byte: the smallest device with such a run. */
  const Echo: Config := Config(64, 0, 0, false, 0, (a: Args) => 1, (a: Args, input: seq<bv8>) => (input, 0))

  lemma EchoSticks() returns (s: KernelOp.Op, steps: seq<Step>)
    ensures Init(s) && Runs(Echo, s, steps) && !After(Echo, s, steps).fatal && Stuck(After(Echo, s, steps))
  {
    var args := Args(0, 64, 0, 0);
    s := KernelOp.Op(Idle, args, 0, [], [], 0, 0, map[], 0, 0, 0, false, 0, 0, 0, (a: nat) => 0, [], [], [], 0, 0,
                     false);
    assert |Bytes(Settled(s), 0, 1)| == 1;
    steps := LargestLatencySticks(Echo, s, args, true);
  }
}
