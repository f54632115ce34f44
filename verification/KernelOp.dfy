/** A kernel operation of the accelerator (src/quetz_gpu_device.cc): windowed DMA reads answered in any order,
    compute, a busy window, windowed DMA writes, one completion or rejection. */
module KernelOp {
  import opened LineMath
  import opened MemoryIssue

  const CHUNK: nat := 64
  const WINDOW: nat := 64
  const WORD64: nat := 0x1_0000_0000_0000_0000

  datatype Args = Args(src: nat, dst: nat, arg2: nat, arg3: nat)

  /** `inputBytes` is 0 when the kernel refuses the arguments; `compute` gives the output and the kernel's own
      latency. */
  datatype Config = Config(line: nat, rangeStart: nat, rangeEnd: nat, blocking: bool, deviceLatency: nat,
                           inputBytes: Args -> nat, compute: (Args, seq<bv8>) -> (seq<bv8>, nat))

  datatype Phase = Idle | Reading | Writing

  datatype Read = Read(addr: nat, len: nat)
  datatype Write = Write(addr: nat, data: seq<bv8>)

  /** `reqs` maps the id of an unanswered read to its offset. `memory` is memory as the last operation found it, and
      `writeLog` what has been written since, so that memory now is Settled. History: the reads of this operation,
      which read asked for each byte, and how many doorbell responses were owed and sent. */
  datatype Op = Op(phase: Phase, args: Args, inBytes: nat, inBuf: seq<bv8>, outBuf: seq<bv8>, outstanding: nat,
                   next: nat, reqs: map<nat, nat>, clk: nat, busyUntil: nat, override: nat, held: bool,
                   submitted: nat, kernelId: nat, rejected: nat,
                   memory: nat -> bv8, writeLog: seq<Write>, readLog: seq<Read>, owner: seq<nat>,
                   owed: nat, sent: nat, fatal: bool)

  function Bit(b: bool): nat { if b then 1 else 0 }

  predicate DmaRangeOk(cfg: Config, addr: nat, len: nat) {
    && MemorySpanValid(addr, len)
    && (cfg.rangeEnd == 0 || len == 0
        || (addr >= cfg.rangeStart && addr <= cfg.rangeEnd && len - 1 <= cfg.rangeEnd - addr))
  }

  function DmaChunk(cfg: Config, addr: nat, remaining: nat): (c: nat)
    ensures c <= remaining && c <= CHUNK && (remaining > 0 ==> c > 0)
  {
    Chunk(addr, if remaining < CHUNK then remaining else CHUNK, cfg.line)
  }

  function Release(s: Op): Op { if s.held then s.(held := false, sent := s.sent + 1) else s }

  function Reject(s: Op): Op { Release(s.(phase := Idle, busyUntil := 0, rejected := s.rejected + 1)) }

  function Finish(s: Op): Op { Release(s.(phase := Idle, kernelId := s.kernelId + 1)) }

  /** Memory after a list of writes. */
  function Stored(log: seq<Write>, memory: nat -> bv8, a: nat): bv8 {
    if log == [] then memory(a)
    else
      var w := log[|log| - 1];
      if w.addr <= a < w.addr + |w.data| then w.data[a - w.addr] else Stored(log[..|log| - 1], memory, a)
  }

  function Overlaid(log: seq<Write>, memory: nat -> bv8): nat -> bv8 { (a: nat) => Stored(log, memory, a) }

  /** Memory as it is now. */
  function Settled(s: Op): nat -> bv8 { Overlaid(s.writeLog, s.memory) }

  function IssueRead(cfg: Config, s: Op): Op
    requires s.next < s.inBytes
  {
    var n := DmaChunk(cfg, s.args.src + s.next, s.inBytes - s.next);
    var id := |s.readLog|;
    s.(readLog := s.readLog + [Read(s.args.src + s.next, n)], reqs := s.reqs[id := s.next], next := s.next + n,
       outstanding := s.outstanding + 1, owner := s.owner + seq(n, _ => id))
  }

  function IssueReads(cfg: Config, s: Op): Op
    decreases if s.next < s.inBytes then s.inBytes - s.next else 0
  {
    if s.next < s.inBytes && s.outstanding < WINDOW then IssueReads(cfg, IssueRead(cfg, s)) else s
  }

  function IssueWrite(cfg: Config, s: Op): Op
    requires s.next < |s.outBuf|
  {
    var n := DmaChunk(cfg, s.args.dst + s.next, |s.outBuf| - s.next);
    s.(writeLog := s.writeLog + [Write(s.args.dst + s.next, s.outBuf[s.next..s.next + n])], next := s.next + n,
       outstanding := s.outstanding + 1)
  }

  function IssueWrites(cfg: Config, s: Op): Op
    decreases if s.next < |s.outBuf| then |s.outBuf| - s.next else 0
  {
    if s.next < |s.outBuf| && s.outstanding < WINDOW then IssueWrites(cfg, IssueWrite(cfg, s)) else s
  }

  function StartDma(cfg: Config, s: Op): Op {
    var n := cfg.inputBytes(s.args);
    if n == 0 || !DmaRangeOk(cfg, s.args.src, n) || !DmaRangeOk(cfg, s.args.dst, 1) then Reject(s)
    else IssueReads(cfg, Begun(s, n))
  }

  /** An operation on n input bytes, nothing read yet; memory is what it is now. */
  function Begun(s: Op, n: nat): Op {
    s.(inBytes := n, inBuf := seq(n, _ => 0), outstanding := 0, next := 0, reqs := map[], phase := Reading,
       readLog := [], owner := [], memory := Settled(s), writeLog := [])
  }

  lemma BegunReads(cfg: Config, s: Op, n: nat)
    requires n > 0 && DmaRangeOk(cfg, s.args.src, n) && Word(s.args.src)
    ensures ReadingOk(cfg, Begun(s, n))
  {
  }

  /** A doorbell; ringing a busy device is fatal. */
  function Ring(cfg: Config, s: Op, args: Args, posted: bool): Op {
    if s.phase != Idle || s.busyUntil != 0 then s.(fatal := true)
    else
      var b := StartDma(cfg, Rung(cfg, s, args, posted));
      b.(sent := b.sent + Bit(!posted && !cfg.blocking))
  }

  /** The doorbell is counted and its arguments latched; a blocking one holds its response back. */
  function Rung(cfg: Config, s: Op, args: Args, posted: bool): Op {
    s.(held := s.held || (!posted && cfg.blocking), submitted := s.submitted + 1, args := args,
       owed := s.owed + Bit(!posted))
  }

  function BeginWriteback(cfg: Config, s: Op): Op {
    if !DmaRangeOk(cfg, s.args.dst, |s.outBuf|) then Reject(s)
    else IssueWrites(cfg, s.(phase := Writing, outstanding := 0, next := 0))
  }

  /** Guest override, then the kernel's opinion, then the device default. */
  function LatencyOf(cfg: Config, s: Op, kernelLatency: nat): nat {
    if s.override != 0 then s.override else if kernelLatency != 0 then kernelLatency else cfg.deviceLatency
  }

  function Compute(cfg: Config, s: Op): Op {
    var (out, kernelLatency) := cfg.compute(s.args, s.inBuf);
    if out == [] then s.(fatal := true)
    else
      var latency := LatencyOf(cfg, s, kernelLatency);
      var t := s.(outBuf := out, override := 0);
      if latency == 0 then BeginWriteback(cfg, t) else t.(busyUntil := (s.clk + latency) % WORD64)
  }

  /** The bytes at [addr, addr + n). */
  function Bytes(memory: nat -> bv8, addr: nat, n: nat): (r: seq<bv8>)
    ensures |r| == n && forall i {:trigger r[i]} | 0 <= i < n :: r[i] == memory(addr + i)
  {
    seq(n, i requires i >= 0 => memory(addr + i))
  }

  /** Copies a response into the buffer. */
  function Patch(buf: seq<bv8>, off: nat, data: seq<bv8>): (r: seq<bv8>)
    ensures |r| == |buf|
    ensures forall i {:trigger r[i]} | 0 <= i < |buf| ::
        r[i] == if off <= i < off + |data| then data[i - off] else buf[i]
  {
    seq(|buf|, i requires 0 <= i < |buf| => if off <= i < off + |data| then data[i - off] else buf[i])
  }

  /** One read answered. */
  function Answered(cfg: Config, s: Op, id: nat): Op
    requires id in s.reqs && id < |s.readLog|
  {
    s.(inBuf := Patch(s.inBuf, s.reqs[id], Bytes(s.memory, s.readLog[id].addr, s.readLog[id].len)),
       reqs := s.reqs - {id},
       outstanding := if s.outstanding > 0 then s.outstanding - 1 else 0)
  }

  function OnReadResp(cfg: Config, s: Op, id: nat): Op
    requires id in s.reqs && id < |s.readLog|
  {
    var b := IssueReads(cfg, Answered(cfg, s, id));
    if b.outstanding == 0 && b.next == b.inBytes then Compute(cfg, b) else b
  }

  function OnWriteResp(cfg: Config, s: Op): Op {
    if s.outstanding == 0 then s
    else
      var b := IssueWrites(cfg, s.(outstanding := s.outstanding - 1));
      if b.outstanding == 0 && b.next == |b.outBuf| then Finish(b) else b
  }

  /** The end of the busy window starts the writeback; ticks and status reads look for it. */
  function RetireIfReady(cfg: Config, s: Op): Op {
    if s.busyUntil == 0 || s.clk < s.busyUntil then s else BeginWriteback(cfg, s.(busyUntil := 0))
  }

  function Tick(cfg: Config, s: Op): Op { RetireIfReady(cfg, s.(clk := (s.clk + 1) % WORD64)) }

  datatype Step =
    | RingStep(args: Args, posted: bool)
    | ReadResp(id: nat)
    | WriteResp
    | TickStep
    | Poll
    | Override(value: nat)
    | GuestStore(addr: nat, data: seq<bv8>)

  predicate Enabled(s: Op, step: Step) {
    !s.fatal && match step {
                  case ReadResp(id) => s.phase.Reading? && id in s.reqs && id < |s.readLog|
                  case WriteResp => s.phase.Writing? && s.outstanding > 0
                  case RingStep(_, _) => true
                  case TickStep => true
                  case Poll => true
                  case Override(_) => true
                  case GuestStore(_, _) => s.phase.Idle?
                }
  }

  function Next(cfg: Config, s: Op, step: Step): Op
    requires Enabled(s, step)
  {
    match step
    case RingStep(args, posted) => Ring(cfg, s, args, posted)
    case ReadResp(id) => OnReadResp(cfg, s, id)
    case WriteResp => OnWriteResp(cfg, s)
    case TickStep => Tick(cfg, s)
    case Poll => RetireIfReady(cfg, s)
    case Override(value) => s.(override := value)
    case GuestStore(addr, data) => s.(writeLog := s.writeLog + [Write(addr, data)])
  }

  // ---------------------------------------------------------------- reading

  /** A request stays in the configured range, is nonempty, at most 64 bytes and inside one line. */
  predicate RequestOk(cfg: Config, addr: nat, len: nat) {
    Word(addr) && 0 < len <= CHUNK && Chunk(addr, len, cfg.line) == len && DmaRangeOk(cfg, addr, len)
  }

  predicate ReadOk(cfg: Config, s: Op, id: nat)
    requires id < |s.readLog|
  {
    var r := s.readLog[id];
    && RequestOk(cfg, r.addr, r.len) && r.addr <= s.args.src + s.inBytes
    && r.len == DmaChunk(cfg, r.addr, s.args.src + s.inBytes - r.addr)
  }

  /** An unanswered read: its offset, and its bytes inside the part asked for. */
  predicate ReqOk(s: Op, id: nat)
    requires id in s.reqs
  {
    id < |s.readLog| && s.readLog[id].addr == s.args.src + s.reqs[id] && s.reqs[id] + s.readLog[id].len <= s.next
  }

  /** A byte asked for either waits for its read or is memory's byte. */
  predicate ByteOk(cfg: Config, s: Op, i: nat)
    requires i < |s.owner| && i < |s.inBuf|
  {
    var id := s.owner[i];
    && id < |s.readLog|
    && (if id in s.reqs then s.reqs[id] <= i < s.reqs[id] + s.readLog[id].len
        else s.inBuf[i] == s.memory(s.args.src + i))
  }

  ghost predicate ReadingOk(cfg: Config, s: Op) {
    && s.next <= s.inBytes == |s.inBuf| && |s.owner| == s.next
    && s.outstanding == |s.reqs| <= WINDOW
    && DmaRangeOk(cfg, s.args.src, s.inBytes) && Word(s.args.src) && s.inBytes > 0
    && (forall id: nat {:trigger ReadOk(cfg, s, id)} | id < |s.readLog| :: ReadOk(cfg, s, id))
    && (forall id {:trigger ReqOk(s, id)} | id in s.reqs :: ReqOk(s, id))
    && (forall i: nat {:trigger ByteOk(cfg, s, i)} | i < s.next :: ByteOk(cfg, s, i))
  }

  lemma SubRange(cfg: Config, addr: nat, len: nat, off: nat, n: nat)
    requires Word(addr) && DmaRangeOk(cfg, addr, len) && 0 < n && off + n <= len
    ensures Word(addr + off) && DmaRangeOk(cfg, addr + off, n)
  {
  }

  lemma NewId(cfg: Config, s: Op)
    requires ReadingOk(cfg, s)
    ensures |s.readLog| !in s.reqs
  {
    assert |s.readLog| in s.reqs ==> ReqOk(s, |s.readLog|);
  }

  lemma IssueReadBytes(cfg: Config, s: Op, i: nat)
    requires ReadingOk(cfg, s) && s.next < s.inBytes && i < IssueRead(cfg, s).next
    ensures ByteOk(cfg, IssueRead(cfg, s), i)
  {
    NewId(cfg, s);
    if i < s.next { assert ByteOk(cfg, s, i); }
  }

  lemma IssueReadLogs(cfg: Config, s: Op)
    requires ReadingOk(cfg, s) && s.next < s.inBytes
    ensures (var t := IssueRead(cfg, s);
             && (forall x: nat {:trigger ReadOk(cfg, t, x)} | x < |t.readLog| :: ReadOk(cfg, t, x))
             && (forall x {:trigger ReqOk(t, x)} | x in t.reqs :: ReqOk(t, x)))
  {
    var t, id := IssueRead(cfg, s), |s.readLog|;
    ChunkFits(s.args.src + s.next, if s.inBytes - s.next < CHUNK then s.inBytes - s.next else CHUNK, cfg.line);
    SubRange(cfg, s.args.src, s.inBytes, s.next, t.next - s.next);
    forall x: nat | x < |t.readLog| ensures ReadOk(cfg, t, x) { if x < id { assert ReadOk(cfg, s, x); } }
    forall x | x in t.reqs ensures ReqOk(t, x) { if x != id { assert ReqOk(s, x); } }
  }

  lemma IssueReadKeeps(cfg: Config, s: Op)
    requires ReadingOk(cfg, s) && s.next < s.inBytes && s.outstanding < WINDOW
    ensures ReadingOk(cfg, IssueRead(cfg, s))
  {
    var t := IssueRead(cfg, s);
    NewId(cfg, s);
    IssueReadLogs(cfg, s);
    forall i: nat | i < t.next ensures ByteOk(cfg, t, i) { IssueReadBytes(cfg, s, i); }
  }

  /** What issuing leaves alone. */
  ghost predicate SameOp(s: Op, t: Op) {
    && t.phase == s.phase && t.args == s.args && t.clk == s.clk && t.busyUntil == s.busyUntil
       && t.override == s.override
    && t.held == s.held && t.submitted == s.submitted && t.kernelId == s.kernelId && t.rejected == s.rejected
    && t.memory == s.memory && t.owed == s.owed && t.sent == s.sent && t.fatal == s.fatal
  }

  /** The read window: filled up to 64 or to the end of the input. */
  lemma {:induction false} IssueReadsKeeps(cfg: Config, s: Op)
    requires ReadingOk(cfg, s)
    ensures (var t := IssueReads(cfg, s);
             && ReadingOk(cfg, t) && SameOp(s, t) && t.inBytes == s.inBytes && t.writeLog == s.writeLog
             && (t.outstanding == WINDOW || t.next == t.inBytes)
             && t.outstanding >= s.outstanding
                && (s.next < s.inBytes && s.outstanding < WINDOW ==> t.outstanding > s.outstanding)
             && 2 * (t.inBytes - t.next) + t.outstanding <= 2 * (s.inBytes - s.next) + s.outstanding)
    decreases s.inBytes - s.next
  {
    if s.next < s.inBytes && s.outstanding < WINDOW {
      IssueReadKeeps(cfg, s);
      IssueReadsKeeps(cfg, IssueRead(cfg, s));
    }
  }

  /** An answered read puts memory's bytes in its place, whatever order the answers come in. */
  lemma AnsweredByte(cfg: Config, s: Op, id: nat, i: nat)
    requires ReadingOk(cfg, s) && id in s.reqs && id < |s.readLog| && i < s.next
    ensures ByteOk(cfg, Answered(cfg, s, id), i)
  {
    var a, off := Answered(cfg, s, id), s.reqs[id];
    assert ByteOk(cfg, s, i) && ReqOk(s, id);
    if off <= i < off + s.readLog[id].len {
      assert a.inBuf[i] == Bytes(s.memory, s.readLog[id].addr, s.readLog[id].len)[i - off]
               == s.memory(s.readLog[id].addr + (i - off));
      assert s.readLog[id].addr + (i - off) == s.args.src + i;
    }
  }

  lemma AnsweredKeeps(cfg: Config, s: Op, id: nat)
    requires ReadingOk(cfg, s) && id in s.reqs && id < |s.readLog|
    ensures ReadingOk(cfg, Answered(cfg, s, id)) && Answered(cfg, s, id).outstanding == s.outstanding - 1
  {
    var a := Answered(cfg, s, id);
    assert |s.reqs - {id}| == |s.reqs| - 1 by { assert (s.reqs - {id}).Keys == s.reqs.Keys - {id}; }
    forall x: nat | x < |a.readLog| ensures ReadOk(cfg, a, x) { assert ReadOk(cfg, s, x); }
    forall x | x in a.reqs ensures ReqOk(a, x) { assert ReqOk(s, x); }
    forall i: nat | i < a.next ensures ByteOk(cfg, a, i) { AnsweredByte(cfg, s, id, i); }
  }

  /** With nothing unanswered and nothing left to ask for, the input buffer is memory at [src, src + n). */
  lemma ReadComplete(cfg: Config, s: Op)
    requires ReadingOk(cfg, s) && s.outstanding == 0 && s.next == s.inBytes
    ensures s.inBuf == Bytes(s.memory, s.args.src, s.inBytes)
  {
    assert s.reqs == map[];
    forall i: nat | i < s.inBytes ensures s.inBuf[i] == s.memory(s.args.src + i) { assert ByteOk(cfg, s, i); }
  }

  // ---------------------------------------------------------------- writing

  /** The writes so far carry the output from its start, in order and without gap. */
  predicate Tiled(dst: nat, out: seq<bv8>, log: seq<Write>, upTo: nat) {
    if log == [] then upTo == 0
    else
      var w := log[|log| - 1];
      && 0 < |w.data| <= upTo <= |out| && w.addr == dst + (upTo - |w.data|) && w.data == out[upTo - |w.data|..upTo]
      && Tiled(dst, out, log[..|log| - 1], upTo - |w.data|)
  }

  predicate WriteOk(cfg: Config, s: Op, k: nat)
    requires k < |s.writeLog|
  {
    var w := s.writeLog[k];
    && RequestOk(cfg, w.addr, |w.data|) && w.addr <= s.args.dst + |s.outBuf|
    && |w.data| == DmaChunk(cfg, w.addr, s.args.dst + |s.outBuf| - w.addr)
  }

  ghost predicate WritingOk(cfg: Config, s: Op) {
    && s.next <= |s.outBuf| && s.outstanding <= WINDOW && s.outstanding <= |s.writeLog|
    && Tiled(s.args.dst, s.outBuf, s.writeLog, s.next)
    && DmaRangeOk(cfg, s.args.dst, |s.outBuf|) && Word(s.args.dst)
    && (forall k: nat {:trigger WriteOk(cfg, s, k)} | k < |s.writeLog| :: WriteOk(cfg, s, k))
  }

  lemma IssueWriteKeeps(cfg: Config, s: Op)
    requires WritingOk(cfg, s) && s.next < |s.outBuf| && s.outstanding < WINDOW
    ensures WritingOk(cfg, IssueWrite(cfg, s))
  {
    var t, k := IssueWrite(cfg, s), |s.writeLog|;
    assert t.writeLog[..k] == s.writeLog;
    ChunkFits(s.args.dst + s.next, if |s.outBuf| - s.next < CHUNK then |s.outBuf| - s.next else CHUNK, cfg.line);
    SubRange(cfg, s.args.dst, |s.outBuf|, s.next, t.next - s.next);
    forall x: nat | x < |t.writeLog| ensures WriteOk(cfg, t, x) { if x < k { assert WriteOk(cfg, s, x); } }
  }

  lemma {:induction false} IssueWritesKeeps(cfg: Config, s: Op)
    requires WritingOk(cfg, s)
    ensures (var t := IssueWrites(cfg, s);
             && WritingOk(cfg, t) && SameOp(s, t) && t.outBuf == s.outBuf && t.inBuf == s.inBuf
                && t.inBytes == s.inBytes
             && (t.outstanding == WINDOW || t.next == |t.outBuf|)
             && t.outstanding >= s.outstanding
                && (s.next < |s.outBuf| && s.outstanding < WINDOW ==> t.outstanding > s.outstanding)
             && 2 * (|t.outBuf| - t.next) + t.outstanding <= 2 * (|s.outBuf| - s.next) + s.outstanding)
    decreases |s.outBuf| - s.next
  {
    if s.next < |s.outBuf| && s.outstanding < WINDOW {
      IssueWriteKeeps(cfg, s);
      IssueWritesKeeps(cfg, IssueWrite(cfg, s));
    }
  }

  // ---------------------------------------------------------------- the whole operation

  /** What the kernel is meant to produce: its output on memory's bytes. */
  function Result(cfg: Config, s: Op): seq<bv8> { cfg.compute(s.args, Bytes(s.memory, s.args.src, s.inBytes)).0 }

  predicate CountsOk(s: Op) {
    && s.submitted == s.kernelId + s.rejected + Bit(s.phase != Idle)
    && s.owed == s.sent + Bit(s.held) && (s.held ==> s.phase != Idle)
  }

  /** Reading goes on until every byte is in; then, computed, the operation waits out its busy window. */
  ghost predicate InputOk(cfg: Config, s: Op) {
    && ReadingOk(cfg, s) && s.writeLog == [] && Word(s.args.dst) && (s.outstanding == WINDOW || s.next == s.inBytes)
    && (if s.outstanding == 0 then s.next == s.inBytes && s.outBuf == Result(cfg, s) != [] else s.busyUntil == 0)
  }

  ghost predicate OutputOk(cfg: Config, s: Op) {
    && WritingOk(cfg, s) && s.outBuf == Result(cfg, s) != [] && s.busyUntil == 0 && s.outstanding > 0
    && (s.outstanding == WINDOW || s.next == |s.outBuf|)
  }

  ghost predicate StateOk(cfg: Config, s: Op) {
    && CountsOk(s) && s.clk < WORD64 && s.busyUntil < WORD64
    && match s.phase {
         case Idle => s.busyUntil == 0
         case Reading => InputOk(cfg, s)
         case Writing => OutputOk(cfg, s)
       }
  }

  /** Guest registers are 64-bit. */
  predicate ArgsOk(a: Args) { Word(a.src) && Word(a.dst) }

  /** `extra` responses are owed and go out right after the start. */
  predicate Starting(s: Op, extra: nat) {
    && s.phase.Idle? && s.busyUntil == 0 && s.clk < WORD64 && s.submitted == s.kernelId + s.rejected + 1
       && ArgsOk(s.args)
    && s.owed == s.sent + Bit(s.held) + extra
  }

  ghost predicate Started(cfg: Config, s: Op, t: Op, extra: nat) {
    StateOk(cfg, t.(sent := t.sent + extra)) && t.fatal == s.fatal && t.kernelId == s.kernelId
        && t.submitted == s.submitted
  }

  lemma RejectKeeps(cfg: Config, s: Op, extra: nat)
    requires Starting(s, extra)
    ensures Started(cfg, s, Reject(s), extra)
  {
  }

  lemma BeginKeeps(cfg: Config, s: Op, n: nat, extra: nat)
    requires Starting(s, extra) && n > 0 && DmaRangeOk(cfg, s.args.src, n)
    ensures Started(cfg, s, IssueReads(cfg, Begun(s, n)), extra)
  {
    BegunReads(cfg, s, n);
    IssueReadsKeeps(cfg, Begun(s, n));
    var t := IssueReads(cfg, Begun(s, n));
    SameReading(cfg, t, t.(sent := t.sent + extra));
  }

  lemma StartKeeps(cfg: Config, s: Op, extra: nat)
    requires Starting(s, extra)
    ensures Started(cfg, s, StartDma(cfg, s), extra)
  {
    var n := cfg.inputBytes(s.args);
    if n == 0 || !DmaRangeOk(cfg, s.args.src, n) || !DmaRangeOk(cfg, s.args.dst, 1) { RejectKeeps(cfg, s, extra); }
    else { BeginKeeps(cfg, s, n, extra); }
  }

  lemma WritebackKeeps(cfg: Config, s: Op)
    requires CountsOk(s) && s.clk < WORD64 && s.phase != Idle && s.busyUntil == 0 && s.writeLog == []
             && Word(s.args.dst) && s.outBuf == Result(cfg, s) != []
    ensures StateOk(cfg, BeginWriteback(cfg, s)) && BeginWriteback(cfg, s).fatal == s.fatal
            && BeginWriteback(cfg, s).kernelId == s.kernelId
  {
    if DmaRangeOk(cfg, s.args.dst, |s.outBuf|) {
      IssueWritesKeeps(cfg, s.(phase := Writing, outstanding := 0, next := 0));
    }
  }

  lemma ComputeKeeps(cfg: Config, s: Op)
    requires CountsOk(s) && s.clk < WORD64 && s.phase.Reading? && ReadingOk(cfg, s) && s.writeLog == []
             && Word(s.args.dst) && s.busyUntil == 0
    requires s.outstanding == 0 && s.next == s.inBytes
    ensures (var t := Compute(cfg, s); !t.fatal ==> StateOk(cfg, t) && t.kernelId == s.kernelId)
  {
    ReadComplete(cfg, s);
    var (out, kernelLatency) := cfg.compute(s.args, s.inBuf);
    var t := s.(outBuf := out, override := 0);
    if out != [] {
      if LatencyOf(cfg, s, kernelLatency) == 0 {
        WritebackKeeps(cfg, t);
      } else {
        SameReading(cfg, s, Compute(cfg, s));
      }
    }
  }

  /** ReadingOk does not look at anything the busy window changes. */
  lemma SameReading(cfg: Config, s: Op, t: Op)
    requires ReadingOk(cfg, s)
    requires t.phase.Reading? ==>
               && t.args == s.args && t.inBytes == s.inBytes && t.inBuf == s.inBuf && t.next == s.next
                  && t.outstanding == s.outstanding
               && t.reqs == s.reqs && t.readLog == s.readLog && t.owner == s.owner && t.memory == s.memory
    ensures t.phase.Reading? ==> ReadingOk(cfg, t)
  {
    if t.phase.Reading? {
      forall x: nat | x < |t.readLog| ensures ReadOk(cfg, t, x) { assert ReadOk(cfg, s, x); }
      forall x | x in t.reqs ensures ReqOk(t, x) { assert ReqOk(s, x); }
      forall i: nat | i < t.next ensures ByteOk(cfg, t, i) { assert ByteOk(cfg, s, i); }
    }
  }

  lemma ReadRespKeeps(cfg: Config, s: Op, id: nat)
    requires StateOk(cfg, s) && Enabled(s, ReadResp(id))
    ensures (var t := OnReadResp(cfg, s, id); !t.fatal ==> StateOk(cfg, t) && t.kernelId == s.kernelId)
  {
    assert ReqOk(s, id);
    AnsweredKeeps(cfg, s, id);
    IssueReadsKeeps(cfg, Answered(cfg, s, id));
    var b := IssueReads(cfg, Answered(cfg, s, id));
    if b.outstanding == 0 && b.next == b.inBytes { ComputeKeeps(cfg, b); }
  }

  lemma WriteRespKeeps(cfg: Config, s: Op)
    requires StateOk(cfg, s) && Enabled(s, WriteResp)
    ensures (var t := OnWriteResp(cfg, s);
             && StateOk(cfg, t) && !t.fatal
             && (t.kernelId == s.kernelId || Completed(cfg, s, t)))
  {
    var a := s.(outstanding := s.outstanding - 1);
    forall k: nat | k < |a.writeLog| ensures WriteOk(cfg, a, k) { assert WriteOk(cfg, s, k); }
    IssueWritesKeeps(cfg, a);
  }

  /** A completion: one more kernel, one response if one was held, and the writes of the operation are exactly the
      kernel's output on memory's bytes, once each, at [dst, dst + m). */
  predicate Completed(cfg: Config, s: Op, t: Op) {
    && t.kernelId == s.kernelId + 1 && t.phase.Idle? && !t.held && t.sent == s.sent + Bit(s.held)
       && t.rejected == s.rejected
    && t.args == s.args && t.outBuf == Result(cfg, t) && Tiled(t.args.dst, t.outBuf, t.writeLog, |t.outBuf|)
  }

  lemma RingKeeps(cfg: Config, s: Op, args: Args, posted: bool)
    requires StateOk(cfg, s) && !s.fatal && ArgsOk(args)
    ensures (var t := Ring(cfg, s, args, posted);
             !t.fatal ==> StateOk(cfg, t) && t.kernelId == s.kernelId && t.submitted == s.submitted + 1)
  {
    if s.phase == Idle && s.busyUntil == 0 {
      StartKeeps(cfg, Rung(cfg, s, args, posted), Bit(!posted && !cfg.blocking));
    }
  }

  lemma RetireKeeps(cfg: Config, s: Op)
    requires StateOk(cfg, s) && !s.fatal
    ensures (var t := RetireIfReady(cfg, s); StateOk(cfg, t) && !t.fatal && t.kernelId == s.kernelId)
  {
    if s.busyUntil != 0 && s.clk >= s.busyUntil { WritebackKeeps(cfg, s.(busyUntil := 0)); }
  }

  lemma TickKeeps(cfg: Config, s: Op)
    requires StateOk(cfg, s) && !s.fatal
    ensures (var t := Tick(cfg, s); StateOk(cfg, t) && !t.fatal && t.kernelId == s.kernelId)
  {
    var t := s.(clk := (s.clk + 1) % WORD64);
    QuietKeeps(cfg, s, t);
    RetireKeeps(cfg, t);
  }

  /** The clock and the override register matter to nothing else. */
  lemma QuietKeeps(cfg: Config, s: Op, t: Op)
    requires StateOk(cfg, s) && t == s.(clk := t.clk, override := t.override) && t.clk < WORD64
    ensures StateOk(cfg, t)
  {
    if s.phase.Reading? { SameReading(cfg, s, t); }
    if s.phase.Writing? {
      forall k: nat | k < |t.writeLog| ensures WriteOk(cfg, t, k) { assert WriteOk(cfg, s, k); }
    }
  }

  predicate StepOk(step: Step) { step.RingStep? ==> ArgsOk(step.args) }

  lemma StepKeeps(cfg: Config, s: Op, step: Step)
    requires StateOk(cfg, s) && Enabled(s, step) && StepOk(step)
    ensures (var t := Next(cfg, s, step);
             !t.fatal ==> StateOk(cfg, t) && (t.kernelId == s.kernelId || (step.WriteResp? && Completed(cfg, s, t))))
  {
    match step
    case RingStep(args, posted) => RingKeeps(cfg, s, args, posted);
    case ReadResp(id) => ReadRespKeeps(cfg, s, id);
    case WriteResp => WriteRespKeeps(cfg, s);
    case TickStep => TickKeeps(cfg, s);
    case Poll => RetireKeeps(cfg, s);
    case Override(value) => QuietKeeps(cfg, s, s.(override := value));
    case GuestStore(addr, data) =>
  }

  // ---------------------------------------------------------------- whole runs

  predicate Init(s: Op) {
    s.phase.Idle? && s.clk == s.busyUntil == 0 && !s.held && !s.fatal
        && s.submitted == s.kernelId == s.rejected == s.owed == s.sent == 0
  }

  predicate Runs(cfg: Config, s: Op, steps: seq<Step>)
    decreases |steps|
  {
    steps == [] || (Enabled(s, steps[0]) && StepOk(steps[0]) && Runs(cfg, Next(cfg, s, steps[0]), steps[1..]))
  }

  function After(cfg: Config, s: Op, steps: seq<Step>): Op
    requires Runs(cfg, s, steps)
    decreases |steps|
  {
    if steps == [] then s else After(cfg, Next(cfg, s, steps[0]), steps[1..])
  }

  /** In every run, for every order of responses: at most 64 requests are out, each nonempty, inside one line and
      inside the configured range; submits are completions plus rejections plus the one in progress; and a doorbell
      that expects a response has had exactly one, or is the one being held. */
  lemma {:induction false} KernelOpSafety(cfg: Config, s: Op, steps: seq<Step>)
    requires (StateOk(cfg, s) || s.fatal) && Runs(cfg, s, steps)
    ensures (var t := After(cfg, s, steps);
             !t.fatal ==> StateOk(cfg, t) && (t.phase != Idle ==> t.outstanding <= WINDOW))
    decreases |steps|
  {
    if steps != [] {
      if !s.fatal { StepKeeps(cfg, s, steps[0]); }
      KernelOpSafety(cfg, Next(cfg, s, steps[0]), steps[1..]);
    }
  }

  lemma {:induction false} TiledStores(dst: nat, out: seq<bv8>, log: seq<Write>, upTo: nat, memory: nat -> bv8, a: nat)
    requires Tiled(dst, out, log, upTo) && upTo <= |out|
    ensures Stored(log, memory, a) == if dst <= a < dst + upTo then out[a - dst] else memory(a)
    decreases |log|
  {
    if log != [] {
      var w := log[|log| - 1];
      TiledStores(dst, out, log[..|log| - 1], upTo - |w.data|, memory, a);
    }
  }

  // ---------------------------------------------------------------- the device as an object

  /** The state is one record; the issue windows and the copy are the loops of the source. */
  class KernelDevice {
    const cfg: Config
    var s: Op

    constructor (config: Config, start: Op)
      requires Init(start)
      ensures cfg == config && s == start
    {
      cfg, s := config, start;
    }

    method IssueReadWindow()
      modifies this
      ensures s == IssueReads(cfg, old(s))
    {
      ghost var goal := IssueReads(cfg, s);
      while s.next < s.inBytes && s.outstanding < WINDOW
        invariant IssueReads(cfg, s) == goal
        decreases if s.next < s.inBytes then s.inBytes - s.next else 0
      {
        s := IssueRead(cfg, s);
      }
    }

    method IssueWriteWindow()
      modifies this
      ensures s == IssueWrites(cfg, old(s))
    {
      ghost var goal := IssueWrites(cfg, s);
      while s.next < |s.outBuf| && s.outstanding < WINDOW
        invariant IssueWrites(cfg, s) == goal
        decreases if s.next < |s.outBuf| then |s.outBuf| - s.next else 0
      {
        s := IssueWrite(cfg, s);
      }
    }

    /** Byte by byte, never past the end of the buffer. */
    method CopyIn(buf: seq<bv8>, off: nat, data: seq<bv8>) returns (r: seq<bv8>)
      ensures r == Patch(buf, off, data)
    {
      r := buf;
      var i := 0;
      while i < |data| && off + i < |buf|
        invariant 0 <= i <= |data| && r == Patch(buf, off, data[..i])
      {
        r := r[off + i := data[i]];
        i := i + 1;
      }
    }

    /** A read response carrying memory's bytes. */
    method OnReadResponse(id: nat, data: seq<bv8>)
      requires StateOk(cfg, s) && Enabled(s, ReadResp(id))
               && data == Bytes(s.memory, s.readLog[id].addr, s.readLog[id].len)
      modifies this
      ensures s == OnReadResp(cfg, old(s), id) && (!s.fatal ==> StateOk(cfg, s))
    {
      ReadRespKeeps(cfg, s, id);
      assert ReqOk(s, id);
      var buf := CopyIn(s.inBuf, s.reqs[id], data);
      s := s.(inBuf := buf, reqs := s.reqs - {id}, outstanding := s.outstanding - 1);
      assert s == Answered(cfg, old(s), id);
      IssueReadWindow();
      if s.outstanding == 0 && s.next == s.inBytes { s := Compute(cfg, s); }
    }

    method OnWriteResponse()
      requires StateOk(cfg, s) && Enabled(s, WriteResp)
      modifies this
      ensures s == OnWriteResp(cfg, old(s)) && StateOk(cfg, s)
    {
      WriteRespKeeps(cfg, s);
      s := s.(outstanding := s.outstanding - 1);
      IssueWriteWindow();
      if s.outstanding == 0 && s.next == |s.outBuf| { s := Finish(s); }
    }
  }
}
