/** The accelerator port (src/quetz_balar_accelerator_port.cc): arm a doorbell, wait for the drain, flush the
    packet, forward or queue, acknowledge, retire. Every handler is a function from state to state. */
module AcceleratorPort {
  import opened LineMath
  import opened FlushRange

  const WORD32: nat := 0x1_0000_0000

  datatype Option<T> = None | Some(value: T)

  /** `value` is the packet address it carries. The rest is history: the submit ticket, how many commands its
      vCPU had put on the ring when it rang, whether it waits for drain and flush, and its flush ids [lo, hi). */
  datatype Doorbell = Doorbell(value: nat, isAsync: bool, ticket: nat, mark: nat, gated: bool, lo: nat, hi: nat)

  datatype FlushCtx = FlushCtx(remaining: nat, bell: Doorbell)

  datatype Request =
    | Ring(value: nat)              // write to the doorbell aperture
    | ReadDevice                    // read of the doorbell aperture
    | AsyncRead(off: nat)
    | AsyncWrite(off: nat, value: nat)
    | Elsewhere                     // any synchronous access another part of the simulator answers

  /** A published request and the ring position it was published at. */
  datatype Mail = Mail(request: Request, mark: nat)

  /** Everything kept for one vCPU. `waiting` is the guest thread blocked in the mailbox; `syncId` and `asyncId`
      are the device requests of its call and of its posted operation; `flushIds` its unanswered flushes;
      `sent` the tickets that reached the device and `acked` how many submits were acknowledged. */
  datatype Lane = Lane(waiting: bool, mail: Option<Mail>, elsewhere: bool, armed: Option<Doorbell>,
                       flushing: Option<FlushCtx>, flushIds: set<nat>, syncId: Option<nat>, asyncId: Option<nat>,
                       busy: bool, queue: seq<Doorbell>, submitted: nat, completed: nat, result: nat,
                       sent: seq<nat>, acked: nat)

  /** Why a run stops. The first five would be faults of the port; the rest are refusals. */
  datatype Fatal =
    | NestedArmed | NestedFlush | NestedSubmit | StrayFlush | StrayResponse
    | DepthExceeded | SecondVcpu | SubmitUnsupported | BadFlushRange | TooManyLines

  predicate PortFault(f: Option<Fatal>) {
    f.Some? && f.value in {NestedArmed, NestedFlush, NestedSubmit, StrayFlush, StrayResponse}
  }

  datatype Config = Config(doorbellAddr: nat, flushEnabled: bool, flushBytes: nat, line: nat, depth: nat,
                           hasMem: nat -> bool)

  predicate ConfigOk(cfg: Config) { Word(cfg.flushBytes) && Word(cfg.line) && 0 < cfg.depth < WORD32 }

  /** A request sent to the device. */
  datatype Sent = SentRead | SentBell(bell: Doorbell)

  /** What handling something does: the lane, at most one device request, the lines flushed, the response
      posted, the global counter. */
  datatype Effect = Effect(lane: Lane, send: Option<Sent>, lines: seq<nat>, reply: Option<nat>, inFlight: nat,
                           fatal: Option<Fatal>)

  function Quiet(l: Lane, inFlight: nat): Effect { Effect(l, None, [], None, inFlight, None) }

  function Stop(l: Lane, inFlight: nat, f: Fatal): Effect { Effect(l, None, [], None, inFlight, Some(f)) }

  /** postResponse: a response nobody waits for would be a fault. */
  function Post(e: Effect, value: nat): Effect {
    if e.fatal.Some? then e
    else if e.lane.waiting then e.(lane := e.lane.(waiting := false), reply := Some(value))
         else e.(fatal := Some(StrayResponse))
  }

  /** `id` is the number the next device request gets. */
  function Forward(l: Lane, d: Doorbell, preAcked: bool, id: nat, inFlight: nat): Effect {
    if d.isAsync && l.busy then
      var e := Quiet(l.(queue := l.queue + [d]), inFlight);
      if preAcked then e else Post(e.(lane := e.lane.(acked := e.lane.acked + 1)), 0)
    else
      var l' := if d.isAsync then l.(busy := true, asyncId := Some(id), sent := l.sent + [d.ticket])
                else l.(syncId := Some(id));
      var e := Effect(l', Some(SentBell(d)), [], None, inFlight, None);
      if d.isAsync && !preAcked then Post(e.(lane := e.lane.(acked := e.lane.acked + 1)), 0) else e
  }

  function RingBell(cfg: Config, v: nat, l: Lane, value: nat, mark: nat, id: nat, inFlight: nat): Effect {
    if !cfg.hasMem(v) || !cfg.flushEnabled || cfg.flushBytes == 0 then
      Forward(l, Doorbell(value, false, 0, mark, false, 0, 0), false, id, inFlight)
    else if l.armed.Some? then Stop(l, inFlight, NestedArmed)
    else Quiet(l.(armed := Some(Doorbell(value, false, 0, mark, true, 0, 0))), inFlight)
  }

  /** A SUBMIT with `inFlight` operations out is refused for depth; the sum is 32-bit. */
  predicate RefusesDepth(cfg: Config, inFlight: nat) { (inFlight + 1) % WORD32 > cfg.depth }

  function Submit(cfg: Config, v: nat, l: Lane, value: nat, mark: nat, inFlight: nat): Effect {
    if cfg.doorbellAddr == 0 || !cfg.hasMem(v) then Stop(l, inFlight, SubmitUnsupported)
    else if RefusesDepth(cfg, inFlight) then Stop(l, inFlight, DepthExceeded)
    else
      var l' := l.(submitted := l.submitted + 1);
      var more := (inFlight + 1) % WORD32;
      if l.armed.Some? || l.flushing.Some? then Stop(l', more, NestedSubmit)
      else Quiet(l'.(armed := Some(Doorbell(value, true, l'.submitted, mark, true, 0, 0))), more)
  }

  function ReadRegister(l: Lane, off: nat, inFlight: nat): nat {
    if off == 0x08 then inFlight else if off == 0x10 then l.completed
    else if off == 0x20 then l.submitted else if off == 0x28 then l.result else 0
  }

  /** The mailbox poll hands the request to the port, or to whoever else answers it. */
  function Handle(cfg: Config, v: nat, l: Lane, m: Mail, id: nat, inFlight: nat): Effect {
    match m.request
    case Ring(value) => RingBell(cfg, v, l, value, m.mark, id, inFlight)
    case ReadDevice => Effect(l.(syncId := Some(id)), Some(SentRead), [], None, inFlight, None)
    case AsyncRead(off) => Post(Quiet(l, inFlight), ReadRegister(l, off, inFlight))
    case AsyncWrite(off, value) => if off != 0 then Post(Quiet(l, inFlight), 0)
                                   else Submit(cfg, v, l, value, m.mark, inFlight)
    case Elsewhere => Quiet(l.(elsewhere := true), inFlight)
  }

  function FlushBytes(cfg: Config): nat { if cfg.flushEnabled then cfg.flushBytes else 0 }

  /** The drain gate has opened for an armed doorbell: flush the packet's lines. `at` is the next flush id. */
  function IssueDoorbellFlushes(cfg: Config, l: Lane, id: nat, at: nat, inFlight: nat): Effect
    requires l.armed.Some?
  {
    if l.flushing.Some? then Stop(l.(armed := None), inFlight, NestedFlush)
    else
      match Compute(l.armed.value.value, FlushBytes(cfg), cfg.line)
      case Refused => Stop(l.(armed := None), inFlight, BadFlushRange)
      case Accepted(range) =>
        if range.lineCount >= WORD32 then Stop(l.(armed := None), inFlight, TooManyLines)
        else SendFlushes(l, Lines(range.firstLine, cfg.line, range.lineCount), id, at, inFlight)
  }

  /** One flush per line; without any the doorbell goes on at once. */
  function SendFlushes(l: Lane, lines: seq<nat>, id: nat, at: nat, inFlight: nat): Effect
    requires l.armed.Some?
  {
    var d := l.armed.value.(lo := at, hi := at + |lines|);
    if lines == [] then Forward(l.(armed := None), d, false, id, inFlight)
    else
      Effect(l.(armed := None, flushing := Some(FlushCtx(|lines|, d)), flushIds := Ids(at, |lines|)), None, lines, None,
             inFlight, None)
  }

  function Ids(from: nat, n: nat): (r: set<nat>)
    ensures forall id {:trigger id in r} :: id in r <==> from <= id < from + n
  {
    if n == 0 then {} else Ids(from, n - 1) + {from + n - 1}
  }

  lemma {:induction false} IdsSize(from: nat, n: nat)
    ensures |Ids(from, n)| == n
    decreases n
  {
    if n > 0 { IdsSize(from, n - 1); }
  }

  /** One of the lane's flushes is answered. */
  function FlushAnswered(l: Lane, flush: nat, id: nat, inFlight: nat): Effect {
    var l' := l.(flushIds := l.flushIds - {flush});
    if l.flushing.None? then Stop(l', inFlight, StrayFlush)
    else
      var ctx := l.flushing.value;
      var left := if ctx.remaining > 0 then ctx.remaining - 1 else 0;
      if left == 0 then Forward(l'.(flushing := None), ctx.bell, false, id, inFlight)
      else Quiet(l'.(flushing := Some(ctx.(remaining := left))), inFlight)
  }

  /** The device answers the lane's synchronous request. */
  function SyncAnswered(l: Lane, value: nat, inFlight: nat): Effect { Post(Quiet(l.(syncId := None), inFlight), value) }

  /** The device answers the posted operation: the next queued one goes out at once. */
  function AsyncAnswered(l: Lane, id: nat, inFlight: nat): Effect {
    var less := if inFlight > 0 then inFlight - 1 else 0;
    var l' := l.(completed := l.completed + 1, result := 0, asyncId := None, busy := false);
    if l.queue != [] then Forward(l'.(queue := l.queue[1..]), l.queue[0], true, id, less) else Quiet(l', less)
  }

  // ---------------------------------------------------------------- what every lane keeps

  function Bit(b: bool): nat { if b then 1 else 0 }

  /** Where the guest's current call is. */
  function Places(l: Lane): nat {
    Bit(l.mail.Some?) + Bit(l.elsewhere) + Bit(l.armed.Some?) + Bit(l.flushing.Some?) + Bit(l.syncId.Some?)
  }

  predicate ArmedAsync(l: Lane) { l.armed.Some? && l.armed.value.isAsync }
  predicate FlushingAsync(l: Lane) { l.flushing.Some? && l.flushing.value.bell.isAsync }

  /** Flush bookkeeping: the context counts exactly the unanswered flushes. */
  predicate FlushesOk(l: Lane) {
    match l.flushing
    case None => l.flushIds == {}
    case Some(ctx) =>
      0 < ctx.remaining == |l.flushIds| && forall id | id in l.flushIds :: ctx.bell.lo <= id < ctx.bell.hi
  }

  predicate QueueOk(l: Lane) {
    && (l.queue != [] ==> l.busy)
    && forall i {:trigger l.queue[i]} | 0 <= i < |l.queue| ::
        l.queue[i].isAsync && l.queue[i].ticket == |l.sent| + 1 + i
  }

  predicate SentInOrder(sent: seq<nat>) { forall i {:trigger sent[i]} | 0 <= i < |sent| :: sent[i] == i + 1 }

  predicate TicketsOk(l: Lane) {
    && (ArmedAsync(l) ==> l.armed.value.ticket == l.submitted)
    && (FlushingAsync(l) ==> l.flushing.value.bell.ticket == l.submitted)
    && |l.sent| == l.completed + Bit(l.busy) && SentInOrder(l.sent)
  }

  /** Posted operations not completed. */
  function Outstanding(l: Lane): nat { Bit(ArmedAsync(l)) + Bit(FlushingAsync(l)) + Bit(l.busy) + |l.queue| }

  ghost predicate LaneOk(l: Lane) {
    && Places(l) == Bit(l.waiting)
    && FlushesOk(l) && QueueOk(l) && TicketsOk(l)
    && l.busy == l.asyncId.Some?
    && l.submitted == l.completed + Outstanding(l)
    && l.acked + Bit(ArmedAsync(l)) + Bit(FlushingAsync(l)) == l.submitted
  }

  /** A lane that is handing a doorbell over: it is nowhere, but the guest still waits. */
  ghost predicate Handing(l: Lane, d: Doorbell) {
    && Places(l) == 0 && l.waiting
    && FlushesOk(l) && QueueOk(l) && TicketsOk(l)
    && l.busy == l.asyncId.Some?
    && l.submitted == l.completed + Outstanding(l) + Bit(d.isAsync)
    && l.acked + Bit(d.isAsync) == l.submitted
    && (d.isAsync ==> d.ticket == l.submitted)
  }

  /** How an effect shows in the request tables: `dev` and `at` are the next device and flush ids. */
  predicate Wired(l: Lane, e: Effect, dev: nat, at: nat) {
    && e.lane.flushIds == l.flushIds + Ids(at, |e.lines|)
    && match e.send {
         case None => e.lane.syncId == l.syncId && e.lane.asyncId == l.asyncId
         case Some(s) =>
           if s.SentBell? && s.bell.isAsync
           then l.asyncId.None? && e.lane.asyncId == Some(dev) && e.lane.syncId == l.syncId
           else l.syncId.None? && e.lane.syncId == Some(dev) && e.lane.asyncId == l.asyncId
       }
  }

  /** What a handler may do to the counters: nothing, one submit within the depth, or one completion. */
  predicate Counts(cfg: Config, l: Lane, inFlight: nat, e: Effect) {
    || (e.inFlight == inFlight && e.lane.submitted == l.submitted && e.lane.completed == l.completed)
    || (e.inFlight == (inFlight + 1) % WORD32 <= cfg.depth && e.lane.submitted == l.submitted + 1
        && e.lane.completed == l.completed)
  }

  ghost predicate Keeps(cfg: Config, l: Lane, inFlight: nat, e: Effect, dev: nat, at: nat) {
    && !PortFault(e.fatal)
    && (e.fatal.None? ==> LaneOk(e.lane) && Wired(l, e, dev, at) && Counts(cfg, l, inFlight, e))
  }

  lemma ForwardKeeps(cfg: Config, l: Lane, d: Doorbell, dev: nat, at: nat, inFlight: nat)
    requires Handing(l, d)
    ensures Keeps(cfg, l, inFlight, Forward(l, d, false, dev, inFlight), dev, at)
    ensures Forward(l, d, false, dev, inFlight).fatal.None?
    ensures (var e := Forward(l, d, false, dev, inFlight); e.lane.submitted == l.submitted && e.inFlight == inFlight)
  {
    assert Ids(at, 0) == {};
  }

  lemma SubmitKeeps(cfg: Config, v: nat, l: Lane, value: nat, mark: nat, inFlight: nat, dev: nat, at: nat)
    requires LaneOk(l.(waiting := false)) && l.waiting
    ensures Keeps(cfg, l, inFlight, Submit(cfg, v, l, value, mark, inFlight), dev, at)
  {
    assert Ids(at, 0) == {};
  }

  lemma RingKeeps(cfg: Config, v: nat, l: Lane, value: nat, mark: nat, inFlight: nat, dev: nat, at: nat)
    requires LaneOk(l.(waiting := false)) && l.waiting
    ensures Keeps(cfg, l, inFlight, RingBell(cfg, v, l, value, mark, dev, inFlight), dev, at)
    ensures (var e := RingBell(cfg, v, l, value, mark, dev, inFlight);
             e.lane.submitted == l.submitted && e.inFlight == inFlight)
  {
    assert Ids(at, 0) == {};
    ForwardKeeps(cfg, l, Doorbell(value, false, 0, mark, false, 0, 0), dev, at, inFlight);
  }

  predicate IsAsync(r: Request) { r.AsyncRead? || r.AsyncWrite? }

  lemma HandleKeeps(cfg: Config, v: nat, l: Lane, m: Mail, dev: nat, at: nat, inFlight: nat)
    requires LaneOk(l.(waiting := false)) && l.waiting
    ensures Keeps(cfg, l, inFlight, Handle(cfg, v, l, m, dev, inFlight), dev, at)
    ensures !IsAsync(m.request) ==>
              (var e := Handle(cfg, v, l, m, dev, inFlight); e.lane.submitted == l.submitted && e.inFlight == inFlight)
  {
    assert Ids(at, 0) == {};
    match m.request
    case Ring(value) => RingKeeps(cfg, v, l, value, m.mark, inFlight, dev, at);
    case AsyncWrite(off, value) => SubmitKeeps(cfg, v, l, value, m.mark, inFlight, dev, at);
    case ReadDevice =>
    case AsyncRead(off) =>
    case Elsewhere =>
  }

  /** Only an async request moves the counters, and then both by one. */
  lemma HandleCounts(cfg: Config, v: nat, l: Lane, m: Mail, dev: nat, inFlight: nat)
    ensures (var e := Handle(cfg, v, l, m, dev, inFlight);
             && (e.lane.submitted != l.submitted ==> IsAsync(m.request))
             && (e.lane.submitted == l.submitted ==> e.inFlight == inFlight)
             && (e.fatal.None? ==> Counts(cfg, l, inFlight, e)))
  {
  }

  /** Taking the mail out of the slot leaves the guest waiting and the call nowhere. */
  lemma MailTaken(l: Lane)
    requires LaneOk(l) && l.mail.Some?
    ensures LaneOk(l.(mail := None).(waiting := false)) && l.waiting
  {
  }

  lemma NoLinesKeeps(cfg: Config, l: Lane, lines: seq<nat>, dev: nat, at: nat, inFlight: nat)
    requires LaneOk(l) && l.armed.Some? && lines == []
    ensures Keeps(cfg, l, inFlight, SendFlushes(l, lines, dev, at, inFlight), dev, at)
    ensures (var e := SendFlushes(l, lines, dev, at, inFlight);
             e.lane.submitted == l.submitted && e.inFlight == inFlight)
  {
    ForwardKeeps(cfg, l.(armed := None), l.armed.value.(lo := at, hi := at + |lines|), dev, at, inFlight);
  }

  lemma SomeLinesKeeps(cfg: Config, l: Lane, lines: seq<nat>, dev: nat, at: nat, inFlight: nat)
    requires LaneOk(l) && l.armed.Some? && lines != []
    ensures Keeps(cfg, l, inFlight, SendFlushes(l, lines, dev, at, inFlight), dev, at)
    ensures (var e := SendFlushes(l, lines, dev, at, inFlight);
             e.lane.submitted == l.submitted && e.inFlight == inFlight)
  {
    StartFlushKeeps(l, |lines|, at);
  }

  lemma SendFlushesKeeps(cfg: Config, l: Lane, lines: seq<nat>, dev: nat, at: nat, inFlight: nat)
    requires LaneOk(l) && l.armed.Some?
    ensures Keeps(cfg, l, inFlight, SendFlushes(l, lines, dev, at, inFlight), dev, at)
    ensures (var e := SendFlushes(l, lines, dev, at, inFlight);
             e.lane.submitted == l.submitted && e.inFlight == inFlight)
  {
    if lines == [] {
      NoLinesKeeps(cfg, l, lines, dev, at, inFlight);
    } else {
      SomeLinesKeeps(cfg, l, lines, dev, at, inFlight);
    }
  }

  lemma StartFlushKeeps(l: Lane, n: nat, at: nat)
    requires LaneOk(l) && l.armed.Some? && n > 0
    ensures (var d := l.armed.value.(lo := at, hi := at + n);
             LaneOk(l.(armed := None, flushing := Some(FlushCtx(n, d)), flushIds := Ids(at, n))))
    ensures Ids(at, n) == l.flushIds + Ids(at, n)
  {
    IdsSize(at, n);
    assert l.flushIds == {};
  }

  lemma ProcessKeeps(cfg: Config, l: Lane, dev: nat, at: nat, inFlight: nat)
    requires LaneOk(l) && l.armed.Some?
    ensures Keeps(cfg, l, inFlight, IssueDoorbellFlushes(cfg, l, dev, at, inFlight), dev, at)
    ensures (var e := IssueDoorbellFlushes(cfg, l, dev, at, inFlight);
             e.lane.submitted == l.submitted && e.inFlight == inFlight)
  {
    var outcome := Compute(l.armed.value.value, FlushBytes(cfg), cfg.line);
    if outcome.Accepted? {
      SendFlushesKeeps(cfg, l, Lines(outcome.range.firstLine, cfg.line, outcome.range.lineCount), dev, at, inFlight);
    }
  }

  lemma FlushAnsweredKeeps(cfg: Config, l: Lane, flush: nat, dev: nat, at: nat, inFlight: nat)
    requires LaneOk(l) && flush in l.flushIds
    ensures Keeps(cfg, l.(flushIds := l.flushIds - {flush}), inFlight, FlushAnswered(l, flush, dev, inFlight), dev, at)
    ensures (var e := FlushAnswered(l, flush, dev, inFlight);
             e.fatal.None? && e.lane.submitted == l.submitted && e.inFlight == inFlight)
  {
    var ids := l.flushIds - {flush};
    assert |ids| == |l.flushIds| - 1;
    assert Ids(at, 0) == {};
    if l.flushing.value.remaining == 1 {
      assert ids == {};
      ForwardKeeps(cfg, l.(flushIds := ids, flushing := None), l.flushing.value.bell, dev, at, inFlight);
    }
  }

  lemma SyncAnsweredKeeps(cfg: Config, l: Lane, value: nat, dev: nat, at: nat, inFlight: nat)
    requires LaneOk(l) && l.syncId.Some?
    ensures Keeps(cfg, l.(syncId := None), inFlight, SyncAnswered(l, value, inFlight), dev, at)
    ensures SyncAnswered(l, value, inFlight).fatal.None?
  {
    assert Ids(at, 0) == {};
  }

  lemma ElsewhereKeeps(cfg: Config, l: Lane, value: nat, dev: nat, at: nat, inFlight: nat)
    requires LaneOk(l) && l.elsewhere
    ensures Keeps(cfg, l, inFlight, Post(Quiet(l.(elsewhere := false), inFlight), value), dev, at)
    ensures Post(Quiet(l.(elsewhere := false), inFlight), value).fatal.None?
  {
    assert Ids(at, 0) == {};
  }

  lemma AsyncAnsweredKeeps(l: Lane, dev: nat, at: nat, inFlight: nat)
    requires LaneOk(l) && l.asyncId.Some?
    ensures (var e := AsyncAnswered(l, dev, inFlight);
             && e.fatal.None? && LaneOk(e.lane) && Wired(l.(asyncId := None), e, dev, at)
             && e.lane.submitted == l.submitted && e.lane.completed == l.completed + 1
             && e.inFlight == if inFlight > 0 then inFlight - 1 else 0)
  {
    assert Ids(at, 0) == {};
    var e := AsyncAnswered(l, dev, inFlight);
    if l.queue != [] {
      forall i | 0 <= i < |e.lane.queue|
        ensures e.lane.queue[i].isAsync && e.lane.queue[i].ticket == |e.lane.sent| + 1 + i
      {
        var j := i + 1;
        assert e.lane.queue[i] == l.queue[j];
      }
    }
  }

  // ---------------------------------------------------------------- which doorbells move where

  /** Bells in the new queue are old ones or d, and at most d goes to the device. */
  predicate Moves(l: Lane, e: Effect, d: Doorbell) {
    && (forall i {:trigger e.lane.queue[i]} | 0 <= i < |e.lane.queue| ::
            e.lane.queue[i] == d || e.lane.queue[i] in l.queue)
    && (e.send.None? || e.send == Some(SentBell(d)))
    && e.lane.mail == l.mail && e.lane.armed == l.armed
  }

  lemma ForwardMoves(l: Lane, d: Doorbell, preAcked: bool, id: nat, inFlight: nat)
    ensures (var e := Forward(l, d, preAcked, id, inFlight);
             Moves(l, e, d) && e.lane.flushing == l.flushing && e.lines == [])
  {
  }

  /** Taking mail: what is armed is the gated doorbell of that mail; an ungated one goes straight to the device. */
  lemma HandleMoves(cfg: Config, v: nat, l: Lane, m: Mail, id: nat, inFlight: nat)
    requires l.armed.None?
    ensures Taken(cfg, v, l, m, Handle(cfg, v, l, m, id, inFlight))
  {
    match m.request
    case Ring(value) => RingMoves(cfg, v, l, m, id, inFlight);
    case AsyncWrite(off, value) =>
    case ReadDevice =>
    case AsyncRead(off) =>
    case Elsewhere =>
  }

  predicate Taken(cfg: Config, v: nat, l: Lane, m: Mail, e: Effect) {
    && e.lane.queue == l.queue && e.lane.flushing == l.flushing && e.lane.mail == l.mail && e.lines == []
    && (e.lane.armed.Some? ==> e.lane.armed.value.gated && e.lane.armed.value.mark == m.mark)
    && (e.send.Some? && e.send.value.SentBell? ==>
      !e.send.value.bell.gated && !e.send.value.bell.isAsync && !Gates(cfg, v))
  }

  lemma RingMoves(cfg: Config, v: nat, l: Lane, m: Mail, id: nat, inFlight: nat)
    requires l.armed.None? && m.request.Ring?
    ensures Taken(cfg, v, l, m, RingBell(cfg, v, l, m.request.value, m.mark, id, inFlight))
  {
  }

  /** A synchronous doorbell of this vCPU waits for drain and flush. */
  predicate Gates(cfg: Config, v: nat) { cfg.hasMem(v) && cfg.flushEnabled && cfg.flushBytes > 0 }

  /** The lines an armed doorbell flushes. */
  function PacketLines(cfg: Config, value: nat): seq<nat> {
    match Compute(value, FlushBytes(cfg), cfg.line)
    case Refused => []
    case Accepted(range) => Lines(range.firstLine, cfg.line, range.lineCount)
  }

  lemma GateMoves(cfg: Config, l: Lane, id: nat, at: nat, inFlight: nat)
    requires l.armed.Some?
    ensures (var e := IssueDoorbellFlushes(cfg, l, id, at, inFlight);
             var lines := PacketLines(cfg, l.armed.value.value);
             var d := l.armed.value.(lo := at, hi := at + |lines|);
             e.fatal.None? ==>
               && Moves(l.(armed := None), e, d) && e.lines == lines
               && (if lines == [] then e.lane.flushing == l.flushing
                   else e.send.None? && e.lane.queue == l.queue && e.lane.flushing == Some(FlushCtx(|lines|, d))))
  {
    var outcome := Compute(l.armed.value.value, FlushBytes(cfg), cfg.line);
    if l.flushing.None? && outcome.Accepted? && outcome.range.lineCount < WORD32 {
      SendFlushesMoves(l, PacketLines(cfg, l.armed.value.value), id, at, inFlight);
    }
  }

  lemma SendFlushesMoves(l: Lane, lines: seq<nat>, id: nat, at: nat, inFlight: nat)
    requires l.armed.Some?
    ensures (var e := SendFlushes(l, lines, id, at, inFlight); var d := l.armed.value.(lo := at, hi := at + |lines|);
             && Moves(l.(armed := None), e, d) && e.lines == lines
             && (if lines == [] then e.lane.flushing == l.flushing
                 else e.send.None? && e.lane.queue == l.queue && e.lane.flushing == Some(FlushCtx(|lines|, d))))
  {
    ForwardMoves(l.(armed := None), l.armed.value.(lo := at, hi := at + |lines|), false, id, inFlight);
  }

  lemma FlushMoves(l: Lane, flush: nat, id: nat, inFlight: nat)
    requires l.flushing.Some?
    ensures (var e := FlushAnswered(l, flush, id, inFlight); var d := l.flushing.value.bell;
             && Moves(l, e, d) && e.lines == []
             && (l.flushing.value.remaining <= 1 ==> e.lane.flushing.None?)
             && (l.flushing.value.remaining > 1 ==>
                   e.lane.queue == l.queue && e.send.None? && e.lane.flushing.Some? && e.lane.flushing.value.bell == d))
  {
    ForwardMoves(l.(flushIds := l.flushIds - {flush}, flushing := None), l.flushing.value.bell, false, id, inFlight);
  }

  lemma AsyncMoves(l: Lane, id: nat, inFlight: nat)
    ensures (var e := AsyncAnswered(l, id, inFlight);
             && e.lane.flushing == l.flushing && e.lane.armed == l.armed && e.lane.mail == l.mail && e.lines == []
             && (forall i {:trigger e.lane.queue[i]} | 0 <= i < |e.lane.queue| :: e.lane.queue[i] in l.queue)
             && (e.send.Some? ==> l.queue != [] && e.send == Some(SentBell(l.queue[0]))))
  {
  }
}
