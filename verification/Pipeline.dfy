/** One core's event pipeline (src/quetz_pipeline.cc, src/quetz_pipeline.h, src/quetz_pipeline_transform.cc):
    refill, then work off the staging queue within the tick's limits. */
module Pipeline {
  import opened Trace
  import opened LineMath
  import opened MemoryIssue

  /** What the region table says about a memory command. */
  datatype Action = Forward | ForwardMmio | Consume | EndSim

  /** `split` is how the output stage cuts an operation into requests: see SplitsAtLines. */
  datatype Config = Config(cap: nat, maxIssue: nat, maxPending: nat, maxInsts: nat, line: nat, lat: Latency,
                           route: Command -> Action, split: Op -> seq<Piece>)

  predicate ConfigOk(cfg: Config) {
    cfg.cap > 0 && cfg.maxIssue > 0 && cfg.maxPending > 0 && cfg.line > 0 && LatencyOk(cfg.lat)
  }

  /** The default output stage. */
  ghost predicate SplitsAtLines(cfg: Config) {
    forall op {:trigger SplitIs(cfg, op)} :: SplitIs(cfg, op)
  }

  predicate SplitIs(cfg: Config, op: Op) { OpOk(op) ==> cfg.split(op) == Pieces(op, cfg.line) }

  predicate CommandOk(c: Command) {
    Word(c.addr) && c.size < WORD32 && |c.data| == DATA_BYTES && !c.kind.ComputeRun?
  }

  predicate IsMemory(c: Command) { c.kind.Read? || c.kind.Write? }

  function ActionOf(cfg: Config, c: Command): Action { if IsMemory(c) then cfg.route(c) else Forward }

  /** A command that turns into memory requests. */
  predicate Issues(cfg: Config, c: Command) {
    IsMemory(c) && (ActionOf(cfg, c).Forward? || ActionOf(cfg, c).ForwardMmio?)
  }

  function OpOf(cfg: Config, c: Command): (op: Op)
    ensures CommandOk(c) ==> OpOk(op)
  {
    Op(c.kind.Read?, ActionOf(cfg, c).ForwardMmio?, c.addr, c.size, c.data)
  }

  /** The requests a command makes. */
  function Requests(cfg: Config, c: Command): seq<Piece> {
    if Issues(cfg, c) then cfg.split(OpOf(cfg, c)) else []
  }

  /** `backlog` is what the input stage has not staged yet, run by run expanded; `issuing` and `out` are the pending
      operation and how many of its requests are sent; `popped` is the history of commands worked off, and `dead`
      records the fatal access that wraps the address space. */
  datatype Core = Core(backlog: seq<Command>, q: seq<Event>, hitCap: bool, issuing: bool, out: nat, link: Link,
                       count: nat, halted: bool, guestExit: bool, dead: bool, popped: seq<Command>)

  function PendingCount(c: Core): int { |c.link.sent| - |c.link.answered| }

  predicate IsDrained(c: Core) { PendingCount(c) == 0 && (c.halted || (c.q == [] && !c.hitCap)) }

  /** Pops the head and counts it as an instruction; reaching the instruction limit halts the core. */
  function Retire(cfg: Config, c: Core): Core
    requires c.q != []
  {
    c.(q := c.q[1..], popped := c.popped + [c.q[0].cmd], count := c.count + 1,
       halted := c.halted || (cfg.maxInsts > 0 && c.count + 1 >= cfg.maxInsts))
  }

  function Budget(cfg: Config, c: Core, issued: nat): nat {
    var a := if issued < cfg.maxIssue then cfg.maxIssue - issued else 0;
    var b := if PendingCount(c) < cfg.maxPending then cfg.maxPending - PendingCount(c) else 0;
    if PendingCount(c) < 0 then 0 else Min(a, b)
  }

  /** One turn of the loop: the new state, how much has been issued, and whether the tick goes on. */
  datatype Turn = Turn(core: Core, issued: nat, more: bool)

  /** n more of the pending operation's requests are out. */
  function Advanced(c: Core, ps: seq<Piece>, n: nat): Core {
    c.(link := c.link.(sent := c.link.sent + (if c.out + n <= |ps| then ps[c.out..c.out + n] else [])),
       out := c.out + n)
  }

  /** All of them are. */
  function Completed(cfg: Config, c: Core): Core
    requires c.q != []
  {
    Retire(cfg, c.(issuing := false, out := 0))
  }

  function IssueTurn(cfg: Config, c: Core, issued: nat): Turn
    requires c.q != []
  {
    var budget, cmd := Budget(cfg, c, issued), c.q[0].cmd;
    if budget == 0 then Turn(c, issued, false)
    else if cmd.size > 0 && !SpanOk(OpOf(cfg, cmd)) then Turn(c.(dead := true), issued, false)
    else
      var ps := Requests(cfg, cmd);
      var left := if c.out <= |ps| then |ps| - c.out else 0;
      var n := Min(budget, left);
      if n < left then Turn(Advanced(c, ps, n), issued + n, false)
      else
        var r := Completed(cfg, Advanced(c, ps, n));
        Turn(r, issued + n, !r.halted)
  }

  /** What one window leaves of the operation, and whether that was all of it. */
  predicate Window(cfg: Config, c: Core, budget: nat, ps: seq<Piece>, d: Core, n: nat, complete: bool)
    requires c.q != [] && c.out <= |ps|
  {
    var op := OpOf(cfg, c.q[0].cmd);
    if op.size > 0 && !SpanOk(op) then n == 0 && !complete && d == c.(dead := true)
    else n == Min(budget, |ps| - c.out) && d == Advanced(c, ps, n) && (complete <==> d.out == |ps|)
  }

  /** A turn is one window, and the completion if that was all. */
  lemma WindowIsTurn(cfg: Config, c: Core, issued: nat, budget: nat, ps: seq<Piece>, d: Core, n: nat, complete: bool)
    requires c.q != [] && budget == Budget(cfg, c, issued) > 0 && ps == Requests(cfg, c.q[0].cmd) && c.out <= |ps|
    requires Window(cfg, c, budget, ps, d, n, complete)
    ensures (var op := OpOf(cfg, c.q[0].cmd);
             && d.q == c.q && n <= budget && (op.size == 0 || SpanOk(op) ==> complete || n > 0)
             && IssueTurn(cfg, c, issued)
                == if complete then Turn(Completed(cfg, d), issued + n, !Completed(cfg, d).halted)
                   else Turn(d, issued + n, false))
  {
  }

  function HeadTurn(cfg: Config, c: Core, issued: nat): Turn
    requires c.q != []
  {
    var ev := c.q[0];
    if ActionOf(cfg, ev.cmd).Consume? then Turn(Retire(cfg, c), issued, !Retire(cfg, c).halted)
    else if ev.cmd.kind.Exit? || ActionOf(cfg, ev.cmd).EndSim? then
      Turn(c.(q := c.q[1..], popped := c.popped + [ev.cmd], halted := true, guestExit := ev.cmd.kind.Exit?), issued,
           false)
    else if ev.stall > 0 then Turn(c.(q := [ev.(stall := ev.stall - 1)] + c.q[1..]), issued, false)
    else if ev.cmd.kind.Nop? then Turn(Retire(cfg, c), issued, !Retire(cfg, c).halted)
    else Turn(c.(issuing := true, out := 0), issued, true)
  }

  function TurnOf(cfg: Config, c: Core, issued: nat): (t: Turn)
    requires c.q != []
    ensures t.more ==> |t.core.q| < |c.q| || (|t.core.q| == |c.q| && t.core.issuing && !c.issuing)
  {
    if c.issuing then IssueTurn(cfg, c, issued) else HeadTurn(cfg, c, issued)
  }

  function Loop(cfg: Config, c: Core, issued: nat): Core
    decreases |c.q|, if c.issuing then 0 else 1
  {
    if c.q == [] then c
    else
      var t := TurnOf(cfg, c, issued);
      if t.more then Loop(cfg, t.core, t.issued) else t.core
  }

  function Refilled(cfg: Config, c: Core): Core
    requires ConfigOk(cfg)
  {
    var n := Take(c.backlog, Room(c.q, cfg.cap));
    var q := c.q + Staged(cfg.lat, c.backlog[..n]);
    c.(q := q, backlog := c.backlog[n..], hitCap := |q| >= cfg.cap)
  }

  function Tick(cfg: Config, c: Core): Core
    requires ConfigOk(cfg)
  {
    if c.halted || c.dead then c else Loop(cfg, Refilled(cfg, c), 0)
  }

  /** A response to one of the requests that are out. */
  function Answer(c: Core, id: nat): Core { c.(link := c.link.(answered := c.link.answered + {id})) }

  /** The vCPU puts one more command on the ring. */
  function Put(c: Core, cmd: Command): Core { c.(backlog := c.backlog + ExpandOne(cmd)) }

  predicate Fresh(c: Core) {
    c.backlog == [] && c.q == [] && !c.hitCap && !c.issuing && c.out == 0 && c.link == Link([], {}) && !c.halted
        && !c.dead && c.popped == [] && c.count == 0 && !c.guestExit
  }

  // ---------------------------------------------------------------- what every step keeps

  function Commands(q: seq<Event>): (r: seq<Command>)
    ensures |r| == |q| && forall i {:trigger r[i]} | 0 <= i < |q| :: r[i] == q[i].cmd
  {
    seq(|q|, i requires 0 <= i < |q| => q[i].cmd)
  }

  /** All requests of a list of commands, in order. */
  function Flat(cfg: Config, cmds: seq<Command>): seq<Piece> {
    if cmds == [] then [] else Flat(cfg, cmds[..|cmds| - 1]) + Requests(cfg, cmds[|cmds| - 1])
  }

  lemma FlatSnoc(cfg: Config, cmds: seq<Command>, c: Command)
    ensures Flat(cfg, cmds + [c]) == Flat(cfg, cmds) + Requests(cfg, c)
  {
    assert (cmds + [c])[..|cmds|] == cmds;
  }

  /** What the pending operation has sent so far. */
  function Partial(cfg: Config, c: Core): seq<Piece> {
    if c.issuing && c.q != [] && c.out <= |Requests(cfg, c.q[0].cmd)| then Requests(cfg, c.q[0].cmd)[..c.out] else []
  }

  /** Everything put on the ring so far, in order: worked off, staged, not staged. */
  function Streamed(c: Core): seq<Command> { c.popped + (Commands(c.q) + c.backlog) }

  predicate AllOk(cmds: seq<Command>) { forall i {:trigger cmds[i]} | 0 <= i < |cmds| :: CommandOk(cmds[i]) }

  ghost predicate CoreOk(cfg: Config, c: Core) {
    && AllOk(Streamed(c))
    && c.link.sent == Flat(cfg, c.popped) + Partial(cfg, c)
    && LinkOk(c.link)
    && (c.issuing ==>
          c.q != [] && Issues(cfg, c.q[0].cmd) && CommandOk(c.q[0].cmd) && c.out <= |Requests(cfg, c.q[0].cmd)|)
    && (!c.issuing ==> c.out == 0)
    && PendingCount(c) <= cfg.maxPending
    && |c.q| <= cfg.cap
  }

  /** What one step leaves alone: the stream, the answers, and the history before it. */
  predicate Continues(c: Core, d: Core) {
    && Streamed(d) == Streamed(c)
    && d.link.answered == c.link.answered && c.link.sent <= d.link.sent
    && c.popped <= d.popped && (c.halted ==> d.halted)
  }

  lemma HeadOk(cfg: Config, c: Core)
    requires CoreOk(cfg, c) && c.q != []
    ensures CommandOk(c.q[0].cmd)
  {
    assert Streamed(c)[|c.popped|] == c.q[0].cmd;
  }

  lemma PopStream(c: Core)
    requires c.q != []
    ensures c.popped + [c.q[0].cmd] + (Commands(c.q[1..]) + c.backlog) == Streamed(c)
  {
    assert Commands(c.q) == [c.q[0].cmd] + Commands(c.q[1..]);
  }

  /** Working off a command whose requests are all out. */
  lemma PopKeeps(cfg: Config, c: Core, d: Core, sent: seq<Piece>)
    requires CoreOk(cfg, c) && c.q != []
    requires d.q == c.q[1..] && d.popped == c.popped + [c.q[0].cmd] && d.backlog == c.backlog && !d.issuing
             && d.out == 0
    requires d.link == c.link.(sent := c.link.sent + sent) && (c.halted ==> d.halted)
             && PendingCount(d) <= cfg.maxPending
    requires Partial(cfg, c) + sent == Requests(cfg, c.q[0].cmd)
    ensures CoreOk(cfg, d) && Continues(c, d)
  {
    PopStream(c);
    FlatSnoc(cfg, c.popped, c.q[0].cmd);
    assert Flat(cfg, c.popped) + Partial(cfg, c) + sent == Flat(cfg, c.popped) + (Partial(cfg, c) + sent);
  }

  lemma StallKeeps(cfg: Config, c: Core, issued: nat)
    requires CoreOk(cfg, c) && c.q != [] && !c.issuing && c.q[0].stall > 0
    ensures (var d := c.(q := [c.q[0].(stall := c.q[0].stall - 1)] + c.q[1..]); CoreOk(cfg, d) && Continues(c, d))
  {
    var q := [c.q[0].(stall := c.q[0].stall - 1)] + c.q[1..];
    assert Commands(q) == Commands(c.q);
  }

  lemma BeginKeeps(cfg: Config, c: Core)
    requires CoreOk(cfg, c) && c.q != [] && !c.issuing && Issues(cfg, c.q[0].cmd) && CommandOk(c.q[0].cmd)
    ensures CoreOk(cfg, c.(issuing := true, out := 0)) && Continues(c, c.(issuing := true, out := 0))
  {
  }

  lemma HeadTurnKeeps(cfg: Config, c: Core, issued: nat)
    requires CoreOk(cfg, c) && c.q != [] && !c.issuing
    ensures CoreOk(cfg, HeadTurn(cfg, c, issued).core) && Continues(c, HeadTurn(cfg, c, issued).core)
    ensures HeadTurn(cfg, c, issued).core.link == c.link && HeadTurn(cfg, c, issued).issued == issued
  {
    HeadOk(cfg, c);
    var ev := c.q[0];
    if ActionOf(cfg, ev.cmd).Consume? || ev.cmd.kind.Exit? || ActionOf(cfg, ev.cmd).EndSim? {
      PopKeeps(cfg, c, HeadTurn(cfg, c, issued).core, []);
    } else if ev.stall > 0 {
      StallKeeps(cfg, c, issued);
    } else if ev.cmd.kind.Nop? {
      PopKeeps(cfg, c, HeadTurn(cfg, c, issued).core, []);
    } else {
      BeginKeeps(cfg, c);
    }
  }

  /** Sending some of the pending operation's requests. */
  lemma SendKeeps(cfg: Config, c: Core, n: nat)
    requires CoreOk(cfg, c) && c.issuing && c.out + n <= |Requests(cfg, c.q[0].cmd)|
             && PendingCount(c) + n <= cfg.maxPending
    ensures (var d := Advanced(c, Requests(cfg, c.q[0].cmd), n); CoreOk(cfg, d) && Continues(c, d))
  {
    var ps := Requests(cfg, c.q[0].cmd);
    var d := Advanced(c, ps, n);
    assert ps[..c.out] + ps[c.out..c.out + n] == ps[..c.out + n];
    assert d.link.sent == Flat(cfg, c.popped) + (ps[..c.out] + ps[c.out..c.out + n]);
  }

  lemma DeadKeeps(cfg: Config, c: Core)
    requires CoreOk(cfg, c)
    ensures CoreOk(cfg, c.(dead := true)) && Continues(c, c.(dead := true)) && Continues(c, c)
  {
  }

  lemma CompleteKeeps(cfg: Config, c: Core, d: Core, n: nat)
    requires CoreOk(cfg, c) && c.issuing && c.out + n == |Requests(cfg, c.q[0].cmd)|
             && PendingCount(c) + n <= cfg.maxPending
    requires d == Completed(cfg, Advanced(c, Requests(cfg, c.q[0].cmd), n))
    ensures CoreOk(cfg, d) && Continues(c, d)
  {
    var ps := Requests(cfg, c.q[0].cmd);
    assert ps[..c.out] + ps[c.out..c.out + n] == ps;
    PopKeeps(cfg, c, d, ps[c.out..c.out + n]);
  }

  predicate IssueStops(cfg: Config, c: Core, issued: nat)
    requires c.q != []
  {
    Budget(cfg, c, issued) == 0 || (c.q[0].cmd.size > 0 && !SpanOk(OpOf(cfg, c.q[0].cmd)))
  }

  lemma IssueStopsKeeps(cfg: Config, c: Core, issued: nat)
    requires CoreOk(cfg, c) && c.issuing && IssueStops(cfg, c, issued)
    ensures CoreOk(cfg, IssueTurn(cfg, c, issued).core) && Continues(c, IssueTurn(cfg, c, issued).core)
  {
    DeadKeeps(cfg, c);
  }

  /** How many requests an issue turn sends, and what state it leaves. */
  lemma IssueTurnForm(cfg: Config, c: Core, issued: nat) returns (n: nat)
    requires CoreOk(cfg, c) && c.issuing && issued <= cfg.maxIssue && !IssueStops(cfg, c, issued)
    ensures c.out + n <= |Requests(cfg, c.q[0].cmd)| && PendingCount(c) + n <= cfg.maxPending
            && issued + n <= cfg.maxIssue
    ensures (var ps := Requests(cfg, c.q[0].cmd);
             IssueTurn(cfg, c, issued).core == if c.out + n < |ps| then Advanced(c, ps, n)
                                               else Completed(cfg, Advanced(c, ps, n)))
    ensures IssueTurn(cfg, c, issued).issued == issued + n
  {
    AllAnswered(|c.link.sent|, c.link.answered);
    n := Min(Budget(cfg, c, issued), |Requests(cfg, c.q[0].cmd)| - c.out);
  }

  lemma IssueSendsKeeps(cfg: Config, c: Core, issued: nat)
    requires CoreOk(cfg, c) && c.issuing && issued <= cfg.maxIssue && !IssueStops(cfg, c, issued)
    ensures CoreOk(cfg, IssueTurn(cfg, c, issued).core) && Continues(c, IssueTurn(cfg, c, issued).core)
  {
    var n := IssueTurnForm(cfg, c, issued);
    if c.out + n < |Requests(cfg, c.q[0].cmd)| {
      SendKeeps(cfg, c, n);
    } else {
      CompleteKeeps(cfg, c, IssueTurn(cfg, c, issued).core, n);
    }
  }

  lemma IssueTurnKeeps(cfg: Config, c: Core, issued: nat)
    requires CoreOk(cfg, c) && c.issuing && issued <= cfg.maxIssue
    ensures CoreOk(cfg, IssueTurn(cfg, c, issued).core) && Continues(c, IssueTurn(cfg, c, issued).core)
  {
    if IssueStops(cfg, c, issued) { IssueStopsKeeps(cfg, c, issued); } else { IssueSendsKeeps(cfg, c, issued); }
  }

  lemma IssueTurnCounts(cfg: Config, c: Core, issued: nat)
    requires CoreOk(cfg, c) && c.issuing && issued <= cfg.maxIssue
    ensures (var t := IssueTurn(cfg, c, issued);
             issued <= t.issued <= cfg.maxIssue && |t.core.link.sent| - |c.link.sent| == t.issued - issued)
  {
    if !IssueStops(cfg, c, issued) { var _ := IssueTurnForm(cfg, c, issued); }
  }

  lemma {:induction false} LoopKeeps(cfg: Config, c: Core, issued: nat)
    requires CoreOk(cfg, c) && issued <= cfg.maxIssue
    ensures CoreOk(cfg, Loop(cfg, c, issued)) && Continues(c, Loop(cfg, c, issued))
    ensures |Loop(cfg, c, issued).link.sent| - |c.link.sent| <= cfg.maxIssue - issued
    decreases |c.q|, if c.issuing then 0 else 1
  {
    if c.q != [] {
      var t := TurnOf(cfg, c, issued);
      if c.issuing {
        IssueTurnKeeps(cfg, c, issued); IssueTurnCounts(cfg, c, issued);
      } else {
        HeadTurnKeeps(cfg, c, issued);
      }
      if t.more { LoopKeeps(cfg, t.core, t.issued); }
    }
  }

  lemma RefilledKeeps(cfg: Config, c: Core)
    requires ConfigOk(cfg) && CoreOk(cfg, c)
    ensures CoreOk(cfg, Refilled(cfg, c)) && Continues(c, Refilled(cfg, c))
  {
    var n := Take(c.backlog, Room(c.q, cfg.cap));
    assert Commands(c.q + Staged(cfg.lat, c.backlog[..n])) == Commands(c.q) + c.backlog[..n];
    assert Commands(c.q) + c.backlog[..n] + c.backlog[n..] == Commands(c.q) + c.backlog;
  }

  /** A tick keeps the stream in order, sends exactly the requests of the commands it works off, at most
      `maxIssue` of them, and never has more than `maxPending` unanswered. */
  lemma TickKeeps(cfg: Config, c: Core)
    requires ConfigOk(cfg) && CoreOk(cfg, c)
    ensures CoreOk(cfg, Tick(cfg, c)) && Continues(c, Tick(cfg, c))
    ensures |Tick(cfg, c).link.sent| - |c.link.sent| <= cfg.maxIssue
  {
    if !(c.halted || c.dead) {
      RefilledKeeps(cfg, c);
      LoopKeeps(cfg, Refilled(cfg, c), 0);
    }
  }

  lemma AnswerKeeps(cfg: Config, c: Core, id: nat)
    requires CoreOk(cfg, c) && Outstanding(c.link, id)
    ensures CoreOk(cfg, Answer(c, id)) && PendingCount(Answer(c, id)) == PendingCount(c) - 1
  {
  }

  lemma PutKeeps(cfg: Config, c: Core, cmd: Command)
    requires CoreOk(cfg, c) && AllOk(ExpandOne(cmd))
    ensures CoreOk(cfg, Put(c, cmd)) && Streamed(Put(c, cmd)) == Streamed(c) + ExpandOne(cmd)
  {
    assert Streamed(Put(c, cmd)) == Streamed(c) + ExpandOne(cmd);
  }

  // ---------------------------------------------------------------- the drain test is sound

  predicate NoExit(q: seq<Event>) { forall i {:trigger q[i]} | 0 <= i < |q| :: !q[i].cmd.kind.Exit? }

  lemma NoExitCons(q: seq<Event>)
    requires q != [] && !q[0].cmd.kind.Exit? && NoExit(q[1..])
    ensures NoExit(q)
  {
    forall i | 0 <= i < |q| ensures !q[i].cmd.kind.Exit? { if i > 0 { assert q[i] == q[1..][i - 1]; } }
  }

  /** A turn leaves the backlog and the cap flag alone; if the tick goes on, it popped something other than an
      EXIT or nothing, and if it stops with the queue empty, the core is halted. */
  lemma TurnShape(cfg: Config, c: Core, issued: nat)
    requires c.q != [] && (c.issuing ==> IsMemory(c.q[0].cmd))
    ensures Shape(c, TurnOf(cfg, c, issued))
  {
    if c.issuing { IssueShape(cfg, c, issued); } else { HeadShape(cfg, c, issued); }
  }

  predicate Shape(c: Core, t: Turn)
    requires c.q != []
  {
    && t.core.backlog == c.backlog && t.core.hitCap == c.hitCap
    && (t.more ==> !c.q[0].cmd.kind.Exit? && (t.core.q == c.q || t.core.q == c.q[1..]))
    && (!t.more ==> t.core.halted || t.core.q != [])
  }

  lemma IssueShape(cfg: Config, c: Core, issued: nat)
    requires c.q != [] && IsMemory(c.q[0].cmd)
    ensures Shape(c, IssueTurn(cfg, c, issued))
  {
  }

  lemma HeadShape(cfg: Config, c: Core, issued: nat)
    requires c.q != []
    ensures Shape(c, HeadTurn(cfg, c, issued))
  {
  }

  /** A queue worked off without halting held no EXIT. */
  lemma {:induction false} LoopSeesExit(cfg: Config, c: Core, issued: nat)
    requires CoreOk(cfg, c) && issued <= cfg.maxIssue
    ensures (var d := Loop(cfg, c, issued);
             (d.q == [] && !d.halted ==> NoExit(c.q)) && d.backlog == c.backlog && d.hitCap == c.hitCap)
    decreases |c.q|, if c.issuing then 0 else 1
  {
    if c.q != [] {
      var t := TurnOf(cfg, c, issued);
      TurnShape(cfg, c, issued);
      if t.more {
        if c.issuing {
          IssueTurnKeeps(cfg, c, issued); IssueTurnCounts(cfg, c, issued);
        } else {
          HeadTurnKeeps(cfg, c, issued);
        }
        LoopSeesExit(cfg, t.core, t.issued);
        if NoExit(t.core.q) && t.core.q == c.q[1..] { NoExitCons(c.q); }
      }
    }
  }

  /** A refill that neither reached the cap nor took an EXIT took everything. */
  lemma {:induction false} TakeAll(cmds: seq<Command>, room: nat)
    requires Take(cmds, room) < room
    ensures Take(cmds, room) == |cmds| || (Take(cmds, room) > 0 && cmds[Take(cmds, room) - 1].kind.Exit?)
    decreases |cmds|
  {
    if cmds != [] && !cmds[0].kind.Exit? { TakeAll(cmds[1..], room - 1); }
  }

  /** After a tick, a drained core that is not halted has nothing left of what was on the ring before the tick:
      this is what the cap flag is for. */
  lemma DrainSound(cfg: Config, c: Core)
    requires ConfigOk(cfg) && CoreOk(cfg, c) && !c.halted && !c.dead
    ensures (var d := Tick(cfg, c); d.q == [] && !d.hitCap && !d.halted ==> d.backlog == [] && d.popped == Streamed(c))
  {
    var r, d := Refilled(cfg, c), Tick(cfg, c);
    TickKeeps(cfg, c);
    RefilledKeeps(cfg, c);
    LoopSeesExit(cfg, r, 0);
    if d.q == [] && !d.hitCap && !d.halted {
      var room := Room(c.q, cfg.cap);
      var n := Take(c.backlog, room);
      TakeAll(c.backlog, room);
      assert n > 0 ==> r.q[|c.q| + n - 1].cmd == c.backlog[n - 1];
      assert d.popped + (Commands([]) + []) == d.popped;
    }
  }

  /** Without the cap flag the test would be unsound: one tick can empty the queue and leave commands behind. */
  lemma CapFlagNeeded(cfg: Config, c: Core, nop: Command)
    requires ConfigOk(cfg) && cfg.cap == 1 && cfg.maxInsts == 0 && cfg.lat.compute[0] == 0
    requires nop == NopOf(0) && Fresh(c) && c.count == 0
    ensures (var d := Tick(cfg, Put(Put(c, nop), nop));
             d.q == [] && PendingCount(d) == 0 && !d.halted && d.backlog == [nop] && !IsDrained(d))
  {
    var s := Put(Put(c, nop), nop);
    assert s.backlog == [nop, nop];
    assert Take([nop, nop], 1) == 1;
    var r := Refilled(cfg, s);
    assert [nop, nop][..1] == [nop] && [nop, nop][1..] == [nop];
    assert r.q == [Event(nop, 0)];
    var t := TurnOf(cfg, r, 0);
    assert t.core == Retire(cfg, r);
    assert Loop(cfg, t.core, 0) == t.core;
  }

  // ---------------------------------------------------------------- stalls and the instruction limit

  function Ticks(cfg: Config, c: Core, n: nat): Core
    requires ConfigOk(cfg)
  {
    if n == 0 then c else Tick(cfg, Ticks(cfg, c, n - 1))
  }

  /** A head that still owes stall cycles, on a running core. */
  predicate Stalled(cfg: Config, c: Core, stall: nat) {
    && !c.halted && !c.dead && !c.issuing && c.q != [] && c.q[0].stall == stall
    && !c.q[0].cmd.kind.Exit? && !ActionOf(cfg, c.q[0].cmd).Consume? && !ActionOf(cfg, c.q[0].cmd).EndSim?
  }

  lemma StalledTick(cfg: Config, c: Core, stall: nat)
    requires ConfigOk(cfg) && Stalled(cfg, c, stall) && stall > 0
    ensures (var d := Tick(cfg, c);
             Stalled(cfg, d, stall - 1) && d.q[0].cmd == c.q[0].cmd && d.popped == c.popped && d.link == c.link
                 && d.count == c.count)
  {
    var r := Refilled(cfg, c);
    assert r.q[0] == c.q[0];
    var t := HeadTurn(cfg, r, 0);
    assert Loop(cfg, r, 0) == t.core;
  }

  /** The head of the queue stalls for exactly its latency: for that many ticks nothing is popped, issued or counted,
      and after them it owes nothing. */
  lemma {:induction false} StallLasts(cfg: Config, c: Core, stall: nat, n: nat)
    requires ConfigOk(cfg) && Stalled(cfg, c, stall) && n <= stall
    ensures (var d := Ticks(cfg, c, n);
             Stalled(cfg, d, stall - n) && d.q[0].cmd == c.q[0].cmd && d.popped == c.popped && d.link == c.link
                 && d.count == c.count)
    decreases n
  {
    if n > 0 {
      StallLasts(cfg, c, stall, n - 1);
      StalledTick(cfg, Ticks(cfg, c, n - 1), stall - (n - 1));
    }
  }

  /** The stall of a command: a load or store takes its class's execution latency, a compute instruction its class's
      compute latency, and a class that has no table entry none. */
  function StallOf(lat: Latency, c: Command): nat
    requires LatencyOk(lat)
  {
    if c.cls >= |lat.exec| || c.cls >= |lat.compute| then 0
    else match c.kind
      case Read => lat.exec[c.cls]
      case Write => lat.exec[c.cls]
      case Nop => lat.compute[c.cls]
      case _ => 0
  }

  /** A command that reaches an empty queue of a running core, and that is not kept by its region and does not end the
      run, holds the core for its latency: for so many ticks nothing is popped, sent or counted. */
  lemma CommandStalls(cfg: Config, c: Core, n: nat)
    requires ConfigOk(cfg) && !c.halted && !c.dead && !c.issuing && c.q == [] && c.backlog != []
    requires !c.backlog[0].kind.Exit? && !ActionOf(cfg, c.backlog[0]).Consume? && !ActionOf(cfg, c.backlog[0]).EndSim?
    requires 0 < n <= StallOf(cfg.lat, c.backlog[0])
    ensures (var d := Ticks(cfg, c, n);
             && d.q != [] && d.q[0] == Event(c.backlog[0], StallOf(cfg.lat, c.backlog[0]) - n)
             && d.popped == c.popped && d.link == c.link && d.count == c.count && !d.issuing)
    decreases n
  {
    if n == 1 {
      FirstStall(cfg, c);
      assert Ticks(cfg, c, 0) == c;
    } else {
      CommandStalls(cfg, c, n - 1);
      StalledTick(cfg, Ticks(cfg, c, n - 1), StallOf(cfg.lat, c.backlog[0]) - (n - 1));
    }
  }

  lemma FirstStall(cfg: Config, c: Core)
    requires ConfigOk(cfg) && !c.halted && !c.dead && !c.issuing && c.q == [] && c.backlog != []
    requires !c.backlog[0].kind.Exit? && !ActionOf(cfg, c.backlog[0]).Consume? && !ActionOf(cfg, c.backlog[0]).EndSim?
    requires StallOf(cfg.lat, c.backlog[0]) > 0
    ensures (var d, l := Tick(cfg, c), StallOf(cfg.lat, c.backlog[0]);
             && Stalled(cfg, d, l - 1) && d.q[0].cmd == c.backlog[0]
             && d.popped == c.popped && d.link == c.link && d.count == c.count)
  {
    var r := Refilled(cfg, c);
    assert Take(c.backlog, Room(c.q, cfg.cap)) > 0;
    assert r.q[0] == Event(c.backlog[0], Stall(cfg.lat, c.backlog[0]));
    var t := HeadTurn(cfg, r, 0);
    assert Loop(cfg, r, 0) == t.core;
  }

  /** A running core is below the instruction limit. */
  predicate BelowLimit(cfg: Config, c: Core) {
    cfg.maxInsts > 0 ==> c.count <= cfg.maxInsts && (!c.halted ==> c.count < cfg.maxInsts)
  }

  lemma TurnBelowLimit(cfg: Config, c: Core, issued: nat)
    requires c.q != [] && BelowLimit(cfg, c) && !c.halted
    ensures (var t := TurnOf(cfg, c, issued);
             && BelowLimit(cfg, t.core) && (t.more ==> !t.core.halted)
             && c.count <= t.core.count && t.core.count - c.count <= |t.core.popped| - |c.popped|
                   <= t.core.count - c.count + 1
             && (|t.core.popped| - |c.popped| != t.core.count - c.count ==> t.core.halted))
  {
  }

  lemma {:induction false} LoopBelowLimit(cfg: Config, c: Core, issued: nat)
    requires BelowLimit(cfg, c) && !c.halted
    ensures (var d := Loop(cfg, c, issued);
             && BelowLimit(cfg, d)
             && |d.popped| - |c.popped| - 1 <= d.count - c.count <= |d.popped| - |c.popped|
             && (d.count - c.count != |d.popped| - |c.popped| ==> d.halted))
    decreases |c.q|, if c.issuing then 0 else 1
  {
    if c.q != [] {
      TurnBelowLimit(cfg, c, issued);
      var t := TurnOf(cfg, c, issued);
      if t.more { LoopBelowLimit(cfg, t.core, t.issued); }
    }
  }

  /** A tick counts every command it works off as one instruction, except the EXIT or the end-of-simulation store that
      halts the core, and halts the core exactly at the instruction limit. */
  lemma TickCounts(cfg: Config, c: Core)
    requires ConfigOk(cfg) && BelowLimit(cfg, c)
    ensures (var d := Tick(cfg, c);
             && BelowLimit(cfg, d)
             && |d.popped| - |c.popped| - 1 <= d.count - c.count <= |d.popped| - |c.popped|
             && (d.count - c.count != |d.popped| - |c.popped| ==> d.halted))
  {
    if !(c.halted || c.dead) { LoopBelowLimit(cfg, Refilled(cfg, c), 0); }
  }
}
