/** What the requests of one core say, command by command (src/quetz_pipeline_transform.cc,
    src/quetz_pipeline_output.cc, src/quetz_mem_issue.cc): which bytes each command on the ring reads or writes, and
    on which path. */
module CommandRequests {
  import opened MemoryIssue
  import opened Trace
  import opened Pipeline

  /** The data of a list of requests, one after the other. */
  function Sent(ps: seq<Piece>): seq<bv8> {
    if ps == [] then [] else Sent(ps[..|ps| - 1]) + ps[|ps| - 1].data
  }

  /** The bytes a command touches: a store carries at most the 64 that were captured. */
  function Touched(c: Command): nat { if c.kind.Read? || c.size < 64 then c.size else 64 }

  predicate OneLine(p: Piece, line: nat) { line > 0 ==> p.addr / line == (p.addr + p.size - 1) / line }

  /** One of a command's requests: of its kind, on the given path, nonempty, carrying as many bytes as it says. */
  predicate RequestOf(c: Command, mmio: bool, line: nat, p: Piece) {
    && p.isRead == c.kind.Read? && p.isMmio == mmio && p.size > 0
    && |p.data| == (if c.kind.Read? then 0 else p.size)
    && (!mmio ==> OneLine(p, line))
  }

  /** The requests of a command: all of its kind and on its path, from its address on without gap over the bytes it
      touches, one for the MMIO path and each inside one line otherwise; the stores carry its data. */
  predicate Carries(c: Command, mmio: bool, line: nat, ps: seq<Piece>)
    requires |c.data| == 64
  {
    && (ps == [] <==> c.size == 0) && (mmio ==> |ps| <= 1)
    && (forall k {:trigger RequestOf(c, mmio, line, ps[k])} | 0 <= k < |ps| :: RequestOf(c, mmio, line, ps[k]))
    && (ps != [] ==> ps[0].addr == c.addr && ps[|ps| - 1].addr + ps[|ps| - 1].size == c.addr + Touched(c))
    && (forall k: nat {:trigger Follows(ps, k)} | k < |ps| - 1 :: Follows(ps, k))
    && Sent(ps) == if c.kind.Read? then [] else c.data[..Touched(c)]
  }

  /** A command that goes to memory: a load or store whose region does not keep it. */
  predicate GoesOut(cfg: Config, c: Command) {
    (c.kind.Read? || c.kind.Write?) && (cfg.route(c).Forward? || cfg.route(c).ForwardMmio?)
  }

  lemma {:induction false} PartsSent(op: Op, ps: seq<Piece>, n: nat, line: nat)
    requires OpOk(op) && !op.isRead && n <= |ps| && Tiles(op, ps, line)
    ensures Sent(ps[..n]) == op.data[..EndOf(op, ps, n, line)]
    decreases n
  {
    if n > 0 {
      PartsSent(op, ps, n - 1, line);
      NextPart(op, ps, n, line);
      assert ps[..n][..n - 1] == ps[..n - 1] && ps[..n][n - 1] == ps[n - 1];
    }
  }

  /** How far the first n requests reach. */
  function EndOf(op: Op, ps: seq<Piece>, n: nat, line: nat): (e: nat)
    requires OpOk(op) && !op.isRead && n <= |ps| && Tiles(op, ps, line)
    ensures e <= |op.data|
  {
    if n == 0 then 0
    else
      assert PartOf(op, ps[n - 1], line);
      ps[n - 1].addr + ps[n - 1].size - op.addr
  }

  lemma NextPart(op: Op, ps: seq<Piece>, n: nat, line: nat)
    requires OpOk(op) && !op.isRead && 0 < n <= |ps| && Tiles(op, ps, line)
    ensures op.data[..EndOf(op, ps, n - 1, line)] + ps[n - 1].data == op.data[..EndOf(op, ps, n, line)]
  {
    var p := ps[n - 1];
    assert PartOf(op, p, line);
    if n > 1 { assert Follows(ps, n - 2); }
    var from := p.addr - op.addr;
    assert op.data[..from] + op.data[from..from + p.size] == op.data[..from + p.size];
  }

  lemma {:induction false} ReadsSent(ps: seq<Piece>)
    requires forall k | 0 <= k < |ps| :: ps[k].data == []
    ensures Sent(ps) == []
    decreases |ps|
  {
    if ps != [] { ReadsSent(ps[..|ps| - 1]); }
  }

  lemma PartRequest(op: Op, c: Command, p: Piece, line: nat)
    requires OpOk(op) && op.isRead == c.kind.Read? && !op.isMmio && PartOf(op, p, line) && !p.isMmio
    ensures RequestOf(c, false, line, p)
  {
    if line > 0 { WithinLine(p.addr, p.size, line); }
  }

  lemma CachedSent(op: Op, ps: seq<Piece>, line: nat)
    requires OpOk(op) && Tiles(op, ps, line)
    ensures Sent(ps) == if op.isRead then [] else op.data[..IssueSize(op)]
  {
    if op.isRead {
      forall k | 0 <= k < |ps| ensures ps[k].data == [] { assert PartOf(op, ps[k], line); }
      ReadsSent(ps);
    } else {
      PartsSent(op, ps, |ps|, line);
      assert ps[..|ps|] == ps;
    }
  }

  lemma NotMmio(op: Op, line: nat, k: nat)
    requires OpOk(op) && !op.isMmio && k < |Pieces(op, line)|
    ensures !Pieces(op, line)[k].isMmio
  {
  }

  lemma CachedCarries(cfg: Config, c: Command)
    requires CommandOk(c) && SplitsAtLines(cfg) && GoesOut(cfg, c) && cfg.route(c).Forward?
    ensures Carries(c, false, cfg.line, Requests(cfg, c))
  {
    var op := OpOf(cfg, c);
    assert SplitIs(cfg, op);
    TilesCarry(op, c, cfg.line);
  }

  lemma TilesCarry(op: Op, c: Command, line: nat)
    requires OpOk(op) && !op.isMmio && op.isRead == c.kind.Read?
    requires op.addr == c.addr && op.size == c.size && op.data == c.data
    ensures Carries(c, false, line, Pieces(op, line))
  {
    var ps := Pieces(op, line);
    PiecesTile(op, line);
    forall k | 0 <= k < |ps| ensures RequestOf(c, false, line, ps[k]) {
      NotMmio(op, line, k);
      PartRequest(op, c, ps[k], line);
    }
    CachedSent(op, ps, line);
  }

  lemma MmioCarries(cfg: Config, c: Command)
    requires CommandOk(c) && SplitsAtLines(cfg) && GoesOut(cfg, c) && cfg.route(c).ForwardMmio?
    ensures Carries(c, true, cfg.line, Requests(cfg, c))
  {
    var op := OpOf(cfg, c);
    assert SplitIs(cfg, op);
    var ps := Requests(cfg, c);
    if c.size > 0 {
      assert ps == [MmioPiece(op)];
      assert Sent(ps) == Sent([]) + ps[0].data;
    }
  }

  /** A command that goes out makes exactly its own requests; any other makes none. */
  lemma RequestsCarry(cfg: Config, c: Command)
    requires CommandOk(c) && SplitsAtLines(cfg)
    ensures if GoesOut(cfg, c) then Carries(c, cfg.route(c).ForwardMmio?, cfg.line, Requests(cfg, c))
            else Requests(cfg, c) == []
  {
    if GoesOut(cfg, c) {
      if cfg.route(c).Forward? { CachedCarries(cfg, c); } else { MmioCarries(cfg, c); }
    }
  }

  // ---------------------------------------------------------------- whole runs of a core

  /** The stretch of the requests that belongs to the k-th command. */
  predicate StretchOk(cfg: Config, cmds: seq<Command>, sent: seq<Piece>, cuts: seq<nat>, k: nat)
    requires k < |cmds| && |cuts| == |cmds| + 1
  {
    && cuts[k] <= cuts[k + 1] <= |sent| && |cmds[k].data| == 64
    && (if GoesOut(cfg, cmds[k]) then Carries(cmds[k], cfg.route(cmds[k]).ForwardMmio?, cfg.line,
                                              sent[cuts[k]..cuts[k + 1]])
        else cuts[k] == cuts[k + 1])
  }

  /** The requests are those of the commands, command by command. */
  predicate Divided(cfg: Config, cmds: seq<Command>, sent: seq<Piece>, cuts: seq<nat>) {
    && |cuts| == |cmds| + 1 && cuts[0] == 0 && cuts[|cmds|] <= |sent|
    && forall k: nat {:trigger StretchOk(cfg, cmds, sent, cuts, k)} | k < |cmds| :: StretchOk(cfg, cmds, sent, cuts, k)
  }

  lemma {:induction false} FlatDivided(cfg: Config, cmds: seq<Command>) returns (cuts: seq<nat>)
    requires AllOk(cmds) && SplitsAtLines(cfg)
    ensures Divided(cfg, cmds, Flat(cfg, cmds), cuts) && cuts[|cmds|] == |Flat(cfg, cmds)|
    decreases |cmds|
  {
    if cmds == [] {
      cuts := [0];
    } else {
      var front, c := cmds[..|cmds| - 1], cmds[|cmds| - 1];
      var before := FlatDivided(cfg, front);
      cuts := before + [|Flat(cfg, cmds)|];
      RequestsCarry(cfg, c);
      assert front + [c] == cmds;
      FlatSnoc(cfg, front, c);
      OneMoreCommand(cfg, front, c, Flat(cfg, front), Requests(cfg, c), before);
    }
  }

  lemma OneMoreCommand(cfg: Config, front: seq<Command>, c: Command, flat: seq<Piece>, own: seq<Piece>,
                       before: seq<nat>)
    requires |c.data| == 64 && Divided(cfg, front, flat, before) && before[|front|] == |flat|
    requires if GoesOut(cfg, c) then Carries(c, cfg.route(c).ForwardMmio?, cfg.line, own) else own == []
    ensures Divided(cfg, front + [c], flat + own, before + [|flat| + |own|])
  {
    var cmds, cuts := front + [c], before + [|flat| + |own|];
    forall k: nat | k < |cmds| ensures StretchOk(cfg, cmds, flat + own, cuts, k) {
      if k < |front| {
        assert StretchOk(cfg, front, flat, before, k);
        EarlierStretch(cfg, front, c, flat, own, before, |flat| + |own|, k);
      } else {
        LastStretch(cfg, front, c, flat, own, before);
      }
    }
  }

  lemma LastStretch(cfg: Config, front: seq<Command>, c: Command, flat: seq<Piece>, own: seq<Piece>, before: seq<nat>)
    requires |before| == |front| + 1 && before[|front|] == |flat| && |c.data| == 64
    requires if GoesOut(cfg, c) then Carries(c, cfg.route(c).ForwardMmio?, cfg.line, own) else own == []
    ensures StretchOk(cfg, front + [c], flat + own, before + [|flat| + |own|], |front|)
  {
    assert (flat + own)[|flat|..|flat| + |own|] == own;
  }

  lemma EarlierStretch(cfg: Config, front: seq<Command>, c: Command, flat: seq<Piece>, own: seq<Piece>,
                       before: seq<nat>, last: nat, k: nat)
    requires k < |front| && |before| == |front| + 1 && StretchOk(cfg, front, flat, before, k)
    ensures StretchOk(cfg, front + [c], flat + own, before + [last], k)
  {
    assert (flat + own)[before[k]..before[k + 1]] == flat[before[k]..before[k + 1]];
  }

  lemma DividedMore(cfg: Config, cmds: seq<Command>, sent: seq<Piece>, more: seq<Piece>, cuts: seq<nat>)
    requires Divided(cfg, cmds, sent, cuts)
    ensures Divided(cfg, cmds, sent + more, cuts)
  {
    forall k: nat | k < |cmds| ensures StretchOk(cfg, cmds, sent + more, cuts, k) {
      assert StretchOk(cfg, cmds, sent, cuts, k);
      assert (sent + more)[cuts[k]..cuts[k + 1]] == sent[cuts[k]..cuts[k + 1]];
    }
  }

  datatype Step = PutStep(cmd: Command) | TickStep | AnswerStep(id: nat)

  predicate Enabled(c: Core, step: Step) {
    match step
    case PutStep(cmd) => AllOk(ExpandOne(cmd))
    case TickStep => true
    case AnswerStep(id) => Outstanding(c.link, id)
  }

  function Next(cfg: Config, c: Core, step: Step): Core
    requires ConfigOk(cfg)
  {
    match step
    case PutStep(cmd) => Put(c, cmd)
    case TickStep => Tick(cfg, c)
    case AnswerStep(id) => Answer(c, id)
  }

  predicate Runs(cfg: Config, c: Core, steps: seq<Step>)
    requires ConfigOk(cfg)
    decreases |steps|
  {
    steps == [] || (Enabled(c, steps[0]) && Runs(cfg, Next(cfg, c, steps[0]), steps[1..]))
  }

  function After(cfg: Config, c: Core, steps: seq<Step>): Core
    requires ConfigOk(cfg) && Runs(cfg, c, steps)
    decreases |steps|
  {
    if steps == [] then c else After(cfg, Next(cfg, c, steps[0]), steps[1..])
  }

  function PutBy(step: Step): seq<Command> { if step.PutStep? then ExpandOne(step.cmd) else [] }

  /** Everything the guest has put on the ring in a run, instruction by instruction. */
  function RingOf(steps: seq<Step>): seq<Command> { if steps == [] then [] else PutBy(steps[0]) + RingOf(steps[1..]) }

  lemma {:induction false} RunOk(cfg: Config, c: Core, steps: seq<Step>)
    requires ConfigOk(cfg) && CoreOk(cfg, c) && Runs(cfg, c, steps)
    ensures CoreOk(cfg, After(cfg, c, steps)) && Streamed(After(cfg, c, steps)) == Streamed(c) + RingOf(steps)
    decreases |steps|
  {
    if steps == [] {
      assert Streamed(c) + [] == Streamed(c);
    } else {
      StepOk(cfg, c, steps[0]);
      RunOk(cfg, Next(cfg, c, steps[0]), steps[1..]);
      Assoc(Streamed(c), PutBy(steps[0]), RingOf(steps[1..]));
    }
  }

  lemma Assoc(a: seq<Command>, b: seq<Command>, c: seq<Command>)
    ensures a + b + c == a + (b + c)
  {
  }

  lemma StepOk(cfg: Config, c: Core, step: Step)
    requires ConfigOk(cfg) && CoreOk(cfg, c) && Enabled(c, step)
    ensures CoreOk(cfg, Next(cfg, c, step))
    ensures Streamed(Next(cfg, c, step)) == Streamed(c) + PutBy(step)
  {
    match step
    case PutStep(cmd) => PutKeeps(cfg, c, cmd);
    case TickStep => TickKeeps(cfg, c);
    case AnswerStep(id) => AnswerKeeps(cfg, c, id);
  }

  /** In every run of a core: the commands it has worked off are a prefix of what was put on its ring, in order, and
      the requests it has sent are theirs: stretch by stretch, those of the loads and stores whose region forwards
      them, each of its command's kind and path, over its command's bytes and with its command's data. What is left
      over is the beginning of such a stretch for the next command. */
  lemma RequestsAreTheCommands(cfg: Config, c0: Core, steps: seq<Step>) returns (cuts: seq<nat>, pending: seq<Piece>)
    requires ConfigOk(cfg) && SplitsAtLines(cfg) && Fresh(c0) && Runs(cfg, c0, steps)
    ensures (var c := After(cfg, c0, steps);
             && c.popped <= RingOf(steps) && Divided(cfg, c.popped, c.link.sent, cuts)
             && c.link.sent[cuts[|c.popped|]..] <= pending
             && (pending != [] ==>
                   && |c.popped| < |RingOf(steps)| && |RingOf(steps)[|c.popped|].data| == 64
                   && var next := RingOf(steps)[|c.popped|];
                      GoesOut(cfg, next) && Carries(next, cfg.route(next).ForwardMmio?, cfg.line, pending)))
  {
    FreshOk(cfg, c0);
    RunOk(cfg, c0, steps);
    var c := After(cfg, c0, steps);
    assert [] + RingOf(steps) == RingOf(steps);
    cuts, pending := CoreDivided(cfg, c);
  }

  lemma FreshOk(cfg: Config, c: Core)
    requires ConfigOk(cfg) && Fresh(c)
    ensures CoreOk(cfg, c) && Streamed(c) == []
  {
  }

  lemma CoreDivided(cfg: Config, c: Core) returns (cuts: seq<nat>, pending: seq<Piece>)
    requires CoreOk(cfg, c) && SplitsAtLines(cfg)
    ensures c.popped <= Streamed(c) && Divided(cfg, c.popped, c.link.sent, cuts)
    ensures c.link.sent[cuts[|c.popped|]..] <= pending
    ensures pending != [] ==>
              && |c.popped| < |Streamed(c)| && |Streamed(c)[|c.popped|].data| == 64
              && var next := Streamed(c)[|c.popped|];
                 GoesOut(cfg, next) && Carries(next, cfg.route(next).ForwardMmio?, cfg.line, pending)
  {
    forall i | 0 <= i < |c.popped| ensures CommandOk(c.popped[i]) { assert Streamed(c)[i] == c.popped[i]; }
    cuts := FlatDivided(cfg, c.popped);
    DividedMore(cfg, c.popped, Flat(cfg, c.popped), Partial(cfg, c), cuts);
    pending := [];
    if c.issuing {
      pending := Requests(cfg, c.q[0].cmd);
      assert Streamed(c)[|c.popped|] == c.q[0].cmd;
      RequestsCarry(cfg, c.q[0].cmd);
    }
  }

  // ---------------------------------------------------------------- when a core halts

  /** A command that ends the run of its core: EXIT, or an access to a region that ends the simulation. */
  predicate Ends(cfg: Config, c: Command) { c.kind.Exit? || ((c.kind.Read? || c.kind.Write?) && cfg.route(c).EndSim?) }

  predicate EndsLast(cfg: Config, cmds: seq<Command>) { cmds != [] && Ends(cfg, cmds[|cmds| - 1]) }

  /** Nothing is worked off after a command that ends the run; every other one counts as an instruction; the core is
      halted exactly if it has met such a command or reached the limit, and has exited exactly if that command was
      EXIT. */
  predicate HaltOk(cfg: Config, c: Core) {
    && (forall i {:trigger c.popped[i]} | 0 <= i < |c.popped| - 1 :: !Ends(cfg, c.popped[i]))
    && c.count + Bit(EndsLast(cfg, c.popped)) == |c.popped|
    && (c.halted <==> EndsLast(cfg, c.popped) || (cfg.maxInsts > 0 && c.count >= cfg.maxInsts))
    && (c.guestExit <==> c.popped != [] && c.popped[|c.popped| - 1].kind.Exit?)
  }

  function Bit(b: bool): nat { if b then 1 else 0 }

  lemma RetireHalts(cfg: Config, c: Core)
    requires c.q != [] && HaltOk(cfg, c) && !c.halted && !Ends(cfg, c.q[0].cmd)
    ensures HaltOk(cfg, Pipeline.Retire(cfg, c))
  {
  }

  lemma EndHalts(cfg: Config, c: Core)
    requires c.q != [] && HaltOk(cfg, c) && !c.halted && Ends(cfg, c.q[0].cmd)
    ensures (var cmd := c.q[0].cmd;
             HaltOk(cfg, c.(q := c.q[1..], popped := c.popped + [cmd], halted := true, guestExit := cmd.kind.Exit?)))
  {
  }

  /** Only what has been worked off matters. */
  lemma SameHalt(cfg: Config, c: Core, d: Core)
    requires HaltOk(cfg, c) && d.popped == c.popped && d.count == c.count && d.halted == c.halted
    requires d.guestExit == c.guestExit
    ensures HaltOk(cfg, d)
  {
  }

  lemma HeadHalts(cfg: Config, c: Core, issued: nat)
    requires c.q != [] && HaltOk(cfg, c) && !c.halted
    ensures HaltOk(cfg, HeadTurn(cfg, c, issued).core)
  {
    if Ends(cfg, c.q[0].cmd) {
      EndHalts(cfg, c);
    } else {
      RetireHalts(cfg, c);
      SameHalt(cfg, c, c.(issuing := true, out := 0));
    }
  }

  lemma IssueHalts(cfg: Config, c: Core, issued: nat)
    requires CoreOk(cfg, c) && c.issuing && issued <= cfg.maxIssue && HaltOk(cfg, c) && !c.halted
    ensures HaltOk(cfg, IssueTurn(cfg, c, issued).core)
  {
    if IssueStops(cfg, c, issued) {
      SameHalt(cfg, c, IssueTurn(cfg, c, issued).core);
    } else {
      var n := IssueTurnForm(cfg, c, issued);
      var d := Advanced(c, Requests(cfg, c.q[0].cmd), n);
      SameHalt(cfg, c, d);
      SameHalt(cfg, d, d.(issuing := false, out := 0));
      RetireHalts(cfg, d.(issuing := false, out := 0));
    }
  }

  lemma {:induction false} LoopHalts(cfg: Config, c: Core, issued: nat)
    requires CoreOk(cfg, c) && issued <= cfg.maxIssue && HaltOk(cfg, c) && !c.halted
    ensures HaltOk(cfg, Loop(cfg, c, issued))
    decreases |c.q|, if c.issuing then 0 else 1
  {
    if c.q != [] {
      var t := TurnOf(cfg, c, issued);
      if c.issuing {
        IssueTurnKeeps(cfg, c, issued);
        IssueTurnCounts(cfg, c, issued);
        IssueHalts(cfg, c, issued);
      } else {
        HeadTurnKeeps(cfg, c, issued);
        HeadHalts(cfg, c, issued);
      }
      if t.more { GoesOn(cfg, c, issued); LoopHalts(cfg, t.core, t.issued); }
    }
  }

  lemma GoesOn(cfg: Config, c: Core, issued: nat)
    requires c.q != [] && !c.halted && TurnOf(cfg, c, issued).more
    ensures !TurnOf(cfg, c, issued).core.halted
  {
  }

  lemma StepHalts(cfg: Config, c: Core, step: Step)
    requires ConfigOk(cfg) && CoreOk(cfg, c) && Enabled(c, step) && HaltOk(cfg, c)
    ensures HaltOk(cfg, Next(cfg, c, step))
  {
    if step.TickStep? && !c.halted && !c.dead {
      RefilledKeeps(cfg, c);
      SameHalt(cfg, c, Refilled(cfg, c));
      LoopHalts(cfg, Refilled(cfg, c), 0);
    } else {
      SameHalt(cfg, c, Next(cfg, c, step));
    }
  }

  lemma {:induction false} RunHalts(cfg: Config, c: Core, steps: seq<Step>)
    requires ConfigOk(cfg) && CoreOk(cfg, c) && Runs(cfg, c, steps) && HaltOk(cfg, c)
    ensures HaltOk(cfg, After(cfg, c, steps))
    decreases |steps|
  {
    if steps != [] {
      StepOk(cfg, c, steps[0]);
      StepHalts(cfg, c, steps[0]);
      RunHalts(cfg, Next(cfg, c, steps[0]), steps[1..]);
    }
  }

  /** In every run a core halts exactly at the first command that ends its run, or at the instruction limit; nothing
      is worked off after that, everything before it counts as one instruction, and it reports an exit exactly for
      EXIT. */
  lemma HaltsExactly(cfg: Config, c0: Core, steps: seq<Step>)
    requires ConfigOk(cfg) && Fresh(c0) && Runs(cfg, c0, steps)
    ensures HaltOk(cfg, After(cfg, c0, steps))
  {
    FreshOk(cfg, c0);
    assert !EndsLast(cfg, c0.popped);
    RunHalts(cfg, c0, steps);
  }
}
