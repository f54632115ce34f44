/** What a tick of a core leaves undone, and why (src/quetz_pipeline.cc, src/quetz_pipeline_transform.cc): it goes on
    until a limit is used up, a command owes stall cycles, or nothing is staged; and no request leaves the address
    space. */
module PipelineProgress {
  import opened LineMath
  import opened MemoryIssue
  import opened Trace
  import opened Pipeline
  import opened CommandRequests

  /** The bytes of a command do not end inside the 64-bit address space. */
  predicate Escapes(c: Command) { Touched(c) > 0 && c.addr + Touched(c) > 0x1_0000_0000_0000_0000 }

  predicate Inside(ps: seq<Piece>) {
    forall k {:trigger ps[k]} | 0 <= k < |ps| :: ps[k].addr + ps[k].size <= 0x1_0000_0000_0000_0000
  }

  /** The commands behind the head owe their whole latency, and the head no more than that. */
  predicate StallsOk(cfg: Config, q: seq<Event>)
    requires ConfigOk(cfg)
  {
    && (q != [] ==> q[0].stall <= StallOf(cfg.lat, q[0].cmd))
    && forall i {:trigger q[i]} | 1 <= i < |q| :: q[i].stall == StallOf(cfg.lat, q[i].cmd)
  }

  /** What the command at the head owed when the tick came to it: what was left if it was the head before the tick, and
      its whole latency if it has only just become the head. */
  function Owed(cfg: Config, before: Core, now: Core): nat
    requires ConfigOk(cfg) && now.q != []
  {
    if now.popped == before.popped && before.q != [] then before.q[0].stall else StallOf(cfg.lat, now.q[0].cmd)
  }

  /** Why a tick that left `now` went no further: the core has halted, nothing is staged, the access at the head leaves
      the address space, it is being issued and the tick's requests or the unanswered ones are at their limit, or the
      head owed stall cycles and has paid one. */
  predicate Exhausted(cfg: Config, before: Core, now: Core)
    requires ConfigOk(cfg)
  {
    || now.halted || now.q == []
    || (now.issuing && now.dead && Escapes(now.q[0].cmd))
    || (now.issuing && !now.dead
        && (|now.link.sent| - |before.link.sent| == cfg.maxIssue || PendingCount(now) == cfg.maxPending))
    || (!now.issuing && !now.dead && now.q[0].stall + 1 == Owed(cfg, before, now))
  }

  /** In the middle of the tick that began at `before`, with so many requests issued. */
  ghost predicate Midway(cfg: Config, before: Core, now: Core, issued: nat)
    requires ConfigOk(cfg)
  {
    && CoreOk(cfg, now) && !now.halted && !now.dead && issued <= cfg.maxIssue
    && |now.link.sent| - |before.link.sent| == issued && before.popped <= now.popped
    && StallsOk(cfg, now.q)
    && (now.q != [] && !now.issuing ==> now.q[0].stall == Owed(cfg, before, now))
  }

  lemma SpanEscapes(cfg: Config, c: Command)
    requires CommandOk(c) && Issues(cfg, c)
    ensures c.size > 0 && !SpanOk(OpOf(cfg, c)) <==> Escapes(c)
  {
  }

  lemma TailStalls(cfg: Config, q: seq<Event>)
    requires ConfigOk(cfg) && q != [] && StallsOk(cfg, q)
    ensures StallsOk(cfg, q[1..]) && (|q| > 1 ==> q[1..][0].stall == StallOf(cfg.lat, q[1..][0].cmd))
  {
    if |q| > 1 { assert q[1..][0] == q[1]; }
  }

  /** A command has been worked off, so the next one owes its whole latency. */
  lemma PopMidway(cfg: Config, before: Core, now: Core, next: Core, issued: nat, issued': nat)
    requires ConfigOk(cfg) && Midway(cfg, before, now, issued) && now.q != []
    requires CoreOk(cfg, next) && !next.halted && !next.dead && next.q == now.q[1..] && !next.issuing
    requires next.popped == now.popped + [now.q[0].cmd]
    requires issued' <= cfg.maxIssue && |next.link.sent| - |before.link.sent| == issued'
    ensures Midway(cfg, before, next, issued')
  {
    TailStalls(cfg, now.q);
    assert |next.popped| > |before.popped|;
  }

  lemma HeadMidway(cfg: Config, before: Core, now: Core, issued: nat)
    requires ConfigOk(cfg) && Midway(cfg, before, now, issued) && now.q != [] && !now.issuing
    ensures (var t := HeadTurn(cfg, now, issued);
             && StallsOk(cfg, t.core.q)
             && if t.more then Midway(cfg, before, t.core, t.issued) else Exhausted(cfg, before, t.core))
  {
    HeadTurnKeeps(cfg, now, issued);
    var t, cmd := HeadTurn(cfg, now, issued), now.q[0].cmd;
    TailStalls(cfg, now.q);
    if t.more && !t.core.issuing { PopMidway(cfg, before, now, t.core, issued, issued); }
  }

  lemma StoppedIssue(cfg: Config, before: Core, now: Core, issued: nat)
    requires ConfigOk(cfg) && Midway(cfg, before, now, issued) && now.issuing && IssueStops(cfg, now, issued)
    ensures Exhausted(cfg, before, IssueTurn(cfg, now, issued).core) && !IssueTurn(cfg, now, issued).more
    ensures IssueTurn(cfg, now, issued).core.q == now.q
  {
    SpanEscapes(cfg, now.q[0].cmd);
    AllAnswered(|now.link.sent|, now.link.answered);
  }

  lemma IssueMidway(cfg: Config, before: Core, now: Core, issued: nat)
    requires ConfigOk(cfg) && Midway(cfg, before, now, issued) && now.issuing && !IssueStops(cfg, now, issued)
    ensures (var t := IssueTurn(cfg, now, issued);
             && StallsOk(cfg, t.core.q)
             && if t.more then Midway(cfg, before, t.core, t.issued) else Exhausted(cfg, before, t.core))
  {
    IssueTurnKeeps(cfg, now, issued);
    IssueTurnCounts(cfg, now, issued);
    var t := IssueTurn(cfg, now, issued);
    TailStalls(cfg, now.q);
    AllAnswered(|now.link.sent|, now.link.answered);
    if t.more { PopMidway(cfg, before, now, t.core, issued, t.issued); }
  }

  lemma {:induction false} LoopExhausts(cfg: Config, before: Core, now: Core, issued: nat)
    requires ConfigOk(cfg) && Midway(cfg, before, now, issued)
    ensures Exhausted(cfg, before, Loop(cfg, now, issued)) && StallsOk(cfg, Loop(cfg, now, issued).q)
    decreases |now.q|, if now.issuing then 0 else 1
  {
    if now.q != [] {
      var t := TurnOf(cfg, now, issued);
      if now.issuing {
        if IssueStops(cfg, now, issued) { StoppedIssue(cfg, before, now, issued); }
        else { IssueMidway(cfg, before, now, issued); }
      } else {
        HeadMidway(cfg, before, now, issued);
      }
      if t.more { LoopExhausts(cfg, before, t.core, t.issued); }
    }
  }

  lemma RefilledMidway(cfg: Config, c: Core)
    requires ConfigOk(cfg) && CoreOk(cfg, c) && StallsOk(cfg, c.q) && !c.halted && !c.dead
    ensures Midway(cfg, c, Refilled(cfg, c), 0)
  {
    RefilledKeeps(cfg, c);
    var r := Refilled(cfg, c);
    forall i | |c.q| <= i < |r.q| ensures r.q[i].stall == StallOf(cfg.lat, r.q[i].cmd) {
      assert r.q[i] == Staged(cfg.lat, c.backlog[..Take(c.backlog, Room(c.q, cfg.cap))])[i - |c.q|];
    }
  }

  // ---------------------------------------------------------------- no request leaves the address space

  lemma RequestsInside(cfg: Config, c: Command)
    requires CommandOk(c) && SplitsAtLines(cfg) && Issues(cfg, c) && !Escapes(c)
    ensures Inside(Requests(cfg, c))
  {
    var op, ps := OpOf(cfg, c), Requests(cfg, c);
    assert SplitIs(cfg, op);
    if !op.isMmio {
      PiecesTile(op, cfg.line);
      forall k | 0 <= k < |ps| ensures ps[k].addr + ps[k].size <= 0x1_0000_0000_0000_0000 {
        assert PartOf(op, ps[k], cfg.line);
      }
    }
  }

  lemma SliceInside(sent: seq<Piece>, ps: seq<Piece>, from: nat, to: nat)
    requires from <= to <= |ps| && Inside(sent) && Inside(ps)
    ensures Inside(sent + ps[from..to])
  {
  }

  lemma AdvancedInside(c: Core, ps: seq<Piece>, n: nat)
    requires c.out + n <= |ps| && Inside(c.link.sent) && Inside(ps)
    ensures Inside(Advanced(c, ps, n).link.sent)
  {
    SliceInside(c.link.sent, ps, c.out, c.out + n);
  }

  lemma IssueInside(cfg: Config, c: Core, issued: nat)
    requires CoreOk(cfg, c) && c.issuing && issued <= cfg.maxIssue && SplitsAtLines(cfg) && Inside(c.link.sent)
    ensures Inside(IssueTurn(cfg, c, issued).core.link.sent)
  {
    if !IssueStops(cfg, c, issued) {
      var n := IssueTurnForm(cfg, c, issued);
      SpanEscapes(cfg, c.q[0].cmd);
      RequestsInside(cfg, c.q[0].cmd);
      AdvancedInside(c, Requests(cfg, c.q[0].cmd), n);
    }
  }

  lemma {:induction false} LoopInside(cfg: Config, c: Core, issued: nat)
    requires CoreOk(cfg, c) && issued <= cfg.maxIssue && SplitsAtLines(cfg) && Inside(c.link.sent)
    ensures Inside(Loop(cfg, c, issued).link.sent)
    decreases |c.q|, if c.issuing then 0 else 1
  {
    if c.q != [] {
      var t := TurnOf(cfg, c, issued);
      if c.issuing {
        IssueTurnKeeps(cfg, c, issued);
        IssueTurnCounts(cfg, c, issued);
        IssueInside(cfg, c, issued);
      } else {
        HeadTurnKeeps(cfg, c, issued);
      }
      if t.more { LoopInside(cfg, t.core, t.issued); }
    }
  }

  // ---------------------------------------------------------------- whole runs of a core

  lemma StepProgress(cfg: Config, c: Core, step: Step)
    requires ConfigOk(cfg) && SplitsAtLines(cfg) && CoreOk(cfg, c) && Enabled(c, step)
    requires StallsOk(cfg, c.q) && Inside(c.link.sent)
    ensures StallsOk(cfg, Next(cfg, c, step).q) && Inside(Next(cfg, c, step).link.sent)
  {
    if step.TickStep? && !c.halted && !c.dead {
      RefilledKeeps(cfg, c);
      RefilledMidway(cfg, c);
      LoopExhausts(cfg, c, Refilled(cfg, c), 0);
      LoopInside(cfg, Refilled(cfg, c), 0);
    }
  }

  lemma {:induction false} RunProgress(cfg: Config, c: Core, steps: seq<Step>)
    requires ConfigOk(cfg) && SplitsAtLines(cfg) && CoreOk(cfg, c) && Runs(cfg, c, steps)
    requires StallsOk(cfg, c.q) && Inside(c.link.sent)
    ensures (var d := After(cfg, c, steps); CoreOk(cfg, d) && StallsOk(cfg, d.q) && Inside(d.link.sent))
    decreases |steps|
  {
    if steps != [] {
      StepOk(cfg, c, steps[0]);
      StepProgress(cfg, c, steps[0]);
      RunProgress(cfg, Next(cfg, c, steps[0]), steps[1..]);
    }
  }

  /** In every run no request leaves the address space, and every tick of a running core works on until its queue is
      empty, the core halts, the access at the head leaves the address space, one of the two request limits is used up,
      or the head pays one of the stall cycles it owes; a command that becomes the head owes its whole latency. */
  lemma TickWorksOn(cfg: Config, c0: Core, steps: seq<Step>, c: Core)
    requires ConfigOk(cfg) && SplitsAtLines(cfg) && Fresh(c0) && Runs(cfg, c0, steps) && c == After(cfg, c0, steps)
    ensures Inside(c.link.sent)
    ensures !c.halted && !c.dead ==> Exhausted(cfg, c, Tick(cfg, c))
  {
    FreshOk(cfg, c0);
    RunProgress(cfg, c0, steps);
    if !c.halted && !c.dead {
      RefilledMidway(cfg, c);
      LoopExhausts(cfg, c, Refilled(cfg, c), 0);
    }
  }
}
