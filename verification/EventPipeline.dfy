/** The pipeline as an object over its input stage and its request emitter, proved against Pipeline. */
module EventPipelineObject {
  import opened Trace
  import opened MemoryIssue
  import opened Pipeline

  class EventPipeline {
    const cfg: Config
    const input: PipelineInput
    const emitter: MemRequestEmitter
    var q: seq<Event>
    var hitCap: bool
    var issuing: bool
    var op: Op
    var offset: nat
    var count: nat
    var halted: bool
    var guestExit: bool
    var dead: bool
    ghost var out: nat
    ghost var backlog: seq<Command>
    ghost var popped: seq<Command>

    ghost function State(): Core
      reads this, emitter
    {
      Core(backlog, q, hitCap, issuing, out, emitter.link, count, halted, guestExit, dead, popped)
    }

    /** The pending operation is the head's, and the cursor stands after the requests already sent. */
    ghost predicate CursorOk()
      reads this
    {
      && (issuing ==> q != [] && op == OpOf(cfg, q[0].cmd) && OpOk(op) && Placed())
      && (!issuing ==> offset == 0)
    }

    ghost predicate Placed()
      reads this`op, this`offset, this`out
    {
      forall k {:trigger CursorAt(op, cfg.line, offset, k)} | k == out :: CursorAt(op, cfg.line, offset, k)
    }

    ghost predicate PartsOk()
      reads this, input, emitter
    {
      && ConfigOk(cfg) && SplitsAtLines(cfg)
      && input.Valid() && input.lat == cfg.lat && backlog == Backlog(input.State())
      && emitter.Valid() && emitter.line == cfg.line
      && CursorOk()
    }

    ghost predicate Valid()
      reads this, input, emitter
    {
      PartsOk() && CoreOk(cfg, State())
    }

    constructor (config: Config)
      requires ConfigOk(config) && SplitsAtLines(config)
      ensures Valid() && cfg == config && fresh(input) && fresh(emitter) && Pipeline.Fresh(State())
    {
      cfg := config;
      input := new PipelineInput(config.lat);
      emitter := new MemRequestEmitter(config.line);
      q, hitCap, issuing, offset, count, halted, guestExit, dead := [], false, false, 0, 0, false, false, false;
      op := Op(true, false, 0, 0, Repeat(0, DATA_CAP));
      out, backlog, popped := 0, [], [];
    }

    /** The answer the accelerator port waits for. */
    method IsDrained() returns (drained: bool)
      requires Valid()
      ensures drained == Pipeline.IsDrained(State())
    {
      drained := emitter.pendingCount == 0 && (halted || (q == [] && !hitCap));
    }

    method Retire()
      requires q != []
      modifies this`q, this`count, this`halted, this`popped
      ensures State() == Pipeline.Retire(cfg, old(State()))
    {
      popped := popped + [q[0].cmd];
      q := q[1..];
      count := count + 1;
      if cfg.maxInsts > 0 && count >= cfg.maxInsts { halted := true; }
    }

    /** Sends what fits of the pending operation and moves the cursor, back to zero once it is complete. */
    method IssueAvailable(budget: nat) returns (ok: bool, n: nat, complete: bool)
      requires emitter.Valid() && emitter.line == cfg.line && SplitsAtLines(cfg) && OpOk(op) && budget > 0
      requires Placed() && out <= |cfg.split(op)|
      modifies this`offset, this`out, emitter
      ensures emitter.Valid() && ok == (op.size == 0 || SpanOk(op))
      ensures n == if ok then Min(budget, |cfg.split(op)| - old(out)) else 0
      ensures out == old(out) + n && (ok ==> complete == (out == |cfg.split(op)|))
      ensures emitter.link == old(emitter.link).(sent := old(emitter.link.sent) + cfg.split(op)[old(out)..old(out) + n])
      ensures if ok && complete then offset == 0 else Placed()
    {
      assert SplitIs(cfg, op) && CursorAt(op, cfg.line, offset, out);
      var at;
      ok, at, n := emitter.IssueWindow(op, offset, budget, out);
      out := out + n;
      complete := at == op.size;
      offset := if ok && complete then 0 else at;
    }

    /** Issues what fits of the pending operation. `fatal` stands for the two checks on the output stage. */
    method IssueMemOp(issued: nat) returns (issued': nat, more: bool, fatal: bool)
      requires emitter.Valid() && emitter.line == cfg.line && SplitsAtLines(cfg) && CursorOk()
      requires issuing && Issues(cfg, q[0].cmd) && out <= |cfg.split(op)|
      modifies this`offset, this`out, this`dead, this`issuing, this`q, this`count, this`halted, this`popped, emitter
      ensures emitter.Valid() && CursorOk() && !fatal
      ensures Turn(State(), issued', more) == IssueTurn(cfg, old(State()), issued)
    {
      var pending := emitter.pendingCount;
      var budget := IssueBudget(issued);
      issued', more, fatal := issued, false, false;
      if budget == 0 { return; }
      var n, complete := SendTurn(issued, budget);
      if op.size > 0 && !SpanOk(op) { return; }
      fatal := n > budget || (!complete && n == 0 && issued == 0 && pending == 0);
      issued' := issued + n;
      if complete { more := Complete(); }
    }

    /** What the issue and pending limits leave. */
    method IssueBudget(issued: nat) returns (budget: nat)
      requires emitter.Valid()
      ensures budget == Budget(cfg, State(), issued)
    {
      budget := Min(if issued < cfg.maxIssue then cfg.maxIssue - issued else 0,
                    if emitter.pendingCount < cfg.maxPending then cfg.maxPending - emitter.pendingCount else 0);
    }

    /** A turn but for its last step, the completion. */
    method SendTurn(issued: nat, budget: nat) returns (n: nat, complete: bool)
      requires emitter.Valid() && emitter.line == cfg.line && SplitsAtLines(cfg) && CursorOk()
      requires issuing && Issues(cfg, q[0].cmd) && out <= |cfg.split(op)| && budget == Budget(cfg, State(), issued) > 0
      modifies this`offset, this`out, this`dead, emitter
      ensures emitter.Valid() && n <= budget && (if complete then offset == 0 else CursorOk())
      ensures op.size == 0 || SpanOk(op) ==> complete || n > 0
      ensures IssueTurn(cfg, old(State()), issued)
           == if complete then Turn(Completed(cfg, State()), issued + n, !Completed(cfg, State()).halted)
              else Turn(State(), issued + n, false)
    {
      ghost var c, ps := State(), cfg.split(op);
      n, complete := SendWindow(budget);
      WindowIsTurn(cfg, c, issued, budget, ps, State(), n, complete);
    }

    /** Sends one window, or stops on an access that wraps. */
    method SendWindow(budget: nat) returns (n: nat, complete: bool)
      requires emitter.Valid() && emitter.line == cfg.line && SplitsAtLines(cfg) && CursorOk() && budget > 0
      requires issuing && out <= |cfg.split(op)|
      modifies this`offset, this`out, this`dead, emitter
      ensures emitter.Valid() && (if complete then offset == 0 else CursorOk())
      ensures Window(cfg, old(State()), budget, cfg.split(op), State(), n, complete)
    {
      var ok;
      ok, n, complete := IssueAvailable(budget);
      if !ok { dead, complete := true, false; }
    }

    method Complete() returns (more: bool)
      requires q != []
      modifies this`issuing, this`out, this`q, this`count, this`halted, this`popped
      ensures !issuing && State() == Completed(cfg, old(State())) && more == !halted
    {
      issuing, out := false, 0;
      Retire();
      more := !halted;
    }

    /** Looks at the head of the queue. */
    method HeadStep() returns (more: bool)
      requires CursorOk() && !issuing && out == 0 && q != [] && CommandOk(q[0].cmd)
      modifies this`q, this`count, this`halted, this`popped, this`guestExit, this`op, this`issuing, this`out
      ensures CursorOk()
      ensures forall issued: nat :: Turn(State(), issued, more) == HeadTurn(cfg, old(State()), issued)
    {
      var ev := q[0];
      if ActionOf(cfg, ev.cmd).Consume? {
        Retire();
        return !halted;
      }
      if ev.cmd.kind.Exit? || ActionOf(cfg, ev.cmd).EndSim? {
        guestExit, halted := ev.cmd.kind.Exit?, true;
        popped := popped + [ev.cmd];
        q := q[1..];
        return false;
      }
      if ev.stall > 0 {
        q := [ev.(stall := ev.stall - 1)] + q[1..];
        return false;
      }
      if ev.cmd.kind.Nop? {
        Retire();
        return !halted;
      }
      op, issuing, out := OpOf(cfg, ev.cmd), true, 0;
      CursorStart(op, cfg.line);
      more := true;
    }

    method RefillQueue()
      requires ConfigOk(cfg) && input.Valid() && input.lat == cfg.lat && backlog == Backlog(input.State()) && CursorOk()
      modifies this`q, this`hitCap, this`backlog, input
      ensures input.Valid() && backlog == Backlog(input.State()) && CursorOk()
      ensures State() == Refilled(cfg, old(State()))
    {
      ghost var before := q;
      FillQueue();
      if issuing { assert q[0] == before[0]; }
    }

    method FillQueue()
      requires ConfigOk(cfg) && input.Valid() && input.lat == cfg.lat && backlog == Backlog(input.State())
      modifies this`q, this`hitCap, this`backlog, input
      ensures input.Valid() && backlog == Backlog(input.State()) && old(q) <= q
      ensures State() == Refilled(cfg, old(State()))
    {
      PlainRefillTakes(cfg.lat, q, cfg.cap, backlog);
      var sawExit;
      q, sawExit := input.Refill(q, cfg.cap);
      backlog := Backlog(input.State());
      hitCap := cfg.cap > 0 && |q| >= cfg.cap;
    }

    method TurnStep(issued: nat) returns (issued': nat, more: bool, fatal: bool)
      requires Valid() && q != [] && issued <= cfg.maxIssue
      modifies this, emitter
      ensures Valid() && !fatal && issued' <= cfg.maxIssue
      ensures Turn(State(), issued', more) == TurnOf(cfg, old(State()), issued)
    {
      ghost var c := State();
      if issuing {
        IssueTurnKeeps(cfg, c, issued);
        IssueTurnCounts(cfg, c, issued);
        issued', more, fatal := IssueMemOp(issued);
      } else {
        HeadOk(cfg, c);
        HeadTurnKeeps(cfg, c, issued);
        issued', fatal := issued, false;
        more := HeadStep();
      }
    }

    /** One tick is the specified one, and neither check on the output stage can fire. */
    method Tick() returns (fatal: bool)
      requires Valid()
      modifies this, input, emitter
      ensures Valid() && !fatal
      ensures State() == Pipeline.Tick(cfg, old(State()))
    {
      fatal := false;
      if halted || dead { return; }
      RefilledKeeps(cfg, State());
      RefillQueue();
      ghost var goal := Loop(cfg, State(), 0);
      var issued: nat, more := 0, true;
      while more && q != []
        invariant Valid() && !fatal && issued <= cfg.maxIssue
        invariant (if more then Loop(cfg, State(), issued) else State()) == goal
        decreases more, |q|, !issuing
      {
        issued, more, fatal := TurnStep(issued);
      }
    }

    method HandleResponse(id: nat) returns (known: bool)
      requires Valid()
      modifies emitter
      ensures Valid() && known == Outstanding(old(emitter.link), id)
      ensures State() == if known then Answer(old(State()), id) else old(State())
    {
      known := emitter.HandleResponse(id);
      if known { AnswerKeeps(cfg, old(State()), id); }
    }
  }
}
