/** Calls through the mailbox can be finished (qemu-overlay/quetz_ipc_client.c, src/qemu_plugin/instrument.cpp): from
    every state of every run there is a way on in which a given call returns, with the answer the device chooses. */
module MailboxProgress {
  import opened Mailbox

  /** How many steps of the holder and the simulator the holder's call still takes. */
  function Left(s: State): nat {
    if !s.shared.busy || s.holder >= |s.clients| then 0
    else
      match s.clients[s.holder].pc
      case CheckPending => 20
      case ClearReady => 20
      case CheckReady => 19
      case ClearValue => 19
      case PutAddr => 18
      case PutSize => 17
      case PutVal => 16
      case PutCmd => 15
      case Publish => 14
      case Waiting => 4 + InServer(s)
      case TakeValue => 3
      case Consume => 2
      case Unlock => 1
      case _ => 0
  }

  /** ... and how many of those until its answer is there. */
  function InServer(s: State): nat {
    match s.server
    case Poll => if s.shared.pending then 9 else if s.taken != [] then 3 else 0
    case LoadCmd => 8
    case LoadAddr(_) => 7
    case LoadSize(_, _) => 6
    case LoadVal(_, _, _) => 5
    case Take(_) => 4
    case PostValue(_, _) => 2
    case PostReady(_, _) => 1
  }

  /** The step to take: the holder's, unless it waits for an answer that is not there yet. */
  function Forward(s: State, answer: nat): Step
    requires s.holder < |s.clients|
  {
    if !s.clients[s.holder].pc.Waiting? || s.shared.ready then ClientStep(s.holder)
    else if s.server.Poll? && !s.shared.pending then Respond(0, answer)
    else ServerStep
  }

  /** The answer that is under way or there already, if there is one. */
  predicate Promised(s: State, answer: nat)
    requires s.holder < |s.clients|
  {
    var c := s.clients[s.holder];
    && (c.pc.Waiting? && s.server.PostValue? ==> s.server.answer == answer)
    && (c.pc.Waiting? && s.server.PostReady? ==> s.server.answer == answer)
    && ((c.pc.Waiting? && s.shared.ready) || c.pc.TakeValue? ==> s.shared.value == answer)
    && (c.pc in {Consume, Unlock} && c.kind.Mmio? ==> c.got == answer)
  }

  /** The holder's call is the same, one step nearer to its end. */
  predicate Nearer(s: State, t: State) {
    && t.shared.busy && s.holder < |s.clients| && t.holder == s.holder < |t.clients| && |t.clients| == |s.clients|
    && t.clients[t.holder].kind == s.clients[s.holder].kind && t.clients[t.holder].want == s.clients[s.holder].want
    && (forall i | 0 <= i < |s.clients| && i != s.holder :: t.clients[i] == s.clients[i])
    && t.done == s.done && Left(t) < Left(s)
  }

  /** It has returned. */
  predicate Returned(s: State, t: State, answer: nat) {
    && !t.shared.busy && s.holder < |s.clients| == |t.clients| && t.clients[s.holder].pc.Outside?
    && (forall i | 0 <= i < |s.clients| && i != s.holder :: t.clients[i] == s.clients[i])
    && |t.done| == |s.done| + 1 && t.done[..|s.done|] == s.done
    && var f, c := t.done[|s.done|], s.clients[s.holder];
       f.kind == c.kind && f.request == c.want && (c.kind.Mmio? ==> f.value == answer)
  }

  lemma ForwardStep(s: State, answer: nat)
    requires Inv(s) && s.shared.busy && Promised(s, answer)
    ensures Enabled(s, Forward(s, answer))
    ensures (var t := Next(s, Forward(s, answer));
             Inv(t) && if t.shared.busy then Nearer(s, t) && Promised(t, answer) else Returned(s, t, answer))
  {
    StepEnabled(s, answer);
    StepKeeps(s, Forward(s, answer));
    if Forward(s, answer).ClientStep? { ClientForward(s, answer); } else { ServerForward(s, answer); }
  }

  lemma StepEnabled(s: State, answer: nat)
    requires Inv(s) && s.shared.busy
    ensures Enabled(s, Forward(s, answer))
  {
  }

  lemma ClientForward(s: State, answer: nat)
    requires Inv(s) && s.shared.busy && Promised(s, answer) && Forward(s, answer) == ClientStep(s.holder)
    ensures Enabled(s, ClientStep(s.holder))
    ensures (var t := ClientNext(s, s.holder);
             if t.shared.busy then Nearer(s, t) && Promised(t, answer) else Returned(s, t, answer))
  {
  }

  lemma ServerForward(s: State, answer: nat)
    requires Inv(s) && s.shared.busy && Promised(s, answer) && !Forward(s, answer).ClientStep?
    ensures Enabled(s, Forward(s, answer))
    ensures (var t := Next(s, Forward(s, answer)); Nearer(s, t) && Promised(t, answer))
  {
  }

  /** The holder's call can be finished, with any answer if none is under way. */
  lemma {:induction false} HolderFinishes(s: State, answer: nat) returns (steps: seq<Step>)
    requires Inv(s) && s.shared.busy && Promised(s, answer)
    ensures Runs(s, steps) && |steps| <= Left(s) && Inv(After(s, steps)) && Returned(s, After(s, steps), answer)
    decreases Left(s)
  {
    ForwardStep(s, answer);
    var step := Forward(s, answer);
    var t := Next(s, step);
    var rest: seq<Step> := [];
    if t.shared.busy { rest := HolderFinishes(t, answer); }
    steps := [step] + rest;
    assert steps[1..] == rest;
  }

  lemma SomePromise(s: State) returns (answer: nat)
    requires Inv(s) && s.shared.busy
    ensures Promised(s, answer)
  {
    var c := s.clients[s.holder];
    answer := if c.pc.Waiting? && s.server.PostValue? then s.server.answer
              else if c.pc.Waiting? && s.server.PostReady? then s.server.answer
              else if c.pc in {Consume, Unlock} then c.got else s.shared.value;
  }

  lemma {:induction false} Joined(s: State, a: seq<Step>, b: seq<Step>)
    requires Runs(s, a) && Runs(After(s, a), b)
    ensures Runs(s, a + b) && After(s, a + b) == After(After(s, a), b)
    decreases |a|
  {
    if a == [] {
      assert a + b == b;
    } else {
      assert (a + b)[0] == a[0] && (a + b)[1..] == a[1..] + b;
      Joined(Next(s, a[0]), a[1..], b);
    }
  }

  /** A client that wants the lock while it is free. */
  lemma FreeCallFinishes(s: State, i: nat, answer: nat) returns (steps: seq<Step>)
    requires Inv(s) && !s.shared.busy && i < |s.clients| && s.clients[i].pc.Locking?
    ensures Runs(s, steps) && |steps| <= 21 && Inv(After(s, steps)) && Finishes(s, After(s, steps), i, answer)
  {
    var step := ClientStep(i);
    StepKeeps(s, step);
    var t := Next(s, step);
    var rest := HolderFinishes(t, answer);
    steps := [step] + rest;
    assert steps[1..] == rest;
  }

  /** Client i has returned, its call is the last one finished, and it read the answer. */
  predicate Finishes(s: State, t: State, i: nat, answer: nat) {
    && i < |s.clients| == |t.clients| && t.clients[i].pc.Outside? && t.done != []
    && var f, c := t.done[|t.done| - 1], s.clients[i];
       f.kind == c.kind && f.request == c.want && (c.kind.Mmio? ==> f.value == answer)
  }

  /** From every state of every run, a call that is waiting for the lock can be finished with any answer, after the
      call that holds the lock, if any, has been: no interleaving wedges the mailbox. */
  lemma CallCanFinish(s0: State, before: seq<Step>, s: State, i: nat, answer: nat) returns (steps: seq<Step>)
    requires Init(s0) && Runs(s0, before) && s == After(s0, before) && i < |s.clients| && s.clients[i].pc.Locking?
    ensures Runs(s, steps) && |steps| <= 41 && Finishes(s, After(s, steps), i, answer)
  {
    InitEstablishes(s0);
    RunKeeps(s0, before);
    if s.shared.busy { steps := SecondCallFinishes(s, i, answer); } else { steps := FreeCallFinishes(s, i, answer); }
  }

  lemma SecondCallFinishes(s: State, i: nat, answer: nat) returns (steps: seq<Step>)
    requires Inv(s) && s.shared.busy && i < |s.clients| && s.clients[i].pc.Locking?
    ensures Runs(s, steps) && |steps| <= 41 && Finishes(s, After(s, steps), i, answer)
  {
    var own := SomePromise(s);
    var first := HolderFinishes(s, own);
    var t := After(s, first);
    SameCall(s, t, own, i);
    var second := FreeCallFinishes(t, i, answer);
    Joined(s, first, second);
    steps := first + second;
    assert After(s, steps) == After(t, second);
  }

  lemma SameCall(s: State, t: State, own: nat, i: nat)
    requires Inv(s) && s.shared.busy && Returned(s, t, own) && i < |s.clients| && s.clients[i].pc.Locking?
    ensures i < |t.clients| && t.clients[i] == s.clients[i]
  {
    assert HolderOk(s, s.clients[s.holder]);
  }

  /** ... and a call that holds the lock can be finished. */
  lemma HeldCallCanFinish(s0: State, before: seq<Step>, s: State) returns (steps: seq<Step>, answer: nat)
    requires Init(s0) && Runs(s0, before) && s == After(s0, before) && s.shared.busy
    ensures Runs(s, steps) && |steps| <= 20 && Finishes(s, After(s, steps), s.holder, answer)
  {
    InitEstablishes(s0);
    RunKeeps(s0, before);
    answer := SomePromise(s);
    steps := HolderFinishes(s, answer);
  }
}
