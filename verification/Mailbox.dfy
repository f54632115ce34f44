/** The synchronous MMIO mailbox of one vCPU: a lock word, a request and a response slot shared by any number
    of client threads (qemu-overlay/quetz_ipc_client.c, src/qemu_plugin/instrument.cpp) and the simulator that
    serves it (src/quetzcpu_mmio_sync.cc, src/quetz_mmio_sync.h). Every step is one shared load or store. */
module Mailbox {

  datatype Request = Request(cmd: nat, addr: nat, size: nat, val: nat)

  /** The bridge reads a value back; the cache-op callback first checks that the mailbox is free. */
  datatype Kind = Mmio | CacheOp

  datatype Pc =
    | Outside | Locking
    | CheckPending | CheckReady | Fatal
    | ClearReady | ClearValue | PutAddr | PutSize | PutVal | PutCmd | Publish
    | Waiting | TakeValue | Consume | Unlock

  datatype Client = Client(kind: Kind, pc: Pc, want: Request, got: nat)

  datatype Shared = Shared(busy: bool, pending: bool, request: Request, ready: bool, value: nat)

  /** Where the simulator is: polling, part-way through loading a request, or part-way through a response. */
  datatype Server =
    | Poll
    | LoadCmd
    | LoadAddr(cmd: nat)
    | LoadSize(cmd: nat, addr: nat)
    | LoadVal(cmd: nat, addr: nat, size: nat)
    | Take(request: Request)
    | PostValue(request: Request, answer: nat)
    | PostReady(request: Request, answer: nat)

  /** One posted response. */
  datatype Response = Response(request: Request, value: nat)

  /** One finished client call and the value it read back, if its kind reads one. */
  datatype Finished = Finished(kind: Kind, request: Request, value: nat)

  /** `taken` are the requests being worked on; `answered` logs posted responses and `done` finished calls.
      `holder` names the client that last won the lock. */
  datatype State = State(shared: Shared, clients: seq<Client>, server: Server, taken: seq<Request>,
                         answered: seq<Response>, done: seq<Finished>, holder: nat)

  datatype Step =
    | Call(client: nat, kind: Kind, want: Request)
    | ClientStep(client: nat)
    | ServerStep
    | Respond(which: nat, answer: nat)

  // ---------------------------------------------------------------- steps

  function SetClient(s: State, i: nat, c: Client): State
    requires i < |s.clients|
  {
    s.(clients := s.clients[i := c])
  }

  predicate Enabled(s: State, step: Step) {
    match step
    case Call(i, _, _) => i < |s.clients| && s.clients[i].pc.Outside?
    case ClientStep(i) => i < |s.clients| && !s.clients[i].pc.Outside? && !s.clients[i].pc.Fatal?
    case ServerStep => true
    case Respond(which, _) => s.server.Poll? && which < |s.taken|
  }

  /** One shared access by a client inside a call. */
  function ClientNext(s: State, i: nat): State
    requires i < |s.clients| && !s.clients[i].pc.Outside? && !s.clients[i].pc.Fatal?
  {
    var c, m := s.clients[i], s.shared;
    match c.pc
    case Locking =>
      // the compare-and-swap, retried until it wins
      if m.busy then s
      else SetClient(s.(shared := m.(busy := true), holder := i), i,
                     c.(pc := if c.kind.Mmio? then ClearReady else CheckPending))
    case CheckPending => SetClient(s, i, c.(pc := if m.pending then Fatal else CheckReady))
    case CheckReady => SetClient(s, i, c.(pc := if m.ready then Fatal else PutAddr))
    case ClearReady => SetClient(s.(shared := m.(ready := false)), i, c.(pc := ClearValue))
    case ClearValue => SetClient(s.(shared := m.(value := 0)), i, c.(pc := PutAddr))
    case PutAddr => SetClient(s.(shared := m.(request := m.request.(addr := c.want.addr))), i, c.(pc := PutSize))
    case PutSize => SetClient(s.(shared := m.(request := m.request.(size := c.want.size))), i, c.(pc := PutVal))
    case PutVal => SetClient(s.(shared := m.(request := m.request.(val := c.want.val))), i, c.(pc := PutCmd))
    case PutCmd => SetClient(s.(shared := m.(request := m.request.(cmd := c.want.cmd))), i, c.(pc := Publish))
    case Publish => SetClient(s.(shared := m.(pending := true)), i, c.(pc := Waiting))
    case Waiting =>
      // one more look at ready
      if !m.ready then s else SetClient(s, i, c.(pc := if c.kind.Mmio? then TakeValue else Consume))
    case TakeValue => SetClient(s, i, c.(got := m.value, pc := Consume))
    case Consume => SetClient(s.(shared := m.(ready := false)), i, c.(pc := Unlock))
    case Unlock =>
      SetClient(s.(shared := m.(busy := false), done := s.done + [Finished(c.kind, c.want, c.got)]), i,
                c.(pc := Outside))
  }

  /** One shared access by the simulator; a taken request joins `taken` until it is answered. */
  function ServerNext(s: State): State {
    var m := s.shared;
    match s.server
    case Poll => if m.pending then s.(server := LoadCmd) else s
    case LoadCmd => s.(server := LoadAddr(m.request.cmd))
    case LoadAddr(cmd) => s.(server := LoadSize(cmd, m.request.addr))
    case LoadSize(cmd, addr) => s.(server := LoadVal(cmd, addr, m.request.size))
    case LoadVal(cmd, addr, size) => s.(server := Take(Request(cmd, addr, size, m.request.val)))
    case Take(request) => s.(shared := m.(pending := false), taken := s.taken + [request], server := Poll)
    case PostValue(request, answer) => s.(shared := m.(value := answer), server := PostReady(request, answer))
    case PostReady(request, answer) =>
      s.(shared := m.(ready := true), answered := s.answered + [Response(request, answer)], server := Poll)
  }

  function Next(s: State, step: Step): State
    requires Enabled(s, step)
  {
    match step
    case Call(i, kind, want) => SetClient(s, i, Client(kind, Locking, want, 0))
    case ClientStep(i) => ClientNext(s, i)
    case ServerStep => ServerNext(s)
    case Respond(which, answer) =>
      // any request in progress, with any answer: the device decides when and what
      s.(server := PostValue(s.taken[which], answer), taken := s.taken[..which] + s.taken[which + 1..])
  }

  predicate Init(s: State) {
    && !s.shared.busy && !s.shared.pending && !s.shared.ready
    && s.server.Poll? && s.taken == [] && s.answered == [] && s.done == []
    && forall i | 0 <= i < |s.clients| :: s.clients[i].pc.Outside?
  }

  // ---------------------------------------------------------------- the invariant

  /** The i-th finished call got the i-th response, which answered its own request. */
  predicate OwnAnswer(f: Finished, r: Response) {
    f.request == r.request && (f.kind.Mmio? ==> f.value == r.value)
  }

  /** Calls finish in the order they are answered, each with its own answer; `extra` answers are not consumed yet. */
  predicate Paired(s: State, extra: nat) {
    && |s.answered| == |s.done| + extra
    && forall i | 0 <= i < |s.done| :: OwnAnswer(s.done[i], s.answered[i])
  }

  /** Nothing is under way in the mailbox. */
  predicate Quiet(s: State) {
    !s.shared.pending && !s.shared.ready && s.server.Poll? && s.taken == [] && Paired(s, 0)
  }

  /** The part of the request the holder has stored so far. */
  predicate Stored(m: Request, want: Request, pc: Pc) {
    && (pc in {PutSize, PutVal, PutCmd, Publish} ==> m.addr == want.addr)
    && (pc in {PutVal, PutCmd, Publish} ==> m.size == want.size)
    && (pc in {PutCmd, Publish} ==> m.val == want.val)
    && (pc.Publish? ==> m.cmd == want.cmd)
  }

  /** What the simulator has loaded of a published request is that request. */
  predicate Loaded(server: Server, want: Request) {
    match server
    case Poll => true
    case LoadCmd => true
    case LoadAddr(cmd) => cmd == want.cmd
    case LoadSize(cmd, addr) => cmd == want.cmd && addr == want.addr
    case LoadVal(cmd, addr, size) => cmd == want.cmd && addr == want.addr && size == want.size
    case Take(request) => request == want
    case PostValue(_, _) => false
    case PostReady(_, _) => false
  }

  /** The stages of a published request: offered, taken, being answered, answered. */
  predicate InService(s: State, want: Request) {
    var m := s.shared;
    || (m.pending && !m.ready && m.request == want && Loaded(s.server, want) && s.taken == [] && Paired(s, 0))
    || (!m.pending && !m.ready && s.server.Poll? && s.taken == [want] && Paired(s, 0))
    || (!m.pending && !m.ready && s.server.PostValue? && s.server.request == want && s.taken == [] && Paired(s, 0))
    || (!m.pending && !m.ready && s.server.PostReady? && s.server.request == want && m.value == s.server.answer
        && s.taken == [] && Paired(s, 0))
    || Answered(s, want)
  }

  predicate Answered(s: State, want: Request) {
    && !s.shared.pending && s.shared.ready && s.server.Poll? && s.taken == []
    && Paired(s, 1) && s.answered[|s.done|] == Response(want, s.shared.value)
  }

  predicate HolderOk(s: State, c: Client) {
    match c.pc
    case Outside => false
    case Locking => false
    case Fatal => false
    case CheckPending => Quiet(s)
    case CheckReady => Quiet(s)
    case ClearReady => Quiet(s)
    case ClearValue => Quiet(s)
    case Waiting => InService(s, c.want)
    case TakeValue => Answered(s, c.want)
    case Consume => Answered(s, c.want) && (c.kind.Mmio? ==> c.got == s.shared.value)
    case Unlock =>
      && !s.shared.pending && !s.shared.ready && s.server.Poll? && s.taken == []
      && Paired(s, 1) && OwnAnswer(Finished(c.kind, c.want, c.got), s.answered[|s.done|])
    case _ => Quiet(s) && Stored(s.shared.request, c.want, c.pc)
  }

  predicate Waits(c: Client) { c.pc.Outside? || c.pc.Locking? }

  predicate Inv(s: State) {
    && (forall i {:trigger s.clients[i]} | 0 <= i < |s.clients| && !(s.shared.busy && i == s.holder) ::
            Waits(s.clients[i]))
    && (s.shared.busy ==> s.holder < |s.clients| && HolderOk(s, s.clients[s.holder]))
    && (!s.shared.busy ==> Quiet(s))
  }

  lemma InitEstablishes(s: State)
    requires Init(s)
    ensures Inv(s)
  {
  }

  lemma CallKeeps(s: State, i: nat, kind: Kind, want: Request)
    requires Inv(s) && Enabled(s, Call(i, kind, want))
    ensures Inv(Next(s, Call(i, kind, want)))
  {
  }

  /** A client that does not hold the lock can only try to take it. */
  lemma WaitingClientKeeps(s: State, i: nat)
    requires Inv(s) && Enabled(s, ClientStep(i)) && !(s.shared.busy && i == s.holder)
    ensures Inv(ClientNext(s, i))
  {
    assert Waits(s.clients[i]);
  }

  lemma HolderKeeps(s: State)
    requires Inv(s) && s.shared.busy && Enabled(s, ClientStep(s.holder))
    ensures Inv(ClientNext(s, s.holder))
  {
    var c, n := s.clients[s.holder], ClientNext(s, s.holder);
    if c.pc.Unlock? {
      assert Paired(n, 0);
    }
  }

  lemma ServerKeeps(s: State)
    requires Inv(s)
    ensures Inv(ServerNext(s))
  {
    var n := ServerNext(s);
    if s.server.PostReady? { assert Paired(n, 1); }
  }

  lemma RespondKeeps(s: State, which: nat, answer: nat)
    requires Inv(s) && Enabled(s, Respond(which, answer))
    ensures Inv(Next(s, Respond(which, answer)))
  {
  }

  lemma StepKeeps(s: State, step: Step)
    requires Inv(s) && Enabled(s, step)
    ensures Inv(Next(s, step))
  {
    match step
    case Call(i, kind, want) => CallKeeps(s, i, kind, want);
    case ClientStep(i) => if s.shared.busy && i == s.holder { HolderKeeps(s); } else { WaitingClientKeeps(s, i); }
    case ServerStep => ServerKeeps(s);
    case Respond(which, answer) => RespondKeeps(s, which, answer);
  }

  // ---------------------------------------------------------------- what every run guarantees

  predicate Runs(s: State, steps: seq<Step>)
    decreases |steps|
  {
    steps == [] || (Enabled(s, steps[0]) && Runs(Next(s, steps[0]), steps[1..]))
  }

  function After(s: State, steps: seq<Step>): State
    requires Runs(s, steps)
    decreases |steps|
  {
    if steps == [] then s else After(Next(s, steps[0]), steps[1..])
  }

  lemma {:induction false} RunKeeps(s: State, steps: seq<Step>)
    requires Inv(s) && Runs(s, steps)
    ensures Inv(After(s, steps))
    decreases |steps|
  {
    if steps != [] {
      StepKeeps(s, steps[0]);
      RunKeeps(Next(s, steps[0]), steps[1..]);
    }
  }

  /** A client between taking and releasing the lock. */
  predicate Inside(c: Client) { !c.pc.Outside? && !c.pc.Locking? }

  /** In every interleaving of any number of clients with the simulator: the cache-op client's fatal is
      unreachable, at most one client is inside, a free lock means an empty mailbox, and every finished call
      got the answer to its own request, in the order of the answers. */
  lemma MailboxSafety(s: State, steps: seq<Step>)
    requires Init(s) && Runs(s, steps)
    ensures (var t := After(s, steps);
             && (forall i | 0 <= i < |t.clients| :: !t.clients[i].pc.Fatal?)
             && (forall i, j | 0 <= i < |t.clients| && 0 <= j < |t.clients| && Inside(t.clients[i])
                   && Inside(t.clients[j]) :: i == j)
             && (!t.shared.busy ==> !t.shared.pending && !t.shared.ready && t.taken == [] && t.server.Poll?)
             && |t.done| <= |t.answered| <= |t.done| + 1
             && (forall i | 0 <= i < |t.done| :: OwnAnswer(t.done[i], t.answered[i])))
  {
    InitEstablishes(s);
    RunKeeps(s, steps);
    var t := After(s, steps);
    if t.shared.busy { assert HolderOk(t, t.clients[t.holder]); }
    forall i | 0 <= i < |t.clients|
      ensures !t.clients[i].pc.Fatal? && (Inside(t.clients[i]) ==> t.shared.busy && i == t.holder)
    {
      if !(t.shared.busy && i == t.holder) { assert Waits(t.clients[i]); }
    }
  }

  /** No published request is overwritten: whenever a step changes a request field, nothing is pending, taken,
      being loaded or being answered. */
  lemma PublishedRequestStable(s: State, steps: seq<Step>, step: Step)
    requires Init(s) && Runs(s, steps) && Enabled(After(s, steps), step)
    ensures (var t := After(s, steps);
             Next(t, step).shared.request != t.shared.request ==>
               !t.shared.pending && !t.shared.ready && t.server.Poll? && t.taken == [])
  {
    InitEstablishes(s);
    RunKeeps(s, steps);
    var t := After(s, steps);
    if step.ClientStep? && !(t.shared.busy && step.client == t.holder) { assert Waits(t.clients[step.client]); }
  }

  /** The simulator never takes a torn request: what it takes is what the holder published. */
  lemma TakesWholeRequest(s: State, steps: seq<Step>)
    requires Init(s) && Runs(s, steps) && After(s, steps).server.Take?
    ensures (var t := After(s, steps);
             t.shared.busy && t.holder < |t.clients| && t.clients[t.holder].pc.Waiting?
             && t.server.request == t.clients[t.holder].want && t.taken == [])
  {
    InitEstablishes(s);
    RunKeeps(s, steps);
  }
}
