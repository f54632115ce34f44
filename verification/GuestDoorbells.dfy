/** The doorbells of whole guests: what a guest publishes is what reaches the device, after everything it waits for
    (src/quetzcpu.cc, src/quetz_balar_accelerator_port.cc). */
module GuestDoorbells {
  import opened AcceleratorPort
  import opened DoorbellOrder
  import opened DoorbellOrigin
  import O = Offload
  import P = Pipeline

  /** What a step of the whole system does to the port. A guest publishes at its place in the ring. */
  function PortStep(s: Sys, step: DoorbellOrder.Step): seq<O.Step>
    requires DoorbellOrder.Enabled(s, step)
  {
    match step
    case Publish(v, request) => [O.Publish(v, Mail(request, |P.Streamed(s.cores[v])|))]
    case Poll => if s.port.lanes[s.phase.next].mail.Some? then [O.TakeMail(s.phase.next)] else []
    case OpenGate(v) => [O.OpenGate(v)]
    case PortReply(r) => [r]
    case _ => []
  }

  function PortSteps(cfg: Setup, s: Sys, steps: seq<DoorbellOrder.Step>): seq<O.Step>
    requires P.ConfigOk(cfg.core) && DoorbellOrder.Runs(cfg, s, steps)
    decreases |steps|
  {
    if steps == [] then []
    else PortStep(s, steps[0]) + PortSteps(cfg, DoorbellOrder.Next(cfg, s, steps[0]), steps[1..])
  }

  lemma OneStep(cfg: Setup, s: Sys, step: DoorbellOrder.Step)
    requires P.ConfigOk(cfg.core) && DoorbellOrder.Enabled(s, step)
    ensures O.Runs(cfg.port, s.port, PortStep(s, step))
    ensures O.After(cfg.port, s.port, PortStep(s, step)) == DoorbellOrder.Next(cfg, s, step).port
  {
    var steps := PortStep(s, step);
    if steps != [] { assert steps[1..] == []; }
  }

  lemma {:induction false} Joined(cfg: Config, p: O.Port, a: seq<O.Step>, b: seq<O.Step>)
    requires O.Runs(cfg, p, a) && O.Runs(cfg, O.After(cfg, p, a), b)
    ensures O.Runs(cfg, p, a + b) && O.After(cfg, p, a + b) == O.After(cfg, O.After(cfg, p, a), b)
    decreases |a|
  {
    if a == [] {
      assert a + b == b;
    } else {
      assert (a + b)[0] == a[0] && (a + b)[1..] == a[1..] + b;
      Joined(cfg, O.Next(cfg, p, a[0]), a[1..], b);
    }
  }

  /** The port's side of a run of the whole system is a run of the port. */
  lemma {:induction false} Projected(cfg: Setup, s: Sys, steps: seq<DoorbellOrder.Step>)
    requires P.ConfigOk(cfg.core) && DoorbellOrder.Runs(cfg, s, steps)
    ensures O.Runs(cfg.port, s.port, PortSteps(cfg, s, steps))
    ensures O.After(cfg.port, s.port, PortSteps(cfg, s, steps)) == DoorbellOrder.After(cfg, s, steps).port
    decreases |steps|
  {
    if steps != [] {
      var n := DoorbellOrder.Next(cfg, s, steps[0]);
      OneStep(cfg, s, steps[0]);
      Projected(cfg, n, steps[1..]);
      Joined(cfg.port, s.port, PortStep(s, steps[0]), PortSteps(cfg, n, steps[1..]));
    }
  }

  /** The doorbells vCPU v's guest rang in a run, with the ring positions they were rung at. */
  function Rung(cfg: Setup, s: Sys, steps: seq<DoorbellOrder.Step>, v: nat): seq<Bell>
    requires P.ConfigOk(cfg.core) && DoorbellOrder.Runs(cfg, s, steps)
  {
    Published(PortSteps(cfg, s, steps), v)
  }

  /** In every interleaving of guests, ticks, memory and device, for every vCPU: of either kind, the doorbells its
      guest rang are those at the device, in order, with the packet addresses and at the ring positions the guest
      gave, and then those the port still holds; and the lines flushed for it are the packet lines of the doorbells it
      rang, in order, but for one that has not passed the gate. */
  lemma DoorbellsAreTheGuests(cfg: Setup, s: Sys, steps: seq<DoorbellOrder.Step>, v: nat)
    requires SetupOk(cfg) && DoorbellOrder.Init(s) && DoorbellOrder.Runs(cfg, s, steps) && v < |s.cores|
    requires DoorbellOrder.After(cfg, s, steps).port.fatal.None?
    ensures (var t, rung := DoorbellOrder.After(cfg, s, steps).port, Rung(cfg, s, steps, v);
             && v < |t.lanes|
             && Accounted(t, v, false, rung) && Accounted(t, v, true, rung) && FlushLaw(cfg.port, t, v, rung))
  {
    var ps := PortSteps(cfg, s, steps);
    Projected(cfg, s, steps);
    BellsAreThePublished(cfg.port, s.port, ps, v, false);
    BellsAreThePublished(cfg.port, s.port, ps, v, true);
    FlushedAreThePackets(cfg.port, s.port, ps, v);
  }

  /** Every doorbell at the device is one its own vCPU's guest rang, at that packet address; everything its guest had
      put on the ring by then has been sent and answered, unless the core halted, and the lines of that packet have
      been flushed and answered. This is so for every SUBMIT, and for every write to the aperture if flushing is on
      and the vCPU has a cache interface. */
  lemma RungDoorbellInOrder(cfg: Setup, s: Sys, steps: seq<DoorbellOrder.Step>, i: nat)
    requires SetupOk(cfg) && DoorbellOrder.Init(s) && DoorbellOrder.Runs(cfg, s, steps)
    requires (var t := DoorbellOrder.After(cfg, s, steps).port;
              t.fatal.None? && i < |t.deviceLog| && t.deviceLog[i].what.SentBell?)
    ensures (var t := DoorbellOrder.After(cfg, s, steps);
             var v, d := t.port.deviceLog[i].vcpu, t.port.deviceLog[i].what.bell;
             && v < |t.cores| && BellOf(d) in Rung(cfg, s, steps, v)
             && (d.isAsync || Gates(cfg.port, v) ==> InOrder(cfg, t, v, d)))
  {
    DoorbellReachesDeviceInOrder(cfg, s, steps);
    Projected(cfg, s, steps);
    SameSize(cfg, s, steps);
    DeviceBellPublished(cfg.port, s.port, PortSteps(cfg, s, steps), i);
  }

  lemma {:induction false} SameSize(cfg: Setup, s: Sys, steps: seq<DoorbellOrder.Step>)
    requires P.ConfigOk(cfg.core) && DoorbellOrder.Runs(cfg, s, steps)
    ensures |DoorbellOrder.After(cfg, s, steps).cores| == |s.cores|
    decreases |steps|
  {
    if steps != [] { SameSize(cfg, DoorbellOrder.Next(cfg, s, steps[0]), steps[1..]); }
  }
}
