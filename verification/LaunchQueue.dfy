/** The latency-mode device (src/quetz_gpu_device.cc): a launch queue in front of one busy window, zero-latency
    draining, and a counted level interrupt. Clock and latencies are 64-bit. */
module LaunchQueue {

  const WORD64: nat := 0x1_0000_0000_0000_0000
  const MAX_PENDING: nat := 8

  /** `busyUntil` is 0 when idle. History: the latencies of accepted and of started launches, when each began, the
      levels sent on the interrupt link, retires and consumed events, and `lost`, the launches whose end time wrapped
      to 0. */
  datatype Device = Device(clk: nat, busyUntil: nat, queue: seq<nat>, override: nat, submitted: nat, kernelId: nat,
                           irqPending: bool, irqEvents: nat, holding: bool,
                           accepted: seq<nat>, started: seq<nat>, begun: seq<nat>, levels: seq<nat>,
                           retires: nat, consumed: nat, lost: nat)

  datatype Config = Config(kernelLatency: nat, hasIrq: bool)

  function Busy(d: Device): nat { if d.busyUntil != 0 then 1 else 0 }

  predicate Outstanding(d: Device) { d.busyUntil != 0 || d.queue != [] }

  /** updatePrimaryHold */
  function Hold(d: Device, mayEnd: bool): Device {
    if Outstanding(d) then d.(holding := true) else if mayEnd then d.(holding := false) else d
  }

  function RaiseIrq(cfg: Config, d: Device): Device {
    if !cfg.hasIrq then d.(retires := d.retires + 1)
    else
      var e := d.(irqEvents := d.irqEvents + 1, retires := d.retires + 1);
      if d.irqPending then e else e.(irqPending := true, levels := d.levels + [1])
  }

  function AckIrq(cfg: Config, d: Device, consume: nat): Device {
    if !cfg.hasIrq || !d.irqPending then d
    else
      var n := if consume < d.irqEvents then consume else d.irqEvents;
      var e := d.(irqEvents := d.irqEvents - n, consumed := d.consumed + n);
      if e.irqEvents > 0 then e else e.(irqPending := false, levels := d.levels + [0])
  }

  /** The end time of a launch, as the device stores it. */
  function EndTime(clk: nat, latency: nat): nat { (clk + latency) % WORD64 }

  /** A launch whose end time is the idle sentinel. */
  predicate Vanishes(clk: nat, latency: nat) { latency > 0 && EndTime(clk, latency) == 0 }

  function StartKernel(cfg: Config, d: Device, latency: nat): Device {
    var s := d.(started := d.started + [latency], begun := d.begun + [d.clk]);
    Hold(if latency == 0 then RaiseIrq(cfg, s.(kernelId := s.kernelId + 1, busyUntil := 0))
         else s.(busyUntil := EndTime(d.clk, latency), lost := d.lost + (if Vanishes(d.clk, latency) then 1 else 0)),
             false)
  }

  /** Pops queued launches until one is busy: a zero-latency one does not stop the others. */
  function Drain(cfg: Config, d: Device): Device
    decreases |d.queue|
  {
    if d.queue == [] || d.busyUntil != 0 then d
    else Drain(cfg, StartKernel(cfg, d.(queue := d.queue[1..]), d.queue[0]))
  }

  function RetireIfReady(cfg: Config, d: Device): Device {
    if d.busyUntil == 0 || d.clk < d.busyUntil then d
    else Drain(cfg, RaiseIrq(cfg, d.(kernelId := d.kernelId + 1, busyUntil := 0)))
  }

  function LatencyOf(cfg: Config, d: Device): nat { if d.override == 0 then cfg.kernelLatency else d.override }

  /** Starts a launch on an idle device, queues it behind a busy one, or drops it. */
  function Accept(cfg: Config, d: Device, latency: nat): Device {
    if d.busyUntil == 0 && d.queue == [] then
      StartKernel(cfg, d.(submitted := d.submitted + 1, accepted := d.accepted + [latency]), latency)
    else if |d.queue| < MAX_PENDING then
      Hold(d.(submitted := d.submitted + 1, accepted := d.accepted + [latency], queue := d.queue + [latency]), false)
    else d
  }

  function Ring(cfg: Config, d: Device): Device {
    Accept(cfg, RetireIfReady(cfg, d.(override := 0)), LatencyOf(cfg, d))
  }

  function Tick(cfg: Config, d: Device): Device {
    Hold(RetireIfReady(cfg, d.(clk := (d.clk + 1) % WORD64)), true)
  }

  datatype Step = TickStep | RingStep | Override(value: nat) | Ack(value: nat) | Poll

  function Next(cfg: Config, d: Device, step: Step): Device {
    match step
    case TickStep => Tick(cfg, d)
    case RingStep => Ring(cfg, d)
    case Override(value) => d.(override := value)
    case Ack(value) => if value != 0 then AckIrq(cfg, d, value) else d
    case Poll => RetireIfReady(cfg, d)
  }

  function After(cfg: Config, d: Device, steps: seq<Step>): Device {
    if steps == [] then d else Next(cfg, After(cfg, d, steps[..|steps| - 1]), steps[|steps| - 1])
  }

  predicate Init(d: Device) {
    && d.clk == d.busyUntil == d.override == d.submitted == d.kernelId == d.irqEvents == d.retires == d.consumed
          == d.lost == 0
    && d.queue == [] && d.accepted == [] && d.started == [] && d.begun == [] && d.levels == [] && !d.irqPending
       && !d.holding
  }

  // ---------------------------------------------------------------- what every run keeps

  /** The levels sent alternate, starting high; the last one is what the line shows. */
  predicate Alternating(levels: seq<nat>, high: bool) {
    (forall i {:trigger levels[i]} | 0 <= i < |levels| :: levels[i] == (i + 1) % 2)
        && |levels| % 2 == (if high then 1 else 0)
  }

  predicate IrqOk(cfg: Config, d: Device) {
    if cfg.hasIrq then
      d.irqEvents + d.consumed == d.retires && d.irqPending == (d.irqEvents > 0) && Alternating(d.levels, d.irqPending)
    else d.irqEvents == 0 && !d.irqPending && d.levels == []
  }

  /** The counting law, with the vanished launches on the books. */
  predicate QueueOk(d: Device) {
    && d.submitted == d.kernelId + Busy(d) + |d.queue| + d.lost
    && d.submitted == |d.accepted| && d.accepted == d.started + d.queue
    && d.kernelId == d.retires && |d.queue| <= MAX_PENDING && LostOk(d)
  }

  /** No launch was lost exactly when every launch begun has an end time other than the idle sentinel. */
  predicate LostOk(d: Device) {
    |d.begun| == |d.started| && (d.lost == 0 <==> NoneVanished(d.begun, d.started))
  }

  predicate NoneVanished(begun: seq<nat>, started: seq<nat>)
    requires |begun| == |started|
  {
    var n := |begun| - 1;
    n < 0 || (!Vanishes(begun[n], started[n]) && NoneVanished(begun[..n], started[..n]))
  }

  lemma {:induction false} NoneVanishedIff(begun: seq<nat>, started: seq<nat>)
    requires |begun| == |started|
    ensures NoneVanished(begun, started) <==>
      forall i {:trigger begun[i]} | 0 <= i < |begun| :: !Vanishes(begun[i], started[i])
    decreases |begun|
  {
    var n := |begun| - 1;
    if n >= 0 {
      NoneVanishedIff(begun[..n], started[..n]);
      forall i | 0 <= i < n ensures begun[..n][i] == begun[i] && started[..n][i] == started[i] {}
    }
  }

  predicate Settled(d: Device) { (d.queue != [] ==> d.busyUntil != 0) && (Outstanding(d) ==> d.holding) }

  predicate DeviceOk(cfg: Config, d: Device) { IrqOk(cfg, d) && QueueOk(d) && Settled(d) }

  lemma RaiseIrqKeeps(cfg: Config, d: Device)
    requires IrqOk(cfg, d)
    ensures IrqOk(cfg, RaiseIrq(cfg, d))
  {
  }

  /** An acknowledge consumes as many events as it asks for or all there are, and lowers the line exactly when none is
      left. */
  lemma AckIrqKeeps(cfg: Config, d: Device, consume: nat)
    requires DeviceOk(cfg, d)
    ensures DeviceOk(cfg, AckIrq(cfg, d, consume))
    ensures cfg.hasIrq ==> AckIrq(cfg, d, consume).consumed == if d.consumed + consume < d.retires
        then d.consumed + consume else d.retires
    ensures cfg.hasIrq ==> (AckIrq(cfg, d, consume).irqPending <==> d.consumed + consume < d.retires)
  {
  }

  /** Starting a launch that has been taken off the queue and not counted yet. */
  predicate Starting(d: Device, latency: nat) {
    && d.busyUntil == 0 && d.submitted == d.kernelId + 1 + |d.queue| + d.lost
    && d.submitted == |d.accepted| && d.accepted == d.started + [latency] + d.queue
    && d.kernelId == d.retires && |d.queue| <= MAX_PENDING && LostOk(d)
  }

  /** One more launch on the books. */
  lemma StartLost(d: Device, e: Device, latency: nat)
    requires LostOk(d) && e.begun == d.begun + [d.clk] && e.started == d.started + [latency]
    requires e.lost == d.lost + if Vanishes(d.clk, latency) then 1 else 0
    ensures LostOk(e)
  {
    var n := |d.begun|;
    assert e.begun[..n] == d.begun && e.started[..n] == d.started;
  }

  predicate Started(cfg: Config, d: Device, r: Device, latency: nat) {
    && IrqOk(cfg, r) && QueueOk(r) && r.queue == d.queue && (Outstanding(r) ==> r.holding)
    && r.clk == d.clk && (d.holding ==> r.holding)
    && r.lost == d.lost + (if Vanishes(d.clk, latency) then 1 else 0)
  }

  lemma StartZero(cfg: Config, d: Device, latency: nat)
    requires IrqOk(cfg, d) && Starting(d, latency) && latency == 0
    ensures Started(cfg, d, StartKernel(cfg, d, latency), latency)
  {
    RaiseIrqKeeps(cfg, d.(started := d.started + [latency], begun := d.begun + [d.clk], kernelId := d.kernelId + 1));
    StartLost(d, StartKernel(cfg, d, latency), latency);
  }

  lemma StartBusy(cfg: Config, d: Device, latency: nat)
    requires IrqOk(cfg, d) && Starting(d, latency) && latency > 0
    ensures Started(cfg, d, StartKernel(cfg, d, latency), latency)
  {
    StartLost(d, StartKernel(cfg, d, latency), latency);
  }

  lemma StartKeeps(cfg: Config, d: Device, latency: nat)
    requires IrqOk(cfg, d) && Starting(d, latency)
    ensures Started(cfg, d, StartKernel(cfg, d, latency), latency)
  {
    if latency == 0 { StartZero(cfg, d, latency); } else { StartBusy(cfg, d, latency); }
  }

  lemma {:induction false} DrainKeeps(cfg: Config, d: Device)
    requires IrqOk(cfg, d) && QueueOk(d) && d.holding
    ensures DeviceOk(cfg, Drain(cfg, d)) && Drain(cfg, d).clk == d.clk
    decreases |d.queue|
  {
    if d.queue != [] && d.busyUntil == 0 {
      var latency, e := d.queue[0], d.(queue := d.queue[1..]);
      assert d.queue == [latency] + d.queue[1..];
      assert d.started + [latency] + d.queue[1..] == d.started + d.queue;
      StartKeeps(cfg, e, latency);
      var s := StartKernel(cfg, e, latency);
      assert s.holding;
      DrainKeeps(cfg, s);
    }
  }

  lemma RetireKeeps(cfg: Config, d: Device)
    requires DeviceOk(cfg, d)
    ensures DeviceOk(cfg, RetireIfReady(cfg, d)) && RetireIfReady(cfg, d).clk == d.clk
  {
    if d.busyUntil != 0 && d.clk >= d.busyUntil {
      var e := d.(kernelId := d.kernelId + 1, busyUntil := 0);
      RaiseIrqKeeps(cfg, e);
      DrainKeeps(cfg, RaiseIrq(cfg, e));
    }
  }

  lemma AcceptKeeps(cfg: Config, d: Device, latency: nat)
    requires DeviceOk(cfg, d)
    ensures DeviceOk(cfg, Accept(cfg, d, latency))
  {
    if d.busyUntil == 0 && d.queue == [] {
      LaunchKeeps(cfg, d, latency);
    } else if |d.queue| < MAX_PENDING {
      EnqueueKeeps(cfg, d, latency);
    }
  }

  lemma LaunchKeeps(cfg: Config, d: Device, latency: nat)
    requires DeviceOk(cfg, d) && d.busyUntil == 0 && d.queue == []
    ensures DeviceOk(cfg, Accept(cfg, d, latency))
  {
    var e := Launched(cfg, d, latency);
    StartedSettled(cfg, e, StartKernel(cfg, e, latency), latency);
  }

  lemma LaunchLost(cfg: Config, d: Device, latency: nat)
    requires DeviceOk(cfg, d) && d.busyUntil == 0 && d.queue == []
    ensures Accept(cfg, d, latency).lost == d.lost + (if Vanishes(d.clk, latency) then 1 else 0)
  {
    var _ := Launched(cfg, d, latency);
  }

  /** A doorbell on an idle device is booked and then starts the kernel. */
  lemma Launched(cfg: Config, d: Device, latency: nat) returns (e: Device)
    requires DeviceOk(cfg, d) && d.busyUntil == 0 && d.queue == []
    ensures e == d.(submitted := d.submitted + 1, accepted := d.accepted + [latency])
    ensures Accept(cfg, d, latency) == StartKernel(cfg, e, latency)
            && Started(cfg, e, StartKernel(cfg, e, latency), latency)
  {
    e := d.(submitted := d.submitted + 1, accepted := d.accepted + [latency]);
    BookedStarts(d, latency);
    StartKeeps(cfg, e, latency);
  }

  lemma StartedSettled(cfg: Config, d: Device, r: Device, latency: nat)
    requires Started(cfg, d, r, latency) && d.queue == []
    ensures DeviceOk(cfg, r)
  {
  }

  lemma BookedStarts(d: Device, latency: nat)
    requires QueueOk(d) && d.busyUntil == 0 && d.queue == []
    ensures Starting(d.(submitted := d.submitted + 1, accepted := d.accepted + [latency]), latency)
  {
    var e := d.(submitted := d.submitted + 1, accepted := d.accepted + [latency]);
    assert e.accepted == e.started + [latency] + e.queue;
  }

  lemma EnqueueKeeps(cfg: Config, d: Device, latency: nat)
    requires DeviceOk(cfg, d) && Outstanding(d) && |d.queue| < MAX_PENDING
    ensures DeviceOk(cfg, Accept(cfg, d, latency))
  {
    assert d.accepted + [latency] == d.started + (d.queue + [latency]);
  }

  lemma RingKeeps(cfg: Config, d: Device)
    requires DeviceOk(cfg, d)
    ensures DeviceOk(cfg, Ring(cfg, d))
  {
    RetireKeeps(cfg, d.(override := 0));
    AcceptKeeps(cfg, RetireIfReady(cfg, d.(override := 0)), LatencyOf(cfg, d));
  }

  lemma TickKeeps(cfg: Config, d: Device)
    requires DeviceOk(cfg, d)
    ensures DeviceOk(cfg, Tick(cfg, d))
  {
    RetireKeeps(cfg, d.(clk := (d.clk + 1) % WORD64));
  }

  lemma StepKeeps(cfg: Config, d: Device, step: Step)
    requires DeviceOk(cfg, d)
    ensures DeviceOk(cfg, Next(cfg, d, step))
  {
    match step
    case TickStep => TickKeeps(cfg, d);
    case RingStep => RingKeeps(cfg, d);
    case Override(value) =>
    case Ack(value) => AckIrqKeeps(cfg, d, value);
    case Poll => RetireKeeps(cfg, d);
  }

  /** In every run: launches start in the order they were accepted, the queue holds at most 8 and never waits behind
      an idle device, unconsumed events are the retires not acknowledged, the line is high exactly while there are
      any, the levels sent strictly alternate, and outstanding work holds the simulation open. Submits equal retires
      plus busy plus queued plus the launches whose end time wrapped to zero. */
  lemma {:induction false} LaunchQueueSafety(cfg: Config, d: Device, steps: seq<Step>)
    requires Init(d)
    ensures DeviceOk(cfg, After(cfg, d, steps))
    decreases |steps|
  {
    if steps != [] {
      LaunchQueueSafety(cfg, d, steps[..|steps| - 1]);
      StepKeeps(cfg, After(cfg, d, steps[..|steps| - 1]), steps[|steps| - 1]);
    }
  }

  // ---------------------------------------------------------------- the counting law proper

  predicate CountingLaw(d: Device) { d.submitted == d.kernelId + Busy(d) + |d.queue| }

  /** After any run the law holds if and only if no launch was begun at a clock and with a latency whose sum wraps to
      zero... */
  lemma LawIffNoneVanished(cfg: Config, d: Device, steps: seq<Step>)
    requires Init(d)
    ensures (var t := After(cfg, d, steps);
             |t.begun| == |t.started|
             && (CountingLaw(t) <==> forall i {:trigger t.begun[i]} | 0 <= i < |t.begun| ::
                     !Vanishes(t.begun[i], t.started[i])))
  {
    LaunchQueueSafety(cfg, d, steps);
    var t := After(cfg, d, steps);
    NoneVanishedIff(t.begun, t.started);
  }

  /** ... and from an idle device, a doorbell keeps it exactly when the end time does not wrap to zero, which the
      guest can tell from the clock and the latency it wrote. */
  lemma RingKeepsLawIff(cfg: Config, d: Device)
    requires DeviceOk(cfg, d) && CountingLaw(d) && d.busyUntil == 0
    ensures CountingLaw(Ring(cfg, d)) <==> !Vanishes(d.clk, LatencyOf(cfg, d))
  {
    LaunchKeeps(cfg, d.(override := 0), LatencyOf(cfg, d));
    LaunchLost(cfg, d.(override := 0), LatencyOf(cfg, d));
  }

  /** A ticked device given the largest latency loses the launch: submitted, never busy, never retired. */
  lemma LargestLatencyVanishes(cfg: Config, d: Device)
    requires Init(d)
    ensures (var t := After(cfg, d, [TickStep, Override(WORD64 - 1), RingStep]);
             t.submitted == 1 && t.kernelId == 0 && t.busyUntil == 0 && t.queue == [] && !CountingLaw(t))
  {
    var steps := [TickStep, Override(WORD64 - 1), RingStep];
    assert steps[..2] == [TickStep, Override(WORD64 - 1)] && steps[..2][..1] == [TickStep]
           && steps[..2][..1][..0] == [];
    assert After(cfg, d, steps[..2][..1][..0]) == d;
    var a := After(cfg, d, steps[..2][..1]);
    assert a == Next(cfg, d, TickStep) && a.clk == 1;
    var b := After(cfg, d, steps[..2]);
    assert b == a.(override := WORD64 - 1);
    assert After(cfg, d, steps) == Ring(cfg, b);
    assert Vanishes(1, WORD64 - 1);
  }

  // ---------------------------------------------------------------- the device as an object

  /** The state is one record; the drain is the loop of the source. */
  class GpuDevice {
    const cfg: Config
    var d: Device

    ghost predicate Valid() reads this { DeviceOk(cfg, d) }

    constructor (config: Config)
      ensures Valid() && cfg == config && Init(d)
    {
      cfg := config;
      d := Device(0, 0, [], 0, 0, 0, false, 0, false, [], [], [], [], 0, 0, 0);
    }

    method Retire()
      requires Valid()
      modifies this
      ensures Valid() && d == RetireIfReady(cfg, old(d))
    {
      RetireKeeps(cfg, d);
      if d.busyUntil == 0 || d.clk < d.busyUntil { return; }
      d := RaiseIrq(cfg, d.(kernelId := d.kernelId + 1, busyUntil := 0));
      ghost var goal := Drain(cfg, d);
      while d.queue != [] && d.busyUntil == 0
        invariant Drain(cfg, d) == goal
        decreases |d.queue|
      {
        var latency := d.queue[0];
        d := d.(queue := d.queue[1..]);
        d := StartKernel(cfg, d, latency);
      }
    }

    method Doorbell()
      requires Valid()
      modifies this
      ensures Valid() && d == Ring(cfg, old(d))
    {
      var latency := LatencyOf(cfg, d);
      d := d.(override := 0);
      Retire();
      AcceptLaunch(latency);
    }

    method AcceptLaunch(latency: nat)
      requires Valid()
      modifies this
      ensures Valid() && d == Accept(cfg, old(d), latency)
    {
      AcceptKeeps(cfg, d, latency);
      if d.busyUntil == 0 && d.queue == [] {
        d := StartKernel(cfg, d.(submitted := d.submitted + 1, accepted := d.accepted + [latency]), latency);
      } else if |d.queue| < MAX_PENDING {
        d := Hold(d.(submitted := d.submitted + 1, accepted := d.accepted + [latency], queue := d.queue + [latency]),
                  false);
      }
    }

    method TickBusy()
      requires Valid()
      modifies this
      ensures Valid() && d == Tick(cfg, old(d))
    {
      d := d.(clk := (d.clk + 1) % WORD64);
      Retire();
      d := Hold(d, true);
    }
  }
}
