/** How long a launch of the latency-mode device stays busy (src/quetz_gpu_device.cc): exactly its latency in ticks,
    from the doorbell on an idle device or from the retire of the launch before it. */
module LaunchTiming {
  import opened LaunchQueue

  /** How many of the steps are ticks. */
  function CountTicks(steps: seq<Step>): nat {
    if steps == [] then 0 else CountTicks(steps[..|steps| - 1]) + (if steps[|steps| - 1].TickStep? then 1 else 0)
  }

  /** The last launch started began at clock `at` with latency l, has l ticks to go from there, and is still
      running. */
  predicate Running(d: Device, at: nat, l: nat) {
    && d.busyUntil == at + l < WORD64 && l > 0 && at <= d.clk < at + l
    && d.started != [] && |d.begun| == |d.started| && d.started[|d.started| - 1] == l && d.begun[|d.begun| - 1] == at
  }

  /** What stays the same while a launch runs: nothing starts and nothing is retired. */
  predicate SameLaunch(d: Device, t: Device) {
    t.kernelId == d.kernelId && t.retires == d.retires && t.started == d.started && t.begun == d.begun
  }

  lemma QuietStep(cfg: Config, d: Device, step: Step, at: nat, l: nat)
    requires Running(d, at, l) && (step.TickStep? ==> d.clk + 1 < at + l)
    ensures (var t := Next(cfg, d, step);
             && Running(t, at, l) && SameLaunch(d, t) && d.queue <= t.queue
             && t.clk == d.clk + (if step.TickStep? then 1 else 0))
  {
  }

  /** A running launch of latency l is not retired, and nothing else is started, by any mix of doorbells, polls,
      acknowledges, overrides and ticks that leaves its clock below the end; doorbells only queue up behind it. */
  lemma {:induction false} StaysBusy(cfg: Config, d: Device, steps: seq<Step>, at: nat, l: nat)
    requires Running(d, at, l) && d.clk + CountTicks(steps) < at + l
    ensures (var t := After(cfg, d, steps);
             Running(t, at, l) && SameLaunch(d, t) && d.queue <= t.queue && t.clk == d.clk + CountTicks(steps))
    decreases |steps|
  {
    if steps != [] {
      StaysBusy(cfg, d, steps[..|steps| - 1], at, l);
      QuietStep(cfg, After(cfg, d, steps[..|steps| - 1]), steps[|steps| - 1], at, l);
    }
  }

  /** How many launches at the head of the queue have no latency. */
  function Instant(queue: seq<nat>): (z: nat)
    ensures z <= |queue| && (forall i | 0 <= i < z :: queue[i] == 0) && (z < |queue| ==> queue[z] > 0)
  {
    if queue == [] || queue[0] > 0 then 0 else 1 + Instant(queue[1..])
  }

  /** Draining an idle device retires the launches without latency at the head of the queue, one completion each, and
      starts the first one that has one, if its end time fits. */
  predicate Drained(d: Device, t: Device) {
    var z := Instant(d.queue);
    z == |d.queue| || d.clk + d.queue[z] < WORD64 ==>
      && t.clk == d.clk && t.kernelId == d.kernelId + z && t.retires == d.retires + z
      && if z == |d.queue| then t.busyUntil == 0 && t.queue == [] && t.started == d.started + d.queue
         else t.queue == d.queue[z + 1..] && t.started == d.started + d.queue[..z + 1] && Running(t, d.clk, d.queue[z])
  }

  lemma {:induction false} DrainTiming(cfg: Config, d: Device)
    requires d.busyUntil == 0 && |d.begun| == |d.started|
    ensures Drained(d, Drain(cfg, d))
    decreases |d.queue|
  {
    if d.queue != [] {
      var s := StartKernel(cfg, d.(queue := d.queue[1..]), d.queue[0]);
      if d.queue[0] == 0 {
        DrainTiming(cfg, s);
        InstantFirst(d, s, Drain(cfg, s));
      } else if d.clk + d.queue[0] < WORD64 {
        assert Drain(cfg, d) == s && d.queue[..1] == [d.queue[0]];
      }
    }
  }

  lemma InstantFirst(d: Device, s: Device, t: Device)
    requires d.queue != [] && d.queue[0] == 0 && Drained(s, t)
    requires s.queue == d.queue[1..] && s.started == d.started + [0] && s.clk == d.clk
    requires s.kernelId == d.kernelId + 1 && s.retires == d.retires + 1
    ensures Drained(d, t)
  {
    var z := Instant(d.queue[1..]);
    assert d.queue == [0] + d.queue[1..];
    ShiftQueue(d.queue, z);
  }

  lemma ShiftQueue(queue: seq<nat>, z: nat)
    requires queue != [] && z <= |queue[1..]|
    ensures [queue[0]] + queue[1..][..z] == queue[..z + 1] && queue[1..][z..] == queue[z + 1..]
    ensures z < |queue[1..]| ==>
              [queue[0]] + queue[1..][..z + 1] == queue[..z + 2] && queue[1..][z + 1..] == queue[z + 2..]
  {
  }

  // ---------------------------------------------------------------- from doorbell to retire

  /** The running launch of d is retired at clock `now`, once, and with it the launches without latency behind it; the
      next one that has a latency begins at that clock. */
  predicate RetiresInto(d: Device, t: Device, now: nat) {
    var z := Instant(d.queue);
    z == |d.queue| || now + d.queue[z] < WORD64 ==>
      && t.clk == now && t.kernelId == d.kernelId + 1 + z && t.retires == d.retires + 1 + z
      && if z == |d.queue| then t.busyUntil == 0 && t.queue == [] && t.started == d.started + d.queue
         else t.queue == d.queue[z + 1..] && t.started == d.started + d.queue[..z + 1] && Running(t, now, d.queue[z])
  }

  /** The tick that reaches the end time retires the launch. */
  lemma RetiredOnTime(cfg: Config, d: Device, at: nat, l: nat)
    requires Running(d, at, l) && d.clk + 1 == at + l
    ensures RetiresInto(d, Next(cfg, d, TickStep), at + l)
  {
    var c := d.(clk := at + l);
    RetireTiming(cfg, c);
    HoldRetires(d, c, RetireIfReady(cfg, c), at + l);
  }

  lemma HoldRetires(d: Device, c: Device, u: Device, now: nat)
    requires c == d.(clk := now) && RetiresInto(c, u, now)
    ensures RetiresInto(d, Hold(u, true), now)
  {
  }

  lemma RetireTiming(cfg: Config, c: Device)
    requires 0 < c.busyUntil <= c.clk && |c.begun| == |c.started|
    ensures RetiresInto(c, RetireIfReady(cfg, c), c.clk)
  {
    var e := c.(kernelId := c.kernelId + 1, busyUntil := 0);
    RaisedFields(cfg, e);
    DrainTiming(cfg, RaiseIrq(cfg, e));
  }

  lemma RaisedFields(cfg: Config, e: Device)
    ensures (var r := RaiseIrq(cfg, e);
             && r.clk == e.clk && r.busyUntil == e.busyUntil && r.queue == e.queue && r.kernelId == e.kernelId
             && r.started == e.started && r.begun == e.begun && r.retires == e.retires + 1)
  {
  }

  /** The latency a doorbell gives its launch: the override if the guest has written one, else the device's. */
  function Given(cfg: Config, d: Device): nat { if d.override != 0 then d.override else cfg.kernelLatency }

  /** A doorbell on an idle device with the end time in range: with a latency the launch runs from this clock, without
      one it is retired at once. Either way the override is used up. */
  lemma DoorbellStarts(cfg: Config, d: Device)
    requires DeviceOk(cfg, d) && d.busyUntil == 0 && d.clk + Given(cfg, d) < WORD64
    ensures (var t, l := Next(cfg, d, RingStep), Given(cfg, d);
             && t.override == 0 && t.submitted == d.submitted + 1 && t.queue == [] && t.started == d.started + [l]
             && if l > 0 then Running(t, d.clk, l) && t.kernelId == d.kernelId && t.retires == d.retires
                else t.busyUntil == 0 && t.kernelId == d.kernelId + 1 && t.retires == d.retires + 1)
  {
    var e := d.(override := 0);
    StartTiming(cfg, e.(submitted := e.submitted + 1, accepted := e.accepted + [Given(cfg, d)]), Given(cfg, d));
  }

  lemma StartTiming(cfg: Config, d: Device, l: nat)
    requires d.busyUntil == 0 && |d.begun| == |d.started| && d.clk + l < WORD64
    ensures (var t := StartKernel(cfg, d, l);
             && t.override == d.override && t.submitted == d.submitted && t.queue == d.queue
             && t.started == d.started + [l]
             && if l > 0 then Running(t, d.clk, l) && t.kernelId == d.kernelId && t.retires == d.retires
                else t.busyUntil == 0 && t.kernelId == d.kernelId + 1 && t.retires == d.retires + 1)
  {
  }

  /** In every run: a launch of latency l > 0 started on an idle device is running, with nothing retired and nothing
      else started, after any steps with fewer than l ticks among them; and the l-th tick retires it. */
  lemma LaunchLasts(cfg: Config, d0: Device, before: seq<Step>, d: Device, steps: seq<Step>)
    requires Init(d0) && d == After(cfg, d0, before) && d.busyUntil == 0
    requires 0 < Given(cfg, d) && d.clk + Given(cfg, d) < WORD64 && CountTicks(steps) < Given(cfg, d)
    ensures (var t, l := After(cfg, Next(cfg, d, RingStep), steps), Given(cfg, d);
             && t.busyUntil != 0 && t.kernelId == d.kernelId && t.retires == d.retires && t.started == d.started + [l]
             && (CountTicks(steps) == l - 1 ==> RetiresInto(t, Next(cfg, t, TickStep), d.clk + l)))
  {
    LaunchQueueSafety(cfg, d0, before);
    DoorbellStarts(cfg, d);
    var s, l := Next(cfg, d, RingStep), Given(cfg, d);
    StaysBusy(cfg, s, steps, d.clk, l);
    if CountTicks(steps) == l - 1 { RetiredOnTime(cfg, After(cfg, s, steps), d.clk, l); }
  }

  /** A queued launch with a latency begins with the tick that retires the launch before it, and then lasts its own
      latency in the same way. */
  lemma QueuedLasts(cfg: Config, d: Device, at: nat, l: nat, steps: seq<Step>)
    requires Running(d, at, l) && d.clk + 1 == at + l && Instant(d.queue) < |d.queue|
    requires at + l + d.queue[Instant(d.queue)] < WORD64 && CountTicks(steps) < d.queue[Instant(d.queue)]
    ensures (var z, t := Instant(d.queue), After(cfg, Next(cfg, d, TickStep), steps);
             && t.busyUntil != 0 && t.kernelId == d.kernelId + 1 + z && t.retires == d.retires + 1 + z
             && t.started == d.started + d.queue[..z + 1]
             && (CountTicks(steps) == d.queue[z] - 1 ==>
                   RetiresInto(t, Next(cfg, t, TickStep), at + l + d.queue[z])))
  {
    RetiredOnTime(cfg, d, at, l);
    var s, own := Next(cfg, d, TickStep), d.queue[Instant(d.queue)];
    StaysBusy(cfg, s, steps, at + l, own);
    if CountTicks(steps) == own - 1 { RetiredOnTime(cfg, After(cfg, s, steps), at + l, own); }
  }

  /** An end time that has wrapped, but not to the idle value, is behind the clock: the next tick that does not wrap
      the clock, doorbell or poll retires the launch. */
  lemma WrappedEndsAtOnce(cfg: Config, d: Device, step: Step)
    requires 0 < d.busyUntil <= d.clk && (step.TickStep? ==> d.clk + 1 < WORD64)
    requires step.TickStep? || step.RingStep? || step.Poll?
    ensures Next(cfg, d, step).kernelId > d.kernelId
  {
    var c := if step.TickStep? then d.(clk := d.clk + 1) else if step.RingStep? then d.(override := 0) else d;
    RetireGrows(cfg, c);
    if step.RingStep? { AcceptGrows(cfg, RetireIfReady(cfg, c), LatencyOf(cfg, d)); }
  }

  lemma RetireGrows(cfg: Config, d: Device)
    requires 0 < d.busyUntil <= d.clk
    ensures RetireIfReady(cfg, d).kernelId > d.kernelId
  {
    var e := d.(kernelId := d.kernelId + 1, busyUntil := 0);
    RaisedFields(cfg, e);
    DrainGrows(cfg, RaiseIrq(cfg, e));
  }

  lemma AcceptGrows(cfg: Config, d: Device, latency: nat)
    ensures Accept(cfg, d, latency).kernelId >= d.kernelId
  {
  }

  lemma {:induction false} DrainGrows(cfg: Config, d: Device)
    ensures Drain(cfg, d).kernelId >= d.kernelId
    decreases |d.queue|
  {
    if d.queue != [] && d.busyUntil == 0 { DrainGrows(cfg, StartKernel(cfg, d.(queue := d.queue[1..]), d.queue[0])); }
  }

  /** A doorbell is dropped if and only if eight launches are still queued once a launch that is due has been retired;
      otherwise it is started or queued last. */
  lemma DoorbellDroppedIff(cfg: Config, d: Device)
    requires DeviceOk(cfg, d)
    ensures (var r, t := RetireIfReady(cfg, d.(override := 0)), Next(cfg, d, RingStep);
             && r.submitted == d.submitted
             && if |r.queue| == 8 then t == r
                else t.submitted == d.submitted + 1 && t.accepted == d.accepted + [Given(cfg, d)])
  {
    RetireKeeps(cfg, d.(override := 0));
    RetireAccepts(cfg, d.(override := 0));
  }

  lemma RetireAccepts(cfg: Config, d: Device)
    ensures RetireIfReady(cfg, d).submitted == d.submitted && RetireIfReady(cfg, d).accepted == d.accepted
  {
    if d.busyUntil != 0 && d.clk >= d.busyUntil {
      DrainAccepts(cfg, RaiseIrq(cfg, d.(kernelId := d.kernelId + 1, busyUntil := 0)));
    }
  }

  lemma {:induction false} DrainAccepts(cfg: Config, d: Device)
    ensures Drain(cfg, d).submitted == d.submitted && Drain(cfg, d).accepted == d.accepted
    decreases |d.queue|
  {
    if d.queue != [] && d.busyUntil == 0 {
      DrainAccepts(cfg, StartKernel(cfg, d.(queue := d.queue[1..]), d.queue[0]));
    }
  }

  /** After a tick the device holds the simulation open exactly while it has work. */
  lemma TickHoldsIff(cfg: Config, d: Device)
    ensures (var t := Next(cfg, d, TickStep); t.holding <==> t.busyUntil != 0 || t.queue != [])
  {
    OnlyHolds(RetireIfReady(cfg, d.(clk := (d.clk + 1) % WORD64)));
  }

  lemma OnlyHolds(d: Device)
    ensures (var t := Hold(d, true); t.holding <==> t.busyUntil != 0 || t.queue != [])
  {
  }

  /** An override the guest writes while the device is idle is the latency of its next launch, and of that one
      only. */
  lemma OverrideServesOne(cfg: Config, d: Device, value: nat)
    requires DeviceOk(cfg, d) && d.busyUntil == 0 && d.clk + value < WORD64 && value > 0
    ensures (var t := After(cfg, d, [Override(value), RingStep]);
             Running(t, d.clk, value) && t.override == 0 && Given(cfg, t) == cfg.kernelLatency)
  {
    var steps := [Override(value), RingStep];
    var e := d.(override := value);
    assert steps[..1] == [Override(value)] && [Override(value)][..0] == [];
    assert After(cfg, d, []) == d && After(cfg, d, [Override(value)]) == e;
    DoorbellStarts(cfg, e);
    assert After(cfg, d, steps) == Next(cfg, e, RingStep);
  }

  /** In every run an acknowledge of n consumes n completions, or all that are left, and lowers the line exactly if
      none is; an acknowledge of zero does nothing. */
  lemma AckStep(cfg: Config, d0: Device, steps: seq<Step>, d: Device, n: nat)
    requires Init(d0) && d == After(cfg, d0, steps) && cfg.hasIrq
    ensures (var t := Next(cfg, d, Ack(n));
             && t.retires == d.retires
             && t.consumed == (if d.consumed + n < d.retires then d.consumed + n else d.retires)
             && (t.irqPending <==> t.consumed < t.retires))
  {
    LaunchQueueSafety(cfg, d0, steps);
    AckIrqKeeps(cfg, d, n);
  }
}
