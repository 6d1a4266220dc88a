/** The adaptive filter in front of the scheduler: its time threshold and how that is tuned. */
module Filter {
  import opened DivMod

  const MAX_CPU_HZ: nat := 0x100_0000_0000
  const DEFAULT_PACKET_THRESHOLD := 136
  const DEFAULT_DELTA_TIME_US := 1000
  const TUNING_WINDOW_US := 1000000
  const DEFAULT_MAX_TTH_SEC := 10

  // ----- the threshold and the events that move it

  datatype Threshold = Threshold(time: nat, min: nat, max: nat, delta: nat)

  /** A tuning window that ended, a congestion callback, or an operator command (absent: keep). */
  datatype Event = Window(overloaded: bool) | Congestion | Operator(time: int, delta: int)

  function AtMost(x: nat, most: nat): nat {
    if x > most then most else x
  }

  function Step(t: Threshold, e: Event): Threshold {
    match e
    case Window(overloaded) =>
      if overloaded then t.(time := AtMost(t.time + t.delta, t.max))
      else t.(time := if t.time > t.min + t.delta then t.time - t.delta else t.min)
    case Congestion => t.(time := AtMost(2 * t.time, t.max))
    case Operator(time, delta) =>
      var u := if time >= 0 then t.(time := AtMost(time, t.max), min := AtMost(time, t.max)) else t;
      if delta >= 0 then u.(delta := delta) else u
  }

  function Run(t: Threshold, es: seq<Event>): Threshold
    decreases |es|
  {
    if es == [] then t else Run(Step(t, es[0]), es[1..])
  }

  ghost predicate InRange(t: Threshold) {
    t.min <= t.time <= t.max
  }

  /** Every interleaving of windows, congestion and operator commands keeps the threshold in range. */
  lemma {:induction false} RunInRange(t: Threshold, es: seq<Event>)
    requires InRange(t)
    ensures InRange(Run(t, es)) && Run(t, es).max == t.max
    decreases |es|
  {
    if es != [] {
      RunInRange(Step(t, es[0]), es[1..]);
    }
  }

  function Quiet(n: nat): (es: seq<Event>)
    ensures |es| == n
  {
    seq(n, i => Window(false))
  }

  /** n falls of delta from time, stopping at min. */
  function Fallen(time: nat, min: nat, delta: nat, n: nat): nat
    requires min <= time
  {
    if n * delta <= time - min then time - n * delta else min
  }

  lemma FallOnce(time: nat, min: nat, delta: nat, n: nat)
    requires min <= time && delta > 0 && n > 0
    ensures Fallen(time, min, delta, n) == Fallen(if time > min + delta then time - delta else min, min, delta, n - 1)
  {
    assert n * delta == (n - 1) * delta + delta;
    if time <= min + delta && n > 1 {
      MulMono(1, n - 1, delta);
    }
  }

  /** After n windows without overload the threshold has fallen by n * delta, but not below min. */
  lemma {:induction false} QuietWindows(t: Threshold, n: nat)
    requires InRange(t) && t.delta > 0
    ensures Run(t, Quiet(n)) == t.(time := Fallen(t.time, t.min, t.delta, n))
    decreases n
  {
    if n > 0 {
      assert Quiet(n)[1..] == Quiet(n - 1);
      hide Fallen;
      QuietWindows(Step(t, Window(false)), n - 1);
      FallOnce(t.time, t.min, t.delta, n);
    }
  }

  /** The threshold is at min after n quiet windows exactly when n is at least ceil((time - min) / delta). */
  lemma ReachesMin(t: Threshold, n: nat)
    requires InRange(t) && t.delta > 0
    ensures Run(t, Quiet(n)).time == t.min <==> n >= CeilDiv(t.time - t.min, t.delta)
  {
    QuietWindows(t, n);
    CeilDivBound(t.time - t.min, n, t.delta);
  }

  /** With delta 0 quiet windows never move a threshold that congestion has raised. */
  lemma {:induction false} NoDeltaNoDecay(t: Threshold, n: nat)
    requires InRange(t) && t.delta == 0
    ensures Run(t, Quiet(n)) == t
    decreases n
  {
    if n > 0 {
      assert Quiet(n)[1..] == Quiet(n - 1);
      assert Step(t, Window(false)) == t;
      NoDeltaNoDecay(t, n - 1);
    }
  }

  function Busy(n: nat): (es: seq<Event>)
    ensures |es| == n
  {
    seq(n, i => Window(true))
  }

  /** After n overloaded windows the threshold has risen by n * delta, but not above max. */
  lemma {:induction false} BusyWindows(t: Threshold, n: nat)
    requires InRange(t)
    ensures Run(t, Busy(n)) == t.(time := if t.time + n * t.delta <= t.max then t.time + n * t.delta else t.max)
    decreases n
  {
    if n > 0 {
      assert Busy(n)[1..] == Busy(n - 1);
      BusyWindows(Step(t, Window(true)), n - 1);
      assert n * t.delta == (n - 1) * t.delta + t.delta;
      MulMono(0, n - 1, t.delta);
    }
  }

  /** The threshold is at max after n overloaded windows exactly when n is at least ceil((max - time) / delta). */
  lemma ReachesMax(t: Threshold, n: nat)
    requires InRange(t) && t.delta > 0
    ensures Run(t, Busy(n)).time == t.max <==> n >= CeilDiv(t.max - t.time, t.delta)
  {
    BusyWindows(t, n);
    CeilDivBound(t.max - t.time, n, t.delta);
  }

  lemma {:induction false} RunConcat(t: Threshold, es: seq<Event>, fs: seq<Event>)
    ensures Run(t, es + fs) == Run(Run(t, es), fs)
    decreases |es|
  {
    if es == [] {
      assert es + fs == fs;
    } else {
      assert (es + fs)[1..] == es[1..] + fs;
      RunConcat(Step(t, es[0]), es[1..], fs);
    }
  }

  /** Quiet windows undo as many overloaded ones exactly when those did not run into max. */
  lemma QuietUndoesBusy(t: Threshold, n: nat)
    requires InRange(t) && t.delta > 0
    ensures Run(t, Busy(n) + Quiet(n)) == t <==> t.time + n * t.delta <= t.max || t.time == t.min
  {
    hide Run, Fallen;
    RunConcat(t, Busy(n), Quiet(n));
    BusyWindows(t, n);
    FallBack(t.time, t.min, t.max, t.delta, n);
    QuietWindows(Run(t, Busy(n)), n);
  }

  lemma FallBack(time: nat, min: nat, max: nat, delta: nat, n: nat)
    requires min <= time <= max
    ensures n * delta >= 0
    ensures var high := if time + n * delta <= max then time + n * delta else max;
            Fallen(high, min, delta, n) == time <==> time + n * delta <= max || time == min
  {
    MulMono(0, n, delta);
  }

  function Pow2(n: nat): (p: nat)
    ensures p > n
  {
    if n == 0 then 1 else 2 * Pow2(n - 1)
  }

  function Congested(n: nat): (es: seq<Event>)
    ensures |es| == n
  {
    seq(n, i => Congestion)
  }

  /** n congestion callbacks multiply the threshold by 2^n, up to max. */
  lemma {:induction false} Doublings(t: Threshold, n: nat)
    requires InRange(t)
    ensures Run(t, Congested(n)) == t.(time := AtMost(t.time * Pow2(n), t.max))
    decreases n
  {
    if n > 0 {
      assert Congested(n)[1..] == Congested(n - 1);
      Doublings(Step(t, Congestion), n - 1);
      CapDoubled(t.time, Pow2(n - 1), t.max);
    }
  }

  /** Capping early, before the remaining doublings, changes nothing. */
  lemma CapDoubled(x: nat, p: nat, max: nat)
    requires p > 0
    ensures AtMost(AtMost(2 * x, max) * p, max) == AtMost(x * (2 * p), max)
  {
    assert x * (2 * p) == (2 * x) * p;
    if 2 * x > max {
      MulMono(1, p, max);
      MulMono(max, 2 * x, p);
    }
  }

  /**
   Repeated congestion drives the threshold to max exactly when it is not 0 (or max is 0): with the
   offload time 0 that the applications configure, congestion has no effect at all.
   */
  lemma ZeroIsStuck(t: Threshold)
    requires InRange(t)
    ensures (exists n: nat :: Run(t, Congested(n)).time == t.max) <==> t.time > 0 || t.max == 0
    ensures t.time == 0 ==> forall n: nat :: Run(t, Congested(n)) == t
  {
    if t.time > 0 {
      Doublings(t, t.max);
      MulMono(1, t.time, Pow2(t.max));
      assert Run(t, Congested(t.max)).time == t.max;
    } else {
      forall n: nat
        ensures Run(t, Congested(n)) == t
      {
        Doublings(t, n);
      }
      assert t.max == 0 ==> Run(t, Congested(0)).time == t.max;
    }
  }

  // ----- the filter's state

  /** The length of a tuning window in cycles, in 64-bit arithmetic. */
  function WindowCycles(cpuHz: nat): nat {
    cpuHz * TUNING_WINDOW_US % UINT64_LIMIT / 1000000
  }

  /** Connections enqueued a second, in 64-bit arithmetic. */
  function EnqueueRate(enqueued: nat, cpuHz: nat, elapsed: nat): nat
    requires elapsed > 0
  {
    enqueued * cpuHz % UINT64_LIMIT / elapsed
  }

  lemma QuotientAbove(x: nat, b: nat, q: nat)
    requires b > 0
    ensures x / b > q <==> x >= (q + 1) * b
  {
    Split(x, b);
    if x / b > q {
      MulMono(q + 1, x / b, b);
    } else {
      MulMono(x / b, q, b);
    }
  }

  /** Operator values in microseconds stay in range when turned into cycles. */
  lemma CyclesFit(us: nat, cpuHz: nat)
    requires us < INT32_LIMIT && cpuHz < MAX_CPU_HZ
    ensures 0 <= us * (cpuHz / 1000000) < MAX_CPU_HZ * INT32_LIMIT / 1000
  {
    MulMono(0, us, cpuHz / 1000000);
    MulMono(us, INT32_LIMIT, cpuHz / 1000000);
  }

  lemma NoWrap(cpuHz: nat, x: nat, y: nat)
    requires cpuHz < MAX_CPU_HZ && x + y < UINT64_LIMIT
    ensures WindowCycles(cpuHz) == cpuHz && Add64(x, y) == x + y
  {
  }

  class ConnFilter {
    const enableFlowQoS: bool
    const cpuHz: nat
    var offloadTime: nat       // CONN_OFFLOAD_TIME, the time threshold in cycles
    var offloadTimeMin: nat
    var offloadTimeMax: nat
    var delta: nat
    var packetThreshold: nat
    var windowStart: nat
    var windowEnqueued: nat
    var enqueuedTotal: nat
    var rejectedTotal: nat
    var maxOffloadSpeed: nat

    ghost predicate Valid()
      reads this
    {
      && InRange(Thr()) && 0 < cpuHz < MAX_CPU_HZ && windowStart < UINT64_LIMIT
      && offloadTimeMax < MAX_CPU_HZ * INT32_LIMIT / 1000 && delta < MAX_CPU_HZ * INT32_LIMIT / 1000
    }

    ghost function Thr(): Threshold
      reads this
    {
      Threshold(offloadTime, offloadTimeMin, offloadTimeMax, delta)
    }

    /** The filter part of flowQoS_conntrack_init_env. */
    constructor (time: nat, offloadSpeed: int, cpuHz: nat, tsc: nat)
      requires time < INT32_LIMIT && 0 < cpuHz < MAX_CPU_HZ && tsc < UINT64_LIMIT
      ensures Valid() && enableFlowQoS == (offloadSpeed > 0)
      ensures enqueuedTotal == rejectedTotal == windowEnqueued == 0
      ensures offloadTime == offloadTimeMin == time * (cpuHz / 1000000)
      ensures var longest := DEFAULT_MAX_TTH_SEC * cpuHz;
              offloadTimeMax == if longest < offloadTimeMin then offloadTimeMin else longest
      ensures delta == DEFAULT_DELTA_TIME_US * (cpuHz / 1000000) && windowStart == tsc && this.cpuHz == cpuHz
      ensures if offloadSpeed > 0 then packetThreshold == DEFAULT_PACKET_THRESHOLD && maxOffloadSpeed == offloadSpeed
              else packetThreshold == maxOffloadSpeed == 0
    {
      MulMono(time, INT32_LIMIT, cpuHz / 1000000);
      this.cpuHz := cpuHz;
      offloadTime := time * (cpuHz / 1000000);
      offloadTimeMin := time * (cpuHz / 1000000);
      offloadTimeMax := if DEFAULT_MAX_TTH_SEC * cpuHz < time * (cpuHz / 1000000)
                        then time * (cpuHz / 1000000) else DEFAULT_MAX_TTH_SEC * cpuHz;
      delta := DEFAULT_DELTA_TIME_US * (cpuHz / 1000000);
      packetThreshold := if offloadSpeed > 0 then DEFAULT_PACKET_THRESHOLD else 0;
      windowStart, windowEnqueued, enqueuedTotal, rejectedTotal := tsc, 0, 0, 0;
      maxOffloadSpeed := if offloadSpeed > 0 then offloadSpeed else 0;
      enableFlowQoS := offloadSpeed > 0;
    }

    /** A tuning window ends at time stamp now. */
    ghost predicate WindowEnds(now: nat)
      requires now < UINT64_LIMIT && windowStart < UINT64_LIMIT
      reads this
    {
      enableFlowQoS && maxOffloadSpeed != 0 && windowStart != 0 && Sub64(now, windowStart) >= cpuHz
    }

    /** Connections were enqueued in the window faster than the hardware takes them. */
    ghost predicate Overloaded(now: nat)
      requires now < UINT64_LIMIT && windowStart < UINT64_LIMIT && cpuHz > 0 && WindowEnds(now)
      reads this
    {
      EnqueueRate(windowEnqueued, cpuHz, Sub64(now, windowStart)) > maxOffloadSpeed
    }

    /** The thresholds once a packet's processing has looked at the window at time stamp now. */
    ghost function Tuned(now: nat): Threshold
      requires now < UINT64_LIMIT && windowStart < UINT64_LIMIT && cpuHz > 0
      reads this
    {
      if WindowEnds(now) then Step(Thr(), Window(Overloaded(now))) else Thr()
    }

    /** What that comes to in terms of time stamps and counts. */
    lemma TunedMeans(now: nat)
      requires Valid() && now < UINT64_LIMIT
      ensures var elapsed := (now + UINT64_LIMIT - windowStart) % UINT64_LIMIT;
              && (WindowEnds(now) <==> enableFlowQoS && maxOffloadSpeed > 0 && windowStart > 0 && elapsed >= cpuHz)
              && (WindowEnds(now) ==>
                    (Overloaded(now) <==> windowEnqueued * cpuHz % UINT64_LIMIT >= (maxOffloadSpeed + 1) * elapsed))
    {
      assert Sub64(now, windowStart) == (now + UINT64_LIMIT - windowStart) % UINT64_LIMIT;
      if WindowEnds(now) {
        QuotientAbove(windowEnqueued * cpuHz % UINT64_LIMIT, Sub64(now, windowStart), maxOffloadSpeed);
      }
    }

    /** The connections of the window so far, which starts again when it ends at time stamp now. */
    ghost function TunedCount(now: nat): nat
      requires now < UINT64_LIMIT && windowStart < UINT64_LIMIT
      reads this
    {
      if WindowEnds(now) then 0 else windowEnqueued
    }

    /**
     flowQoS_filter_runtime_tune. A window that ends raises the threshold by delta, up to the maximum, when
     more than maxOffloadSpeed connections a second were enqueued in it (in 64-bit arithmetic), and lowers
     it by delta, down to the minimum, when not.
     */
    method RuntimeTune(now: nat)
      requires Valid() && now < UINT64_LIMIT
      modifies this`offloadTime, this`windowStart, this`windowEnqueued
      ensures Valid() && Thr() == old(Tuned(now)) && windowEnqueued == old(TunedCount(now))
      ensures var elapsed := (now + UINT64_LIMIT - old(windowStart)) % UINT64_LIMIT;
              var enqueued := old(windowEnqueued) * cpuHz % UINT64_LIMIT;
              var raised, lowered := old(offloadTime) + delta, old(offloadTime) - delta;
              if enableFlowQoS && maxOffloadSpeed > 0 && old(windowStart) > 0 && elapsed >= cpuHz
              then && windowStart == now && windowEnqueued == 0
                   && offloadTime == if enqueued >= (maxOffloadSpeed + 1) * elapsed
                                     then (if raised < offloadTimeMax then raised else offloadTimeMax)
                                     else (if lowered > offloadTimeMin then lowered else offloadTimeMin)
              else offloadTime == old(offloadTime) && windowEnqueued == old(windowEnqueued)
      ensures var ends := old(WindowEnds(now));
              windowStart == if ends || (enableFlowQoS && maxOffloadSpeed != 0 && old(windowStart) == 0)
                                then now else old(windowStart)
    {
      if !enableFlowQoS || maxOffloadSpeed == 0 {
        return;
      }
      TunedMeans(now);
      hide EnqueueRate, WindowCycles, Add64, Sub64;
      NoWrap(cpuHz, offloadTime, delta);
      NoWrap(cpuHz, offloadTimeMin, delta);
      var window := WindowCycles(cpuHz);
      if windowStart == 0 {
        windowStart := now;
        return;
      }
      if Sub64(now, windowStart) < window {
        return;
      }
      var elapsed := Sub64(now, windowStart);
      var enqueueRate := EnqueueRate(windowEnqueued, cpuHz, elapsed);
      if enqueueRate > maxOffloadSpeed {
        offloadTime := Add64(offloadTime, delta);
        if offloadTime > offloadTimeMax {
          offloadTime := offloadTimeMax;
        }
      } else {
        if offloadTime > Add64(offloadTimeMin, delta) {
          offloadTime := offloadTime - delta;
        } else {
          offloadTime := offloadTimeMin;
        }
      }
      windowEnqueued := 0;
      windowStart := now;
    }

    /** flowQoS_filter_congestion_cb. */
    method CongestionCb()
      requires Valid()
      modifies this`offloadTime
      ensures Valid() && Thr() == if enableFlowQoS then Step(old(Thr()), Congestion) else old(Thr())
      ensures offloadTime == if !enableFlowQoS then old(offloadTime)
                             else if 2 * old(offloadTime) < offloadTimeMax then 2 * old(offloadTime) else offloadTimeMax
    {
      if !enableFlowQoS {
        return;
      }
      offloadTime := Add64(offloadTime, offloadTime);
      if offloadTime > offloadTimeMax {
        offloadTime := offloadTimeMax;
      }
    }

    /** flowQoS_conntrack_tune_filter; a negative argument keeps the current value. */
    method TuneFilter(timeUs: int, packets: int, deltaUs: int, speed: int) returns (r: int)
      requires Valid()
      requires timeUs < INT32_LIMIT && packets < INT32_LIMIT && deltaUs < INT32_LIMIT && speed < INT32_LIMIT
      modifies this`offloadTime, this`offloadTimeMin, this`delta, this`packetThreshold, this`maxOffloadSpeed
      ensures Valid() && r == 1
      ensures Thr() == Step(old(Thr()), Operator(if timeUs >= 0 then timeUs * (cpuHz / 1000000) else -1,
                                                 if deltaUs >= 0 then deltaUs * (cpuHz / 1000000) else -1))
      ensures var unit, max := cpuHz / 1000000, offloadTimeMax;
              && (timeUs < 0 ==> offloadTime == old(offloadTime) && offloadTimeMin == old(offloadTimeMin))
              && (timeUs >= 0 ==> offloadTime == offloadTimeMin == if timeUs * unit < max then timeUs * unit else max)
              && delta == (if deltaUs >= 0 then deltaUs * unit else old(delta))
      ensures packetThreshold == if packets >= 0 then packets else old(packetThreshold)
      ensures maxOffloadSpeed == if speed >= 0 then speed else old(maxOffloadSpeed)
    {
      if timeUs >= 0 {
        CyclesFit(timeUs, cpuHz);
        offloadTime := timeUs * (cpuHz / 1000000);
        offloadTimeMin := offloadTime;
      }
      if packets >= 0 {
        packetThreshold := packets;
      }
      if deltaUs >= 0 {
        CyclesFit(deltaUs, cpuHz);
        delta := deltaUs * (cpuHz / 1000000);
      }
      if speed >= 0 {
        maxOffloadSpeed := speed;
      }
      if offloadTime > offloadTimeMax {
        offloadTime := offloadTimeMax;
      }
      if offloadTimeMin > offloadTimeMax {
        offloadTimeMin := offloadTimeMax;
      }
      return 1;
    }
  }
}
