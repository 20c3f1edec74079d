/** The rate control of `MarketFeedSimulator::simulateMarket`: a busy-wait
    loop that, on every iteration, derives a target interval from the
    configured rate and emits one update once that interval has elapsed
    since the last emission. Steady-clock readings are inputs, in
    nanoseconds (the period of `steady_clock` on the targeted Linux hosts);
    the 10 µs sleep of a non-emitting iteration only delays the next reading
    and is not modelled. */
module Scheduler {
  import opened Ints

  const MicrosPerSecond: int := 1000000
  const NanosPerMicro: int := 1000

  /** `duration_cast<microseconds>(current_time - last_time).count()`: the
      nanosecond difference of two readings, truncated toward zero to whole
      microseconds. */
  function ElapsedMicros(lastTime: int, now: int): (e: int)
    ensures lastTime <= now ==>
      0 <= e && e * NanosPerMicro <= now - lastTime < (e + 1) * NanosPerMicro
    ensures now < lastTime ==>
      e <= 0 && -e * NanosPerMicro <= lastTime - now < (1 - e) * NanosPerMicro
  {
    var d := now - lastTime;
    if d >= 0 then d / NanosPerMicro else -((-d) / NanosPerMicro)
  }

  /** Whether a pass reading `now` emits, against reference time `lastTime`. */
  predicate Due(interval: int, lastTime: int, now: int)
  {
    ElapsedMicros(lastTime, now) >= interval
  }

  /** For a positive interval (or a zero one on a clock that has not gone
      back), an update is due exactly when at least `interval` whole
      microseconds' worth of nanoseconds have passed: a fraction of a
      microsecond never counts. */
  lemma DueExactly(interval: int, lastTime: int, now: int)
    requires interval > 0 || (interval == 0 && lastTime <= now)
    ensures Due(interval, lastTime, now) <==> now - lastTime >= interval * NanosPerMicro
  {
    var e := ElapsedMicros(lastTime, now);
    if lastTime <= now {
      if e >= interval {
        assert e * NanosPerMicro >= interval * NanosPerMicro;
      } else {
        assert (e + 1) * NanosPerMicro <= interval * NanosPerMicro;
      }
    } else {
      assert e <= 0;
    }
  }

  /** At rate 1000 on a closed market (interval 1000 µs), readings 999 ns and
      1 000 000 ns apart by 999 001 ns are 999 whole microseconds apart: not due. */
  lemma SubMicrosecondTruncation()
    ensures TargetInterval(EffectiveRate(1000, 5, false)) == 1000
    ensures !Due(1000, 999, 1000000)
    ensures Due(1000, 0, 1000000)
  {
  }

  /** The rate the loop aims at: `messages_per_second * (market_open ? burst_multiplier : 1)`. */
  function EffectiveRate(messagesPerSecond: I32, burstMultiplier: I32, marketOpen: bool): int
  {
    messagesPerSecond * (if marketOpen then burstMultiplier else 1)
  }

  /** The loop computes the effective rate in `int` and divides by it: the
      product must not overflow and must not be zero. */
  predicate RateUsable(messagesPerSecond: I32, burstMultiplier: I32, marketOpen: bool)
  {
    var rate := EffectiveRate(messagesPerSecond, burstMultiplier, marketOpen);
    rate != 0 && -0x8000_0000 <= rate < 0x8000_0000
  }

  /** `1000000 / effective_rate` in C++ `int` division, which truncates
      toward zero: for a positive rate, the number of whole microseconds
      that fit in one period; for a negative rate, a non-positive interval. */
  function TargetInterval(effectiveRate: int): (interval: int)
    requires effectiveRate != 0
    ensures effectiveRate > 0 ==>
      0 <= interval && interval * effectiveRate <= MicrosPerSecond < (interval + 1) * effectiveRate
    ensures effectiveRate < 0 ==>
      interval <= 0 && -interval * -effectiveRate <= MicrosPerSecond < (1 - interval) * -effectiveRate
  {
    if effectiveRate > 0 then MicrosPerSecond / effectiveRate
    else -(MicrosPerSecond / -effectiveRate)
  }

  /** What one iteration of the loop decides, and the reference time it keeps. */
  datatype Decision = Decision(emit: bool, lastTime: int)

  /** One iteration: emit when at least one target interval has elapsed
      (in whole microseconds),
      and then take the current reading (not `lastTime + interval`) as the
      new reference time. For a positive rate the truncated interval means
      an update is due as soon as `elapsed + 1` microseconds exceed one
      period; for a negative rate every iteration on a forward-moving clock
      emits. */
  function Step(messagesPerSecond: I32, burstMultiplier: I32, marketOpen: bool,
                lastTime: int, now: int): (d: Decision)
    requires RateUsable(messagesPerSecond, burstMultiplier, marketOpen)
    ensures var rate := EffectiveRate(messagesPerSecond, burstMultiplier, marketOpen);
      (rate > 0 ==> (d.emit <==> (ElapsedMicros(lastTime, now) + 1) * rate > MicrosPerSecond))
      && (rate < 0 && lastTime <= now ==> d.emit)
    ensures d.emit <==> Due(TargetInterval(EffectiveRate(messagesPerSecond, burstMultiplier, marketOpen)), lastTime, now)
    ensures d.emit ==> d.lastTime == now
    ensures !d.emit ==> d.lastTime == lastTime
  {
    var rate := EffectiveRate(messagesPerSecond, burstMultiplier, marketOpen);
    var interval := TargetInterval(rate);
    var elapsed := ElapsedMicros(lastTime, now);
    assert rate > 0 ==> (elapsed >= interval <==> (elapsed + 1) * rate > MicrosPerSecond) by {
      if rate > 0 {
        IntervalThreshold(elapsed, interval, rate);
      }
    }
    if elapsed >= interval then Decision(true, now) else Decision(false, lastTime)
  }

  /** With truncating division, `elapsed >= 1000000 / rate` holds exactly
      when `(elapsed + 1) * rate > 1000000`. */
  lemma IntervalThreshold(elapsed: int, interval: int, rate: int)
    requires rate > 0
    requires interval * rate <= MicrosPerSecond < (interval + 1) * rate
    ensures elapsed >= interval <==> (elapsed + 1) * rate > MicrosPerSecond
  {
    if elapsed >= interval {
      assert (elapsed + 1) * rate >= (interval + 1) * rate;
    } else {
      assert (elapsed + 1) * rate <= interval * rate;
    }
  }

  /** The clock readings at which a loop with a fixed target interval emits,
      starting from reference time `lastTime`, given the readings taken by
      its successive iterations. */
  function EmitTimes(interval: int, lastTime: int, nows: seq<int>): (ts: seq<int>)
    ensures |ts| <= |nows|
    decreases |nows|
  {
    if nows == [] then []
    else if Due(interval, lastTime, nows[0]) then [nows[0]] + EmitTimes(interval, nows[0], nows[1..])
    else EmitTimes(interval, lastTime, nows[1..])
  }

  /** Unfolds `EmitTimes` at position `i` of the readings. */
  lemma EmitTimesAt(interval: int, lastTime: int, nows: seq<int>, i: nat)
    requires i < |nows|
    ensures EmitTimes(interval, lastTime, nows[i..])
            == if Due(interval, lastTime, nows[i])
               then [nows[i]] + EmitTimes(interval, nows[i], nows[i + 1..])
               else EmitTimes(interval, lastTime, nows[i + 1..])
  {
    assert nows[i..][0] == nows[i] && nows[i..][1..] == nows[i + 1..];
  }

  /** Emissions are taken from the readings, and consecutive emissions (and
      the first one, from the starting reference time) are at least one
      interval apart, in whole microseconds. */
  lemma {:induction false} EmitSpacing(interval: int, lastTime: int, nows: seq<int>)
    ensures var ts := EmitTimes(interval, lastTime, nows);
      (forall j :: 0 <= j < |ts| ==> ts[j] in nows)
      && (ts != [] ==> ElapsedMicros(lastTime, ts[0]) >= interval)
      && (forall j :: 0 < j < |ts| ==> ElapsedMicros(ts[j - 1], ts[j]) >= interval)
    decreases |nows|
  {
    if nows != [] {
      if Due(interval, lastTime, nows[0]) {
        EmitSpacing(interval, nows[0], nows[1..]);
      } else {
        EmitSpacing(interval, lastTime, nows[1..]);
      }
    }
  }

  lemma MulSucc(n: int, g: int)
    ensures (n + 1) * g == n * g + g
  {
  }

  /** Because the reference time restarts at each emission, the loop never
      runs faster than its target: between `lastTime` and the latest reading
      `horizon` (both in nanoseconds), at most
      `(horizon - lastTime) / (interval * 1000)` updates go out. */
  lemma {:induction false} RateCap(interval: int, lastTime: int, nows: seq<int>, horizon: int)
    requires interval > 0 && lastTime <= horizon
    requires forall k :: 0 <= k < |nows| ==> nows[k] <= horizon
    ensures |EmitTimes(interval, lastTime, nows)| * (interval * NanosPerMicro) <= horizon - lastTime
    decreases |nows|
  {
    if nows != [] {
      var rest := nows[1..];
      assert forall k :: 0 <= k < |rest| ==> rest[k] <= horizon by {
        forall k | 0 <= k < |rest| ensures rest[k] <= horizon {
          assert rest[k] == nows[k + 1];
        }
      }
      var gap := interval * NanosPerMicro;
      if Due(interval, lastTime, nows[0]) {
        DueExactly(interval, lastTime, nows[0]);
        RateCap(interval, nows[0], rest, horizon);
        var n := |EmitTimes(interval, nows[0], rest)|;
        assert |EmitTimes(interval, lastTime, nows)| == n + 1;
        assert n * gap <= horizon - nows[0];
        assert gap <= nows[0] - lastTime;
        MulSucc(n, gap);
      } else {
        RateCap(interval, lastTime, rest, horizon);
        assert EmitTimes(interval, lastTime, nows) == EmitTimes(interval, lastTime, rest);
      }
    }
  }
}
