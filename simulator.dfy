/** `MarketFeedSimulator`: the instrument registry, the run flag, the rate
    configuration, and the market-update and scheduling logic that change
    them. The socket, the background thread, the random generator and the
    clocks are outside the model: what they would produce is passed in. */
module FeedSimulator {
  import opened Ints
  import opened Options
  import opened Wire
  import opened Instruments
  import Scheduler

  /** Field initialisers of the class. */
  const DefaultMessagesPerSecond: I32 := 1000
  const DefaultBurstMultiplier: I32 := 5
  /** What `setBurstMode` stores. */
  const BurstOnMultiplier: I32 := 10
  const BurstOffMultiplier: I32 := 1

  /** Burst mode, as `setBurstMode` sets it, multiplies the effective rate
      of an open market by ten relative to normal mode; a closed market runs
      at the base rate whatever the multiplier. */
  lemma BurstAndMarketState(messagesPerSecond: I32, burstMultiplier: I32)
    ensures Scheduler.EffectiveRate(messagesPerSecond, BurstOnMultiplier, true)
            == 10 * Scheduler.EffectiveRate(messagesPerSecond, BurstOffMultiplier, true)
    ensures Scheduler.EffectiveRate(messagesPerSecond, burstMultiplier, false) == messagesPerSecond
  {
  }

  /** One pass of the `simulateMarket` loop: the steady-clock reading it
      takes (in nanoseconds) and what a market update would draw if this
      pass emits one. */
  datatype Iteration = Iteration(now: int, draw: Draw)

  function Nows(iterations: seq<Iteration>): (nows: seq<int>)
    ensures |nows| == |iterations|
    ensures forall k :: 0 <= k < |iterations| ==> nows[k] == iterations[k].now
  {
    seq(|iterations|, k requires 0 <= k < |iterations| => iterations[k].now)
  }

  /** Every pass draws an index inside a registry of `size` instruments. */
  predicate DrawsIn(size: nat, iterations: seq<Iteration>)
  {
    forall k :: 0 <= k < |iterations| ==> 0 <= iterations[k].draw.index < size
  }

  /** The registry and the messages sent after the passes `iterations` of a
      running loop with target interval `interval` and reference time
      `lastTime`: a due pass moves the reference time to its reading and
      updates the drawn instrument as `Tick` describes, sending its message
      (a drawn index outside the registry, which only an empty registry
      admits, updates nothing); a pass that is not due changes nothing. */
  ghost function Run(insts: seq<Instrument>, interval: int, lastTime: int, iterations: seq<Iteration>)
    : (r: (seq<Instrument>, seq<RawMarketMessage>))
    ensures |r.0| == |insts|
    decreases |iterations|
  {
    if iterations == [] then (insts, [])
    else
      var it := iterations[0];
      if !Scheduler.Due(interval, lastTime, it.now) then Run(insts, interval, lastTime, iterations[1..])
      else if !(0 <= it.draw.index < |insts|) then Run(insts, interval, it.now, iterations[1..])
      else
        var u := Tick(insts[it.draw.index], it.draw);
        var rest := Run(insts[it.draw.index := u.next], interval, it.now, iterations[1..]);
        (rest.0, [u.msg] + rest.1)
  }

  /** Unfolds `Run` at pass `i`. */
  lemma RunAt(insts: seq<Instrument>, interval: int, lastTime: int, iterations: seq<Iteration>, i: nat)
    requires i < |iterations|
    ensures var it := iterations[i];
      Run(insts, interval, lastTime, iterations[i..])
      == if !Scheduler.Due(interval, lastTime, it.now) then Run(insts, interval, lastTime, iterations[i + 1..])
         else if !(0 <= it.draw.index < |insts|) then Run(insts, interval, it.now, iterations[i + 1..])
         else
           var u := Tick(insts[it.draw.index], it.draw);
           var rest := Run(insts[it.draw.index := u.next], interval, it.now, iterations[i + 1..]);
           (rest.0, [u.msg] + rest.1)
  {
    assert iterations[i..][0] == iterations[i] && iterations[i..][1..] == iterations[i + 1..];
  }

  /** One pass `it` of a run on a non-empty registry, given what the pass
      decided and did: the remaining passes `later` continue from the new
      registry and reference time, after the pass's message if it sent one. */
  lemma RunPass(insts: seq<Instrument>, interval: int, lastTime: int, it: Iteration, later: seq<Iteration>,
                next: seq<Instrument>, newLast: int, msg: Option<RawMarketMessage>)
    requires 0 <= it.draw.index < |insts|
    requires msg.Some? <==> Scheduler.Due(interval, lastTime, it.now)
    requires newLast == if msg.Some? then it.now else lastTime
    requires msg.None? ==> next == insts
    requires msg.Some? ==>
      && msg.value == Tick(insts[it.draw.index], it.draw).msg
      && next == insts[it.draw.index := Tick(insts[it.draw.index], it.draw).next]
    ensures Run(insts, interval, lastTime, [it] + later).0 == Run(next, interval, newLast, later).0
    ensures Run(insts, interval, lastTime, [it] + later).1
            == (if msg.Some? then [msg.value] else []) + Run(next, interval, newLast, later).1
  {
    assert ([it] + later)[0] == it && ([it] + later)[1..] == later;
    if msg.None? {
      assert [] + Run(next, interval, newLast, later).1 == Run(next, interval, newLast, later).1;
    }
  }

  /** The per-slot message histories after the passes `iterations` of a
      running loop, starting from `hists`: each due pass that updates a slot
      appends the message `Tick` builds for it to that slot's history. */
  ghost function RunHistories(insts: seq<Instrument>, hists: seq<seq<RawMarketMessage>>, interval: int,
                              lastTime: int, iterations: seq<Iteration>): (h: seq<seq<RawMarketMessage>>)
    requires |hists| == |insts|
    ensures |h| == |hists|
    decreases |iterations|
  {
    if iterations == [] then hists
    else
      var it := iterations[0];
      if !Scheduler.Due(interval, lastTime, it.now) then RunHistories(insts, hists, interval, lastTime, iterations[1..])
      else if !(0 <= it.draw.index < |insts|) then RunHistories(insts, hists, interval, it.now, iterations[1..])
      else
        var k := it.draw.index;
        var u := Tick(insts[k], it.draw);
        RunHistories(insts[k := u.next], hists[k := hists[k] + [u.msg]], interval, it.now, iterations[1..])
  }

  /** A run only appends to the histories: each slot's history before it is
      a prefix of the history after it. */
  lemma {:induction false} RunHistoriesGrow(insts: seq<Instrument>, hists: seq<seq<RawMarketMessage>>, interval: int,
                                            lastTime: int, iterations: seq<Iteration>)
    requires |hists| == |insts|
    ensures forall s :: 0 <= s < |hists| ==> hists[s] <= RunHistories(insts, hists, interval, lastTime, iterations)[s]
    decreases |iterations|
  {
    if iterations != [] {
      var it := iterations[0];
      if !Scheduler.Due(interval, lastTime, it.now) {
        RunHistoriesGrow(insts, hists, interval, lastTime, iterations[1..]);
      } else if !(0 <= it.draw.index < |insts|) {
        RunHistoriesGrow(insts, hists, interval, it.now, iterations[1..]);
      } else {
        var k := it.draw.index;
        var u := Tick(insts[k], it.draw);
        var hists' := hists[k := hists[k] + [u.msg]];
        RunHistoriesGrow(insts[k := u.next], hists', interval, it.now, iterations[1..]);
        assert forall s :: 0 <= s < |hists| ==> hists[s] <= hists'[s];
      }
    }
  }

  /** The histories `RunHistories` builds agree with the registry `Run`
      leaves: every slot consistent before a run is consistent after it,
      so its messages carry sequence numbers 1, 2, 3, ... and its volume is
      the sum of their volumes (modulo the unsigned widths). */
  lemma {:induction false} RunKeepsSlotsConsistent(insts: seq<Instrument>, hists: seq<seq<RawMarketMessage>>,
                                                   interval: int, lastTime: int, iterations: seq<Iteration>)
    requires |hists| == |insts|
    requires forall s :: 0 <= s < |insts| ==> SlotConsistent(insts[s], hists[s])
    ensures forall s :: 0 <= s < |insts| ==>
      SlotConsistent(Run(insts, interval, lastTime, iterations).0[s],
                     RunHistories(insts, hists, interval, lastTime, iterations)[s])
    decreases |iterations|
  {
    if iterations != [] {
      var it := iterations[0];
      if !Scheduler.Due(interval, lastTime, it.now) {
        RunKeepsSlotsConsistent(insts, hists, interval, lastTime, iterations[1..]);
      } else if !(0 <= it.draw.index < |insts|) {
        RunKeepsSlotsConsistent(insts, hists, interval, it.now, iterations[1..]);
      } else {
        var k := it.draw.index;
        var u := Tick(insts[k], it.draw);
        TickPreservesConsistency(insts[k], hists[k], it.draw);
        var insts', hists' := insts[k := u.next], hists[k := hists[k] + [u.msg]];
        assert forall s :: 0 <= s < |insts'| ==> SlotConsistent(insts'[s], hists'[s]);
        RunKeepsSlotsConsistent(insts', hists', interval, it.now, iterations[1..]);
      }
    }
  }

  /** One pass of `RunHistories`, given what the pass did to the registry
      and the histories. */
  lemma RunHistoriesPass(insts: seq<Instrument>, hists: seq<seq<RawMarketMessage>>, interval: int, lastTime: int,
                         it: Iteration, later: seq<Iteration>,
                         next: seq<Instrument>, nextHists: seq<seq<RawMarketMessage>>, newLast: int,
                         msg: Option<RawMarketMessage>)
    requires |hists| == |insts| && 0 <= it.draw.index < |insts|
    requires msg.Some? <==> Scheduler.Due(interval, lastTime, it.now)
    requires newLast == if msg.Some? then it.now else lastTime
    requires msg.None? ==> next == insts && nextHists == hists
    requires msg.Some? ==>
      && msg.value == Tick(insts[it.draw.index], it.draw).msg
      && next == insts[it.draw.index := Tick(insts[it.draw.index], it.draw).next]
      && nextHists == hists[it.draw.index := hists[it.draw.index] + [msg.value]]
    ensures |nextHists| == |next|
    ensures RunHistories(insts, hists, interval, lastTime, [it] + later)
            == RunHistories(next, nextHists, interval, newLast, later)
  {
    assert ([it] + later)[0] == it && ([it] + later)[1..] == later;
  }

  /** On a non-empty registry, a run sends one message per emission time
      `EmitTimes` selects from its readings. */
  lemma {:induction false} RunCount(insts: seq<Instrument>, interval: int, lastTime: int, iterations: seq<Iteration>)
    requires DrawsIn(|insts|, iterations)
    ensures |Run(insts, interval, lastTime, iterations).1| == |Scheduler.EmitTimes(interval, lastTime, Nows(iterations))|
    decreases |iterations|
  {
    if iterations != [] {
      var it := iterations[0];
      var nows := Nows(iterations);
      assert nows[0] == it.now && nows[1..] == Nows(iterations[1..]);
      assert DrawsIn(|insts|, iterations[1..]) by {
        forall k | 0 <= k < |iterations| - 1 ensures 0 <= iterations[1..][k].draw.index < |insts| {
          assert iterations[1..][k] == iterations[k + 1];
        }
      }
      RunAt(insts, interval, lastTime, iterations, 0);
      assert iterations[0..] == iterations;
      if !Scheduler.Due(interval, lastTime, it.now) {
        RunCount(insts, interval, lastTime, iterations[1..]);
      } else {
        var u := Tick(insts[it.draw.index], it.draw);
        RunCount(insts[it.draw.index := u.next], interval, it.now, iterations[1..]);
      }
    }
  }

  /** The ids of a registry. */
  ghost function Ids(insts: seq<Instrument>): set<U32>
  {
    set i | 0 <= i < |insts| :: insts[i].id
  }

  /** A run keeps every instrument's id in its slot, and every message it
      sends names a registered instrument, has side 'B' or 'S' and a volume
      in 100..9999. */
  lemma {:induction false} RunMessages(insts: seq<Instrument>, interval: int, lastTime: int, iterations: seq<Iteration>)
    ensures var r := Run(insts, interval, lastTime, iterations);
      && (forall i :: 0 <= i < |insts| ==> r.0[i].id == insts[i].id)
      && (forall j :: 0 <= j < |r.1| ==>
            && r.1[j].instrumentId in Ids(insts)
            && (r.1[j].side == Buy || r.1[j].side == Sell)
            && MinVolume <= r.1[j].volume < MaxVolume)
    decreases |iterations|
  {
    if iterations != [] {
      var it := iterations[0];
      RunAt(insts, interval, lastTime, iterations, 0);
      assert iterations[0..] == iterations;
      if !Scheduler.Due(interval, lastTime, it.now) {
        RunMessages(insts, interval, lastTime, iterations[1..]);
      } else if !(0 <= it.draw.index < |insts|) {
        RunMessages(insts, interval, it.now, iterations[1..]);
      } else {
        var k := it.draw.index;
        var u := Tick(insts[k], it.draw);
        var insts' := insts[k := u.next];
        RunMessages(insts', interval, it.now, iterations[1..]);
        assert Ids(insts') == Ids(insts) by {
          forall i | 0 <= i < |insts| ensures insts'[i].id == insts[i].id { }
        }
        var rest := Run(insts', interval, it.now, iterations[1..]);
        assert Run(insts, interval, lastTime, iterations).1 == [u.msg] + rest.1;
        assert u.msg.instrumentId == insts[k].id;
      }
    }
  }

  /** The registry slot each message of a run was generated for, in the
      order the messages are sent. */
  ghost function RunSlots(insts: seq<Instrument>, interval: int, lastTime: int, iterations: seq<Iteration>)
    : (slots: seq<nat>)
    ensures |slots| == |Run(insts, interval, lastTime, iterations).1|
    ensures forall j :: 0 <= j < |slots| ==> slots[j] < |insts|
    decreases |iterations|
  {
    if iterations == [] then []
    else
      var it := iterations[0];
      if !Scheduler.Due(interval, lastTime, it.now) then RunSlots(insts, interval, lastTime, iterations[1..])
      else if !(0 <= it.draw.index < |insts|) then RunSlots(insts, interval, it.now, iterations[1..])
      else
        var k := it.draw.index;
        [k] + RunSlots(insts[k := Tick(insts[k], it.draw).next], interval, it.now, iterations[1..])
  }

  /** The messages of `sent` whose slot in `slots` is `s`, in order. */
  ghost function SlotMessages(sent: seq<RawMarketMessage>, slots: seq<nat>, s: nat): (m: seq<RawMarketMessage>)
    requires |slots| == |sent|
    ensures |m| <= |sent|
    decreases |sent|
  {
    if sent == [] then []
    else (if slots[0] == s then [sent[0]] else []) + SlotMessages(sent[1..], slots[1..], s)
  }

  /** What a run sends, split by slot, is what it appends to the histories:
      for every slot, the history after the run is the history before it
      followed by the messages sent for that slot, in sending order. */
  lemma {:induction false} RunSentBySlot(insts: seq<Instrument>, hists: seq<seq<RawMarketMessage>>,
                                         interval: int, lastTime: int, iterations: seq<Iteration>)
    requires |hists| == |insts|
    ensures forall s :: 0 <= s < |insts| ==>
      RunHistories(insts, hists, interval, lastTime, iterations)[s]
      == hists[s] + SlotMessages(Run(insts, interval, lastTime, iterations).1,
                                 RunSlots(insts, interval, lastTime, iterations), s)
    decreases |iterations|
  {
    if iterations != [] {
      var it := iterations[0];
      if !Scheduler.Due(interval, lastTime, it.now) {
        RunSentBySlot(insts, hists, interval, lastTime, iterations[1..]);
      } else if !(0 <= it.draw.index < |insts|) {
        RunSentBySlot(insts, hists, interval, it.now, iterations[1..]);
      } else {
        var k := it.draw.index;
        var u := Tick(insts[k], it.draw);
        var insts', hists' := insts[k := u.next], hists[k := hists[k] + [u.msg]];
        RunSentBySlot(insts', hists', interval, it.now, iterations[1..]);
        var rest := Run(insts', interval, it.now, iterations[1..]).1;
        var restSlots := RunSlots(insts', interval, it.now, iterations[1..]);
        var sent, slots := [u.msg] + rest, [k] + restSlots;
        assert Run(insts, interval, lastTime, iterations).1 == sent;
        assert RunSlots(insts, interval, lastTime, iterations) == slots;
        assert sent[1..] == rest && slots[1..] == restSlots;
        forall s | 0 <= s < |insts|
          ensures RunHistories(insts, hists, interval, lastTime, iterations)[s]
                  == hists[s] + SlotMessages(sent, slots, s)
        {
          var mine := if k == s then [u.msg] else [];
          assert SlotMessages(sent, slots, s) == mine + SlotMessages(rest, restSlots, s);
          assert hists'[s] == hists[s] + mine;
          assert hists[s] + (mine + SlotMessages(rest, restSlots, s))
                 == (hists[s] + mine) + SlotMessages(rest, restSlots, s);
        }
      }
    }
  }

  /** When every message is for slot `s`, the messages for `s` are all of them. */
  lemma {:induction false} SlotMessagesAll(sent: seq<RawMarketMessage>, slots: seq<nat>, s: nat)
    requires |slots| == |sent|
    requires forall j :: 0 <= j < |slots| ==> slots[j] == s
    ensures SlotMessages(sent, slots, s) == sent
    decreases |sent|
  {
    if sent != [] {
      SlotMessagesAll(sent[1..], slots[1..], s);
      assert sent == [sent[0]] + sent[1..];
    }
  }

  /** On a one-instrument registry, the history a run leaves is the history
      before it followed by everything the run sends. */
  lemma {:induction false} SingleSlotSent(insts: seq<Instrument>, hist: seq<RawMarketMessage>,
                       interval: int, lastTime: int, iterations: seq<Iteration>)
    requires |insts| == 1
    ensures RunHistories(insts, [hist], interval, lastTime, iterations)[0]
            == hist + Run(insts, interval, lastTime, iterations).1
  {
    RunSentBySlot(insts, [hist], interval, lastTime, iterations);
    SlotMessagesAll(Run(insts, interval, lastTime, iterations).1, RunSlots(insts, interval, lastTime, iterations), 0);
  }

  /** A run over a registry of one consistent instrument sends that
      instrument's messages with consecutive sequence numbers continuing its
      history, each naming it, and leaves its cumulative volume equal to the
      sum of all volumes it has sent (modulo 2^64). */
  lemma {:induction false} SingleInstrumentRun(insts: seq<Instrument>, hist: seq<RawMarketMessage>,
                            interval: int, lastTime: int, iterations: seq<Iteration>)
    requires |insts| == 1 && SlotConsistent(insts[0], hist)
    ensures forall j :: 0 <= j < |Run(insts, interval, lastTime, iterations).1| ==>
      && Run(insts, interval, lastTime, iterations).1[j].sequenceNumber == Wrap32(|hist| + j + 1)
      && Run(insts, interval, lastTime, iterations).1[j].instrumentId == insts[0].id
    ensures Run(insts, interval, lastTime, iterations).0[0].sequenceNumber
            == Wrap32(|hist| + |Run(insts, interval, lastTime, iterations).1| + 1)
    ensures Run(insts, interval, lastTime, iterations).0[0].volume
            == Wrap64(SumVolumes(hist + Run(insts, interval, lastTime, iterations).1))
  {
    var r := Run(insts, interval, lastTime, iterations);
    assert SlotConsistent(r.0[0], hist + r.1) by {
      SingleSlotSent(insts, hist, interval, lastTime, iterations);
      RunKeepsSlotsConsistent(insts, [hist], interval, lastTime, iterations);
    }
    assert r.0[0].id == insts[0].id by {
      RunMessages(insts, interval, lastTime, iterations);
    }
    ConsistentSuffix(r.0[0], hist, r.1);
  }

  class MarketFeedSimulator {
    const multicastIp: string
    const port: int

    var instruments: seq<Instrument>
    var running: bool
    var messagesPerSecond: I32
    var burstMultiplier: I32
    var marketOpen: bool
    /** The closed range `[indexLow, indexHigh]` of `instrument_dist`. */
    var indexLow: int
    var indexHigh: int

    /** For each registry slot, the messages built for it so far. */
    ghost var emitted: seq<seq<RawMarketMessage>>

    /** The random index range covers exactly the registry (the initial
        `(0, 0)` range already covers a registry of one), the feed runs only
        with instruments registered, and every instrument agrees with the
        messages emitted for it. */
    ghost predicate Valid()
      reads this
    {
      && indexLow == 0
      && indexHigh == (if |instruments| == 0 then 0 else |instruments| - 1)
      && (running ==> instruments != [])
      && |emitted| == |instruments|
      && forall i {:trigger SlotConsistent(instruments[i], emitted[i])} ::
           0 <= i < |instruments| ==> SlotConsistent(instruments[i], emitted[i])
    }

    constructor (multicastIp: string, port: int)
      ensures Valid()
      ensures this.multicastIp == multicastIp && this.port == port
      ensures instruments == [] && !running
      ensures messagesPerSecond == DefaultMessagesPerSecond
      ensures burstMultiplier == DefaultBurstMultiplier
      ensures marketOpen
    {
      this.multicastIp := multicastIp;
      this.port := port;
      instruments := [];
      running := false;
      messagesPerSecond := DefaultMessagesPerSecond;
      burstMultiplier := DefaultBurstMultiplier;
      marketOpen := true;
      indexLow, indexHigh := 0, 0;
      emitted := [];
    }

    /** Appends one instrument, with no check for a repeated id or for a
        positive price or volatility, and widens the random index range to
        the whole registry. */
    method AddInstrument(id: U32, symbol: string, basePrice: DoubleBits,
                         volatility: DoubleBits := DefaultVolatility)
      requires Valid()
      modifies this`instruments, this`indexLow, this`indexHigh, this`emitted
      ensures Valid()
      ensures instruments == old(instruments) + [NewInstrument(id, symbol, basePrice, volatility)]
      ensures indexLow == 0 && indexHigh == |instruments| - 1
      ensures emitted == old(emitted) + [[]]
    {
      instruments := instruments + [NewInstrument(id, symbol, basePrice, volatility)];
      emitted := emitted + [[]];
      if |instruments| > 1 {
        indexLow, indexHigh := 0, |instruments| - 1;
      }
    }

    method SetMessageRate(msgsPerSec: I32)
      modifies this`messagesPerSecond
      ensures messagesPerSecond == msgsPerSec
    {
      messagesPerSecond := msgsPerSec;
    }

    method SetBurstMode(enabled: bool)
      modifies this`burstMultiplier
      ensures burstMultiplier == if enabled then BurstOnMultiplier else BurstOffMultiplier
    {
      burstMultiplier := if enabled then BurstOnMultiplier else BurstOffMultiplier;
    }

    method SetMarketOpen(open: bool)
      modifies this`marketOpen
      ensures marketOpen == open
    {
      marketOpen := open;
    }

    /** Fails, leaving the feed stopped, when no instrument is registered;
        otherwise the feed is running. Starting a running feed would replace
        a joinable thread, which terminates the process, so it is excluded. */
    method Start() returns (ok: bool)
      requires Valid() && !running
      modifies this`running
      ensures Valid()
      ensures ok <==> instruments != []
      ensures running == ok
    {
      if instruments == [] {
        return false;
      }
      running := true;
      ok := true;
    }

    /** Clears the run flag; calling it on a stopped feed changes nothing. */
    method Stop()
      requires Valid()
      modifies this`running
      ensures Valid() && !running
    {
      running := false;
    }

    /** The target interval the loop derives from the current configuration. */
    function Interval(): int
      reads this`messagesPerSecond, this`burstMultiplier, this`marketOpen
      requires Scheduler.RateUsable(messagesPerSecond, burstMultiplier, marketOpen)
    {
      Scheduler.TargetInterval(Scheduler.EffectiveRate(messagesPerSecond, burstMultiplier, marketOpen))
    }

    /** `generateMarketUpdate`: nothing happens on an empty registry;
        otherwise only the drawn slot changes, as `Tick` describes, and the
        message built for it is returned (it is what `sendMessage` sends). */
    method GenerateMarketUpdate(d: Draw) returns (msg: Option<RawMarketMessage>)
      requires Valid()
      requires indexLow <= d.index <= indexHigh
      modifies this`instruments, this`emitted
      ensures Valid()
      ensures old(instruments) == [] ==> msg == None && instruments == old(instruments) && emitted == old(emitted)
      ensures old(instruments) != [] ==>
        && 0 <= d.index < |old(instruments)|
        && msg == Some(Tick(old(instruments)[d.index], d).msg)
        && instruments == old(instruments)[d.index := Tick(old(instruments)[d.index], d).next]
        && emitted == old(emitted)[d.index := old(emitted)[d.index] + [msg.value]]
    {
      if instruments == [] {
        return None;
      }
      var idx := d.index;
      var inst := instruments[idx];
      // The floating-point random walk, floor and tick rounding give d.price.
      inst := inst.(currentPrice := d.price);
      var volume := d.volume;
      inst := inst.(volume := Wrap64(inst.volume + volume));
      var m := RawMarketMessage(d.timestamp, inst.id, inst.currentPrice, volume, Side(d.buy), inst.sequenceNumber);
      inst := inst.(sequenceNumber := Wrap32(inst.sequenceNumber + 1));
      TickPreservesConsistency(instruments[idx], emitted[idx], d);
      instruments := instruments[idx := inst];
      emitted := emitted[idx := emitted[idx] + [m]];
      msg := Some(m);
    }

    /** One pass of the `simulateMarket` loop with reference time
        `lastTime`: once the target interval has elapsed, one market update
        is generated and the reading becomes the new reference time;
        otherwise nothing changes. The pass is the first of the ghost
        `passes`: what it does is the first step of `Run` and
        `RunHistories` over them. */
    method SimulateStep(lastTime: int, it: Iteration, ghost passes: seq<Iteration>)
      returns (newLast: int, msg: Option<RawMarketMessage>)
      requires Valid() && running
      requires Scheduler.RateUsable(messagesPerSecond, burstMultiplier, marketOpen)
      requires indexLow <= it.draw.index <= indexHigh
      requires passes != [] && passes[0] == it
      modifies this`instruments, this`emitted
      ensures Valid()
      ensures |instruments| == old(|instruments|)
      ensures msg.Some? <==> Scheduler.Due(Interval(), lastTime, it.now)
      ensures newLast == if msg.Some? then it.now else lastTime
      ensures msg.None? ==> instruments == old(instruments) && emitted == old(emitted)
      ensures msg.Some? ==>
        && 0 <= it.draw.index < |instruments|
        && msg.value == Tick(old(instruments)[it.draw.index], it.draw).msg
        && instruments == old(instruments)[it.draw.index := Tick(old(instruments)[it.draw.index], it.draw).next]
        && emitted == old(emitted)[it.draw.index := old(emitted)[it.draw.index] + [msg.value]]
      ensures Run(old(instruments), Interval(), lastTime, passes).0
              == Run(instruments, Interval(), newLast, passes[1..]).0
      ensures msg.None? ==> Run(old(instruments), Interval(), lastTime, passes).1
                            == Run(instruments, Interval(), newLast, passes[1..]).1
      ensures msg.Some? ==> Run(old(instruments), Interval(), lastTime, passes).1
                            == [msg.value] + Run(instruments, Interval(), newLast, passes[1..]).1
      ensures RunHistories(old(instruments), old(emitted), Interval(), lastTime, passes)
              == RunHistories(instruments, emitted, Interval(), newLast, passes[1..])
    {
      var decision := Scheduler.Step(messagesPerSecond, burstMultiplier, marketOpen, lastTime, it.now);
      if decision.emit {
        msg := GenerateMarketUpdate(it.draw);
      } else {
        msg := None;
      }
      newLast := decision.lastTime;
      assert passes == [it] + passes[1..];
      RunPass(old(instruments), Interval(), lastTime, it, passes[1..], instruments, newLast, msg);
      RunHistoriesPass(old(instruments), old(emitted), Interval(), lastTime, it, passes[1..],
                       instruments, emitted, newLast, msg);
    }

    /** The `simulateMarket` loop over the iterations it performs before the
        run flag is observed cleared. It starts with `startTime` as its
        reference time; on a running feed it leaves the registry and sends
        the messages `Run` describes, one at each reading `EmitTimes`
        selects for the configured interval, and each slot's history grows
        by the messages sent for it, as `RunHistories` describes. The configuration is not
        changed concurrently here. */
    method SimulateMarket(startTime: int, iterations: seq<Iteration>) returns (sent: seq<RawMarketMessage>)
      requires Valid()
      requires Scheduler.RateUsable(messagesPerSecond, burstMultiplier, marketOpen)
      requires forall k :: 0 <= k < |iterations| ==> indexLow <= iterations[k].draw.index <= indexHigh
      modifies this`instruments, this`emitted
      ensures Valid()
      ensures |instruments| == old(|instruments|)
      ensures !running ==> sent == [] && instruments == old(instruments)
      ensures running ==>
        && instruments == Run(old(instruments), Interval(), startTime, iterations).0
        && sent == Run(old(instruments), Interval(), startTime, iterations).1
      ensures running ==> |sent| == |Scheduler.EmitTimes(Interval(), startTime, Nows(iterations))|
      ensures running ==> emitted == RunHistories(old(instruments), old(emitted), Interval(), startTime, iterations)
      ensures forall s :: 0 <= s < |emitted| ==> old(emitted)[s] <= emitted[s]
    {
      ghost var interval := Interval();
      ghost var expected := Run(instruments, interval, startTime, iterations);
      ghost var expectedHistories := RunHistories(instruments, emitted, interval, startTime, iterations);
      var last := startTime;
      var i := 0;
      sent := [];
      while i < |iterations| && running
        invariant 0 <= i <= |iterations|
        invariant Valid()
        invariant |instruments| == old(|instruments|)
        invariant interval == Interval()
        invariant Run(instruments, interval, last, iterations[i..]).0 == expected.0
        invariant sent + Run(instruments, interval, last, iterations[i..]).1 == expected.1
        invariant RunHistories(instruments, emitted, interval, last, iterations[i..]) == expectedHistories
        invariant !running ==> sent == [] && instruments == old(instruments) && emitted == old(emitted)
      {
        var newLast, msg := SimulateStep(last, iterations[i], iterations[i..]);
        assert iterations[i..][1..] == iterations[i + 1..];
        if msg.Some? {
          ghost var rest := Run(instruments, interval, newLast, iterations[i + 1..]);
          assert sent + [msg.value] + rest.1 == sent + ([msg.value] + rest.1);
          sent := sent + [msg.value];
        }
        last := newLast;
        i := i + 1;
      }
      if running {
        assert iterations[i..] == [];
        assert DrawsIn(|instruments|, iterations);
        RunCount(old(instruments), interval, startTime, iterations);
        RunHistoriesGrow(old(instruments), old(emitted), interval, startTime, iterations);
      }
    }
  }
}
