# UDP market feed simulator: a verified model

This project models the core of the UDP market feed simulator in Dafny. The
simulator keeps a registry of instruments. It runs a rate-controlled loop
that picks a random instrument and moves its price. It bumps the
instrument's cumulative volume and sequence number and multicasts a packed
33-byte `RawMarketMessage`. The receiver reads datagrams into a 1024-byte
buffer and counts them. It reinterprets a large enough datagram as a
`RawMarketMessage` and prints its latency. Every hundredth message, once at
least one whole second has passed since listening began, it also prints the
message count divided by those seconds.

Modules:

- `Ints` (`ints.dfy`): `uint8_t`/`uint32_t`/`uint64_t`/`int` as subset types of `int`, with unsigned wrap-around written out.
- `Options` (`options.dfy`): the `Option` datatype.
- `Wire` (`wire.dfy`): the packed record and its little-endian byte layout, with encode/decode round trips in both directions.
- `Scheduler` (`scheduler.dfy`): the rate decision of one loop pass, plus a specification of the emission times of a whole run. Steady-clock readings are in nanoseconds; the elapsed time is cast to whole microseconds and the interval uses C++ truncating division.
- `Instruments` (`instruments.dfy`): the `Instrument` record and one market update on it. Also a per-instrument invariant linking sequence numbers and cumulative volume to the messages emitted so far.
- `FeedSimulator` (`simulator.dfy`): the class `MarketFeedSimulator` with its registry, run flag, rate configuration and random index range, updated in place. A value-level reference `Run` describes what a whole loop does to the registry and which messages it sends; `RunHistories` describes the per-instrument message histories it leaves.
- `Receiver` (`receiver.dfy`): the per-datagram branch of `listen` and the loop over a trace of `recv` results.

Randomness, the clocks and the floating-point price walk are inputs. A
`Draw` carries the random instrument index, the price the walk produced,
the drawn volume (a `TradeVolume`, 100..9999), the side coin and the
wall-clock timestamp. An `Iteration` carries a steady-clock reading in
nanoseconds and a `Draw`; a receiver `Reading` carries a
`recv` outcome and two clock readings.

## Model

| member | source | states |
|---|---|---|
| Ints.Wrap32 | src/market_feed_simulator.h:23 | `uint32_t` arithmetic: values in range are unchanged and 2^32 wraps to 0 |
| Ints.Wrap64 | src/market_feed_simulator.h:22 | `uint64_t` arithmetic: values in range are unchanged; a sum that overflows once wraps to itself minus 2^64; a value less than 0 by at most 2^64 wraps to itself plus 2^64 |
| Wire.EncodeLE | src/market_feed_simulator.h:26-33 | a field of `width` bytes occupies exactly `width` bytes |
| Wire.DecodeLE | src/market_feed_simulator.h:26-33 | a `width`-byte field reads as a value below 256^width |
| Wire.DecodeEncodeLE | src/market_feed_simulator.h:26-33 | reading back the bytes of a field yields the field's value |
| Wire.EncodeDecodeLE | src/market_feed_simulator.h:26-33 | the bytes of a field are determined by their value |
| Wire.Encode | src/market_feed_simulator.h:26-33 | the packed record is 33 bytes long and the side byte sits at offset 28 |
| Wire.EncodeSlices | src/market_feed_simulator.h:26-33 | the fields' bytes sit at offsets 0, 8, 12, 20 and 29 |
| Wire.FieldOffsets | src/market_feed_simulator.h:26-33 | every field reads back from its fixed offset (0, 8, 12, 20, 28, 29) |
| Wire.FieldsDetermineRecord | src/market_feed_simulator.h:26-33 | a 33-byte record has no padding: equal fields mean equal bytes |
| Wire.DecodeLEInjective | src/market_feed_simulator.h:26-33 | two fields of one width with the same value have the same bytes |
| Wire.Decode | src/market_feed_receiver.cpp:94-95 | a buffer is reinterpreted exactly when it holds at least 33 bytes, and the result re-encodes to its first 33 bytes |
| Wire.DecodeEncode | src/market_feed_receiver.cpp:94-95 | the receiver's reinterpretation of a sent record recovers every field |
| Wire.DecodeIgnoresTail | src/market_feed_receiver.cpp:94-95 | bytes after the first 33 do not affect the decoded record |
| Scheduler.TargetInterval | src/market_feed_simulator.cpp:121 | `1000000 / rate` truncates toward zero: bounds for positive and negative rates |
| Scheduler.ElapsedMicros | src/market_feed_simulator.cpp:116-118 | the nanosecond difference of two readings truncated toward zero to whole microseconds, for both signs |
| Scheduler.DueExactly | src/market_feed_simulator.cpp:116-123 | for a positive interval, an update is due exactly when at least `interval * 1000` nanoseconds have passed, so a fraction of a microsecond never counts |
| Scheduler.SubMicrosecondTruncation | src/market_feed_simulator.cpp:116-123 | at interval 1000 µs, readings 999 001 ns apart are not due while 1 000 000 ns apart are |
| Scheduler.Due | src/market_feed_simulator.cpp:116-123 | the emit test `elapsed >= target_interval` on whole microseconds; its contract is stated by `Scheduler.DueExactly` (due exactly when interval × 1000 ns have passed) and `Scheduler.Step` (`emit` exactly when due) |
| Scheduler.Step | src/market_feed_simulator.cpp:116-128 | emits iff the whole microseconds elapsed reach the target interval (for a positive rate iff `(elapsed+1)*rate > 10^6`); on emit the reading becomes the reference time, otherwise it is kept |
| Scheduler.IntervalThreshold | src/market_feed_simulator.cpp:121-123 | with truncated division, `elapsed >= 10^6/rate` iff `(elapsed+1)*rate > 10^6` |
| Scheduler.EffectiveRate | src/market_feed_simulator.cpp:120 | the loop's rate: its contract is stated by `Scheduler.Step` (an emission per whole interval of that rate) and `FeedSimulator.BurstAndMarketState` (ten times the base rate in burst mode on an open market, the base rate on a closed one) |
| FeedSimulator.BurstAndMarketState | src/market_feed_simulator.cpp:120 | with the multipliers `setBurstMode` stores, burst mode gives an open market ten times the rate of normal mode; a closed market runs at the base rate whatever the multiplier |
| Scheduler.EmitTimes | src/market_feed_simulator.cpp:112-130 | a run emits at no more readings than it takes |
| Scheduler.EmitTimesAt | src/market_feed_simulator.cpp:115-128 | the emission times of the remaining readings, one pass at a time |
| Scheduler.EmitSpacing | src/market_feed_simulator.cpp:112-130 | emissions happen at readings, the first one interval (in whole microseconds) after the start, the rest at least one interval apart |
| Scheduler.RateCap | src/market_feed_simulator.cpp:112-130 | at most `(horizon - start) / (interval * 1000)` updates go out before the latest reading `horizon` (nanoseconds) |
| Instruments.GenerateVolume | src/market_feed_simulator.cpp:183-185 | the truncated volume drawn from [100, 10000) lies in 100..9999 (a `TradeVolume`, the type every `Draw` carries) and is the floor of the draw |
| Instruments.Side | src/market_feed_simulator.cpp:155 | the side byte is 'B' exactly for a buy coin, otherwise 'S' |
| Instruments.Tick | src/market_feed_simulator.cpp:135-156 | the message carries the instrument's id, the new price, the drawn volume (100..9999), the side `Side(buy)` ('B' or 'S') and the pre-increment sequence number; the sequence number increments mod 2^32, the volume grows by the message volume mod 2^64, and identity, symbol, base price and volatility are unchanged |
| Instruments.NewInstrument | src/market_feed_simulator.cpp:78-85 | a fresh instrument keeps the given id, symbol and volatility, trades at its base price, has volume 0 and next sequence number 1; `Instruments.NewInstrumentConsistent` shows it agrees with an empty history |
| Instruments.NewInstrumentConsistent | src/market_feed_simulator.cpp:76-85 | a fresh instrument (sequence number 1, volume 0) agrees with an empty history |
| Instruments.ConsistentSuffix | src/market_feed_simulator.cpp:148-156 | in a consistent history, the messages after the first k carry sequence numbers k+1, k+2, ... (modulo 2^32) and name the instrument, whose next sequence number follows the last |
| Instruments.TickPreservesConsistency | src/market_feed_simulator.cpp:148-156 | one update keeps the instrument consistent with its history extended by the new message |
| Instruments.TickMany | src/market_feed_simulator.cpp:132-159 | k updates emit k messages |
| Instruments.TickManyPreservesConsistency | src/market_feed_simulator.cpp:148-156 | any number of updates keep the instrument consistent with its whole history |
| Instruments.TickManyVolumes | src/market_feed_simulator.cpp:147-154 | each emitted message reports the volume drawn for it |
| Instruments.TickManyKeepsId | src/market_feed_simulator.cpp:136-152 | updates never change an instrument's id |
| Instruments.FreshInstrumentHistory | src/market_feed_simulator.cpp:84-85 | after k updates of a new instrument, its messages carry sequence numbers 1..k (mod 2^32) and its id, and its volume is the sum of their volumes (mod 2^64) |
| FeedSimulator.Run | src/market_feed_simulator.cpp:112-159 | reference for a whole running loop: each due pass updates the drawn instrument as `Tick` describes and sends its message; the registry keeps its size |
| FeedSimulator.RunAt | src/market_feed_simulator.cpp:115-129 | unfolds `Run` at one pass |
| FeedSimulator.RunPass | src/market_feed_simulator.cpp:115-129 | a pass that decided and updated as `Step` and `Tick` say is the first step of `Run`: the rest of the run continues from the new registry and reference time |
| FeedSimulator.RunHistories | src/market_feed_simulator.cpp:112-159 | reference for the per-instrument message histories of a whole running loop: each due pass appends the message it sends to the drawn slot's history |
| FeedSimulator.RunHistoriesGrow | src/market_feed_simulator.cpp:112-159 | a run only appends: each slot's history before it is a prefix of its history after it |
| FeedSimulator.RunSlots | src/market_feed_simulator.cpp:123-136 | the slot each sent message was generated for, one per message, each a slot of the registry |
| FeedSimulator.RunSentBySlot | src/market_feed_simulator.cpp:112-159 | for every slot, the history after a run is the history before it followed by the messages the run sent for that slot, in sending order |
| FeedSimulator.SingleSlotSent | src/market_feed_simulator.cpp:112-159 | with one instrument, the history after a run is the history before it followed by everything the run sent |
| FeedSimulator.SingleInstrumentRun | src/market_feed_simulator.cpp:132-159 | with one consistent instrument, the messages a run sends name it and carry consecutive sequence numbers continuing its history; afterwards its next sequence number follows the last sent, and its volume is the sum of every volume in its history and the run, modulo 2^64 |
| FeedSimulator.RunKeepsSlotsConsistent | src/market_feed_simulator.cpp:132-159 | every instrument consistent with its history before a run is consistent, after it, with the history `RunHistories` builds: sequence numbers count the messages sent for it, and its volume is their sum modulo 2^64 |
| FeedSimulator.RunHistoriesPass | src/market_feed_simulator.cpp:115-129 | a pass that appended its message to the drawn slot's history is the first step of `RunHistories` |
| FeedSimulator.RunCount | src/market_feed_simulator.cpp:112-130 | a run sends exactly one message per emission time `EmitTimes` selects |
| FeedSimulator.RunMessages | src/market_feed_simulator.cpp:132-159 | a run keeps every slot's id, and each message it sends names a registered instrument, has side 'B' or 'S' and a volume in 100..9999 |
| FeedSimulator.MarketFeedSimulator.constructor | src/market_feed_simulator.h:51-54 | an empty, stopped registry with rate 1000, burst multiplier 5, market open and index range (0, 0) |
| FeedSimulator.MarketFeedSimulator.AddInstrument | src/market_feed_simulator.cpp:76-92 | appends exactly one instrument (price = base price, volume 0, sequence 1) with no duplicate or positivity check; earlier instruments are unchanged and the index range is 0..size-1 |
| FeedSimulator.MarketFeedSimulator.SetMessageRate | src/market_feed_simulator.h:61 | stores the rate and changes nothing else |
| FeedSimulator.MarketFeedSimulator.SetBurstMode | src/market_feed_simulator.h:62 | stores 10 when enabled and 1 when disabled, and changes nothing else |
| FeedSimulator.MarketFeedSimulator.SetMarketOpen | src/market_feed_simulator.h:63 | stores the flag and changes nothing else |
| FeedSimulator.MarketFeedSimulator.Start | src/market_feed_simulator.cpp:94-99 | fails and stays stopped on an empty registry, otherwise the feed is running |
| FeedSimulator.MarketFeedSimulator.Stop | src/market_feed_simulator.cpp:104-108 | clears the run flag and changes nothing else, so a second call is a no-op |
| FeedSimulator.MarketFeedSimulator.GenerateMarketUpdate | src/market_feed_simulator.cpp:132-159 | nothing changes on an empty registry; otherwise only the drawn slot changes, as `Tick` describes, and its message is the one sent |
| FeedSimulator.MarketFeedSimulator.SimulateStep | src/market_feed_simulator.cpp:115-129 | one loop pass: an update of the drawn slot exactly when the interval has elapsed in whole microseconds, with the reference time moved to the reading; otherwise no change; an update appends the message sent to the drawn slot's history; and the pass is the first step of `Run` and `RunHistories` over it and the passes after it |
| FeedSimulator.MarketFeedSimulator.Interval | src/market_feed_simulator.cpp:120-121 | the target interval of the current configuration; its contract is stated by `FeedSimulator.MarketFeedSimulator.SimulateStep` (an update exactly when that many whole microseconds have elapsed) and `Scheduler.TargetInterval` |
| FeedSimulator.MarketFeedSimulator.SimulateMarket | src/market_feed_simulator.cpp:112-130 | a stopped feed sends nothing; a running feed ends with the registry `Run` computes and has sent exactly `Run`'s messages, one per reading `EmitTimes` selects, and each instrument's history is the one `RunHistories` computes; it keeps the registry size and every instrument consistent with its history |
| Receiver.Received | src/market_feed_receiver.cpp:71-78 | `recv` copies at most 1024 bytes: the prefix of the datagram that fits |
| Receiver.RecvBytes | src/market_feed_receiver.cpp:78-80 | positive for a non-empty datagram, 0 for an empty one, negative on error |
| Receiver.Latency | src/market_feed_receiver.cpp:106-108 | `now - timestamp` in unsigned 64-bit arithmetic: the exact difference when the clock is ahead, `2^64 + now - timestamp` when it is behind |
| Receiver.RawPreview | src/market_feed_receiver.cpp:88-90 | the first `min(20, bytes)` bytes of the buffer |
| Receiver.RateLine | src/market_feed_receiver.cpp:115-120 | a rate line exactly when the count is a multiple of 100 and a whole second has elapsed, with value `count / elapsed` rounded down |
| Receiver.HandleDatagram | src/market_feed_receiver.cpp:80-121 | the count goes up by one whether or not the datagram decodes; 33 bytes or more decode from the first 33 with their latency, fewer are reported too small |
| Receiver.ReportOf | src/market_feed_receiver.cpp:78-121 | one pass with a positive `recv`: the message number follows the count before it, the size is what `recv` returned, the datagram decodes exactly when that is at least 33 bytes and then from the datagram's first 33 bytes, and the rate line is the one for the new count |
| Receiver.FirstStop | src/market_feed_receiver.cpp:77-130 | the passes before the first `recv` that returns 0 or less |
| Receiver.Listen | src/market_feed_receiver.cpp:77-130 | every datagram up to the first closed or failed `recv` is counted and reported in order, and that `recv` ends the loop |

## Left out

- Sockets: `setupSocket`, `getDefaultInterfaceIP`, `sendto` and its partial-send logging, and the receiver's constructor and group join are not modelled. `GenerateMarketUpdate` returns the message `sendMessage` would send.
- Threads and atomics: `running` is a plain field. The simulation loop is a method run by the caller, with no concurrent configuration change during it. `Stop` does not join a thread. The receiver's `main`, which runs two listeners (224.1.1.1:9001 and 224.1.1.2:9002) on their own threads and joins them, is not modelled; `Listen` models one listener.
- `MarketFeedSimulator.Start` requires a stopped feed: starting a running one assigns over a joinable `std::thread`, which terminates the process. The model replaces the `runtime_error` thrown on an empty registry by a `false` result.
- Randomness and clocks are inputs (`Draw`, `Iteration`, `Reading`). The ranges of `price_change_dist`, `side_dist` and the index distribution are not sampled.
- The floating-point price walk is left out: `generatePriceChange`, the clamp to half the base price, and rounding to `tick_size`. The new price is an input bit pattern, and `tick_size` is not kept. Prices and volatility are 64-bit bit patterns; the default volatility is the bit pattern of 0.02.
- The 10 µs sleep of a non-emitting pass only delays the next clock reading and is not modelled.
- Scheduler.Step: the effective rate must be non-zero and fit in a 32-bit `int`. The source divides by it and computes it in `int` (signed overflow is undefined behaviour). A negative rate is modelled with truncating division.
- Steady-clock readings are taken in nanoseconds, the period of `steady_clock` on the targeted Linux hosts; a platform with another period is not modelled.
- FeedSimulator.Run treats a drawn index outside the registry as no update. Only an empty registry admits such an index, and there `generateMarketUpdate` returns early; `SimulateMarket` requires every drawn index to lie in the distribution's range.
- Byte order is fixed to little-endian (the targeted x86-64 and AArch64 hosts).
- Receiver.Listen: `message_count` is an unbounded count; the model does not capture `int` overflow after 2^31 - 1 messages.
- `FeedSimulator.MarketFeedSimulator.AddInstrument` keeps the index range as integers. The `size_t` to `int` conversion for more than 2^31 instruments is not modelled.
- Console output is reduced to the reported values (`Report`); the destructor and the example driver (`data_feed_simulator.cpp`) are not modelled.
- In the source, `addInstrument` checks neither for duplicate ids nor for positive prices. An empty datagram (`recv` returns 0) also ends the receive loop, as a closed connection does. The model follows the code on both points.
