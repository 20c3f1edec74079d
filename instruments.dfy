/** The per-instrument state of the feed (`struct Instrument`) and what one
    market update does to it: the instrument's price is replaced, its
    cumulative volume grows by the traded volume, and its sequence number
    post-increments into the emitted `RawMarketMessage`. */
module Instruments {
  import opened Ints
  import opened Wire

  /** ASCII 'B' (buy) and 'S' (sell). */
  const Buy: Byte := 0x42
  const Sell: Byte := 0x53

  /** Bounds of `volume_dist(100, 10000)`. */
  const MinVolume: nat := 100
  const MaxVolume: nat := 10000

  /** The bit pattern of the `double` 0.02, the default volatility. */
  const DefaultVolatility: DoubleBits := 0x3F94_7AE1_47AE_147B

  /** Prices and the volatility are `double`s, kept as their bit patterns. */
  datatype Instrument = Instrument(
    id: U32,
    symbol: string,
    basePrice: DoubleBits,
    currentPrice: DoubleBits,
    volatility: DoubleBits,
    volume: U64,
    sequenceNumber: U32)

  /** A volume `generateVolume` can produce. */
  type TradeVolume = v: U64 | MinVolume <= v < MaxVolume witness MinVolume

  /** Everything one market update draws from outside the registry: the
      random instrument index, the price the floating-point random walk
      produced, the random volume, the random side coin, and the wall
      clock reading in microseconds. */
  datatype Draw = Draw(index: int, price: DoubleBits, volume: TradeVolume, buy: bool, timestamp: U64)

  /** A freshly registered instrument: trading at its base price, with no
      volume and the next sequence number 1. */
  function NewInstrument(id: U32, symbol: string, basePrice: DoubleBits, volatility: DoubleBits): (inst: Instrument)
    ensures inst.id == id && inst.symbol == symbol && inst.volatility == volatility
    ensures inst.basePrice == basePrice && inst.currentPrice == basePrice
    ensures inst.volume == 0 && inst.sequenceNumber == 1
  {
    Instrument(id, symbol, basePrice, basePrice, volatility, 0, 1)
  }

  /** `generateVolume`: a uniform real in [100, 10000) truncated to an
      unsigned integer. */
  function GenerateVolume(draw: real): (volume: TradeVolume)
    requires MinVolume as real <= draw < MaxVolume as real
    ensures MinVolume <= volume < MaxVolume
    ensures volume as real <= draw < volume as real + 1.0
  {
    draw.Floor
  }

  /** `side_dist(gen) ? 'B' : 'S'`. */
  function Side(buy: bool): (side: Byte)
    ensures side == Buy || side == Sell
    ensures side == Buy <==> buy
  {
    if buy then Buy else Sell
  }

  datatype Update = Update(next: Instrument, msg: RawMarketMessage)

  /** One `generateMarketUpdate` on the chosen instrument. The message reports
      the instrument's id, its new price, the drawn volume and the sequence
      number before the increment; afterwards the instrument's sequence
      number is one higher (modulo 2^32), its volume has grown by exactly the
      reported volume (modulo 2^64), and its identity is untouched. */
  function Tick(inst: Instrument, d: Draw): (u: Update)
    ensures u.msg.instrumentId == inst.id && u.msg.timestamp == d.timestamp
    ensures u.msg.price == u.next.currentPrice == d.price
    ensures u.msg.volume == d.volume
    ensures u.msg.side == Side(d.buy) && (u.msg.side == Buy || u.msg.side == Sell)
    ensures MinVolume <= u.msg.volume < MaxVolume
    ensures u.msg.sequenceNumber == inst.sequenceNumber
    ensures u.next.sequenceNumber == Wrap32(u.msg.sequenceNumber + 1)
    ensures u.next.volume == Wrap64(inst.volume + u.msg.volume)
    ensures u.next.id == inst.id && u.next.symbol == inst.symbol
    ensures u.next.basePrice == inst.basePrice && u.next.volatility == inst.volatility
  {
    var next := inst.(currentPrice := d.price,
                      volume := Wrap64(inst.volume + d.volume),
                      sequenceNumber := Wrap32(inst.sequenceNumber + 1));
    Update(next, RawMarketMessage(d.timestamp, inst.id, d.price, d.volume, Side(d.buy), inst.sequenceNumber))
  }

  /** The total volume reported by a run of messages. */
  function SumVolumes(msgs: seq<RawMarketMessage>): nat
  {
    if msgs == [] then 0 else SumVolumes(msgs[..|msgs| - 1]) + msgs[|msgs| - 1].volume
  }

  /** An instrument and the messages it has produced since registration
      agree: the messages carry sequence numbers 1, 2, 3, ... (modulo 2^32)
      and the instrument's id, the next sequence number follows the last
      one, and the cumulative volume is the sum of the reported volumes
      (modulo 2^64). */
  ghost predicate SlotConsistent(inst: Instrument, msgs: seq<RawMarketMessage>)
  {
    && inst.sequenceNumber == Wrap32(|msgs| + 1)
    && inst.volume == Wrap64(SumVolumes(msgs))
    && forall j :: 0 <= j < |msgs| ==>
         msgs[j].sequenceNumber == Wrap32(j + 1) && msgs[j].instrumentId == inst.id
  }

  lemma NewInstrumentConsistent(id: U32, symbol: string, basePrice: DoubleBits, volatility: DoubleBits)
    ensures SlotConsistent(NewInstrument(id, symbol, basePrice, volatility), [])
  {
  }

  /** The messages after the first `|msgs|` of a consistent history carry
      the sequence numbers that follow on, and all name the instrument. */
  lemma {:induction false} ConsistentSuffix(inst: Instrument, msgs: seq<RawMarketMessage>, later: seq<RawMarketMessage>)
    requires SlotConsistent(inst, msgs + later)
    ensures forall j :: 0 <= j < |later| ==>
      later[j].sequenceNumber == Wrap32(|msgs| + j + 1) && later[j].instrumentId == inst.id
    ensures inst.sequenceNumber == Wrap32(|msgs| + |later| + 1)
  {
    forall j | 0 <= j < |later|
      ensures later[j].sequenceNumber == Wrap32(|msgs| + j + 1) && later[j].instrumentId == inst.id
    {
      assert later[j] == (msgs + later)[|msgs| + j];
    }
  }

  /** One update keeps an instrument consistent with its message history. */
  lemma TickPreservesConsistency(inst: Instrument, msgs: seq<RawMarketMessage>, d: Draw)
    requires SlotConsistent(inst, msgs)
    ensures SlotConsistent(Tick(inst, d).next, msgs + [Tick(inst, d).msg])
  {
    var u := Tick(inst, d);
    var msgs' := msgs + [u.msg];
    assert msgs'[..|msgs'| - 1] == msgs;
    assert SumVolumes(msgs') == SumVolumes(msgs) + u.msg.volume;
    Wrap32AddLeft(|msgs| + 1, 1);
    Wrap64AddLeft(SumVolumes(msgs), u.msg.volume);
  }

  /** `k` successive updates of one instrument, with the messages they emit. */
  function TickMany(inst: Instrument, draws: seq<Draw>): (r: (Instrument, seq<RawMarketMessage>))
    ensures |r.1| == |draws|
    decreases |draws|
  {
    if draws == [] then (inst, [])
    else
      var u := Tick(inst, draws[0]);
      var rest := TickMany(u.next, draws[1..]);
      (rest.0, [u.msg] + rest.1)
  }

  /** Updates keep an instrument consistent with its whole history. */
  lemma {:induction false} TickManyPreservesConsistency(inst: Instrument, msgs: seq<RawMarketMessage>, draws: seq<Draw>)
    requires SlotConsistent(inst, msgs)
    ensures SlotConsistent(TickMany(inst, draws).0, msgs + TickMany(inst, draws).1)
    decreases |draws|
  {
    if draws != [] {
      var u := Tick(inst, draws[0]);
      TickPreservesConsistency(inst, msgs, draws[0]);
      TickManyPreservesConsistency(u.next, msgs + [u.msg], draws[1..]);
      assert msgs + [u.msg] + TickMany(u.next, draws[1..]).1 == msgs + TickMany(inst, draws).1;
    } else {
      assert msgs + TickMany(inst, draws).1 == msgs;
    }
  }

  /** Every emitted message reports the volume that was drawn for it. */
  lemma {:induction false} TickManyVolumes(inst: Instrument, draws: seq<Draw>)
    ensures forall j :: 0 <= j < |draws| ==> TickMany(inst, draws).1[j].volume == draws[j].volume
    decreases |draws|
  {
    if draws != [] {
      var u := Tick(inst, draws[0]);
      TickManyVolumes(u.next, draws[1..]);
      forall j | 1 <= j < |draws|
        ensures TickMany(inst, draws).1[j].volume == draws[j].volume
      {
        assert TickMany(inst, draws).1[j] == TickMany(u.next, draws[1..]).1[j - 1];
      }
    }
  }

  /** After `k` updates of a freshly registered instrument, its messages
      carry sequence numbers 1..k in order, and its cumulative volume equals
      the sum of the drawn volumes (both modulo their unsigned widths). */
  lemma FreshInstrumentHistory(id: U32, symbol: string, basePrice: DoubleBits, volatility: DoubleBits,
                               draws: seq<Draw>)
    ensures var r := TickMany(NewInstrument(id, symbol, basePrice, volatility), draws);
      && SlotConsistent(r.0, r.1) && r.0.id == id
      && (forall j :: 0 <= j < |draws| ==> r.1[j].volume == draws[j].volume)
  {
    var inst := NewInstrument(id, symbol, basePrice, volatility);
    var r := TickMany(inst, draws);
    NewInstrumentConsistent(id, symbol, basePrice, volatility);
    TickManyPreservesConsistency(inst, [], draws);
    assert [] + r.1 == r.1;
    assert SlotConsistent(r.0, r.1);
    TickManyVolumes(inst, draws);
    TickManyKeepsId(inst, draws);
    assert r.0.id == id;
  }

  /** Updates never change an instrument's id. */
  lemma {:induction false} TickManyKeepsId(inst: Instrument, draws: seq<Draw>)
    ensures TickMany(inst, draws).0.id == inst.id
    decreases |draws|
  {
    if draws != [] {
      TickManyKeepsId(Tick(inst, draws[0]).next, draws[1..]);
    }
  }
}
