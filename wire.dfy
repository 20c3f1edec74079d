/** The packed `RawMarketMessage` record that the simulator sends as one UDP
    datagram and that the receiver reinterprets from its buffer.

    The struct is declared with `__attribute__((packed))`, so the fields sit
    back to back with no padding: 8 + 4 + 8 + 8 + 1 + 4 = 33 bytes. The bytes
    are the host's in-memory representation; this model fixes the host to be
    little-endian (x86-64 and AArch64 Linux). The `double` price is carried as
    its 64-bit IEEE-754 bit pattern and is never interpreted here. */
module Wire {
  import opened Ints
  import opened Options

  /** An IEEE-754 double, represented by its bit pattern. */
  type DoubleBits = U64

  const TimestampOffset: nat := 0
  const InstrumentIdOffset: nat := 8
  const PriceOffset: nat := 12
  const VolumeOffset: nat := 20
  const SideOffset: nat := 28
  const SequenceNumberOffset: nat := 29
  /** `sizeof(RawMarketMessage)`. */
  const RecordSize: nat := 33

  datatype RawMarketMessage = RawMarketMessage(
    timestamp: U64,
    instrumentId: U32,
    price: DoubleBits,
    volume: U64,
    side: Byte,
    sequenceNumber: U32)

  function Pow256(n: nat): (p: nat)
    ensures p >= 1
  {
    if n == 0 then 1 else 256 * Pow256(n - 1)
  }

  lemma Pow256Widths()
    ensures Pow256(4) == TwoTo32 && Pow256(8) == TwoTo64
  {
  }

  /** The `width` bytes of `x` in little-endian order: least significant first. */
  function EncodeLE(x: nat, width: nat): (bs: seq<Byte>)
    requires x < Pow256(width)
    ensures |bs| == width
    decreases width
  {
    if width == 0 then []
    else
      assert x / 256 < Pow256(width - 1);
      [x % 256] + EncodeLE(x / 256, width - 1)
  }

  /** The unsigned integer whose little-endian bytes are `bs`. */
  function DecodeLE(bs: seq<Byte>): (x: nat)
    ensures x < Pow256(|bs|)
  {
    if bs == [] then 0 else bs[0] + 256 * DecodeLE(bs[1..])
  }

  lemma {:induction false} DecodeEncodeLE(x: nat, width: nat)
    requires x < Pow256(width)
    ensures DecodeLE(EncodeLE(x, width)) == x
    decreases width
  {
    if width > 0 {
      var bs := EncodeLE(x, width);
      assert bs[1..] == EncodeLE(x / 256, width - 1);
      DecodeEncodeLE(x / 256, width - 1);
    }
  }

  lemma {:induction false} EncodeDecodeLE(bs: seq<Byte>)
    ensures EncodeLE(DecodeLE(bs), |bs|) == bs
  {
    if bs != [] {
      var x := DecodeLE(bs);
      assert x % 256 == bs[0] && x / 256 == DecodeLE(bs[1..]);
      EncodeDecodeLE(bs[1..]);
    }
  }

  /** The bytes a `sendto(&msg, sizeof msg)` puts on the wire: the fields in
      declaration order, each in little-endian order, with no padding. */
  function Encode(m: RawMarketMessage): (bs: seq<Byte>)
    ensures |bs| == RecordSize
    ensures bs[SideOffset] == m.side
  {
    Pow256Widths();
    EncodeLE(m.timestamp, 8) + (EncodeLE(m.instrumentId, 4) + (EncodeLE(m.price, 8)
    + (EncodeLE(m.volume, 8) + ([m.side] + EncodeLE(m.sequenceNumber, 4)))))
  }

  /** A field followed by the rest of a record sits at the start of that suffix. */
  lemma FieldAt(bs: seq<Byte>, offset: nat, field: seq<Byte>, rest: seq<Byte>)
    requires offset <= |bs| && bs[offset..] == field + rest
    ensures bs[offset..offset + |field|] == field
    ensures bs[offset + |field|..] == rest
  {
    assert bs[offset..offset + |field|] == bs[offset..][..|field|];
    assert bs[offset + |field|..] == bs[offset..][|field|..];
  }

  /** The bytes of an encoded record from the instrument id onwards, from the
      price onwards, from the volume onwards and from the side onwards. */
  lemma EncodeTails(m: RawMarketMessage)
    ensures Pow256(4) == TwoTo32 && Pow256(8) == TwoTo64
    ensures Encode(m)[..8] == EncodeLE(m.timestamp, 8)
    ensures Encode(m)[8..] == EncodeLE(m.instrumentId, 4) + (EncodeLE(m.price, 8)
      + (EncodeLE(m.volume, 8) + ([m.side] + EncodeLE(m.sequenceNumber, 4))))
  {
    Pow256Widths();
  }

  /** Where each field's bytes sit in an encoded record. */
  lemma EncodeSlices(m: RawMarketMessage)
    ensures Pow256(4) == TwoTo32 && Pow256(8) == TwoTo64
    ensures Encode(m)[0..8] == EncodeLE(m.timestamp, 8)
    ensures Encode(m)[8..12] == EncodeLE(m.instrumentId, 4)
    ensures Encode(m)[12..20] == EncodeLE(m.price, 8)
    ensures Encode(m)[20..28] == EncodeLE(m.volume, 8)
    ensures Encode(m)[29..33] == EncodeLE(m.sequenceNumber, 4)
  {
    EncodeTails(m);
    var bs := Encode(m);
    var sq := EncodeLE(m.sequenceNumber, 4);
    var r3 := EncodeLE(m.volume, 8) + ([m.side] + sq);
    var r2 := EncodeLE(m.price, 8) + r3;
    FieldAt(bs, 8, EncodeLE(m.instrumentId, 4), r2);
    FieldAt(bs, 12, EncodeLE(m.price, 8), r3);
    FieldAt(bs, 20, EncodeLE(m.volume, 8), [m.side] + sq);
    FieldAt(bs, 28, [m.side], sq);
    assert bs[0..8] == bs[..8];
    assert bs[29..33] == bs[29..];
  }

  /** Each field of an encoded record reads back from its fixed offset:
      timestamp at 0, instrument id at 8, price at 12, volume at 20, side at
      28, sequence number at 29. */
  lemma FieldOffsets(m: RawMarketMessage)
    ensures DecodeLE(Encode(m)[TimestampOffset..InstrumentIdOffset]) == m.timestamp
    ensures DecodeLE(Encode(m)[InstrumentIdOffset..PriceOffset]) == m.instrumentId
    ensures DecodeLE(Encode(m)[PriceOffset..VolumeOffset]) == m.price
    ensures DecodeLE(Encode(m)[VolumeOffset..SideOffset]) == m.volume
    ensures Encode(m)[SideOffset] == m.side
    ensures DecodeLE(Encode(m)[SequenceNumberOffset..RecordSize]) == m.sequenceNumber
  {
    EncodeSlices(m);
    DecodeEncodeLE(m.timestamp, 8);
    DecodeEncodeLE(m.instrumentId, 4);
    DecodeEncodeLE(m.price, 8);
    DecodeEncodeLE(m.volume, 8);
    DecodeEncodeLE(m.sequenceNumber, 4);
  }

  /** Two records whose fields read the same at every offset are the same
      bytes: the layout leaves no byte unaccounted for. */
  lemma FieldsDetermineRecord(x: seq<Byte>, y: seq<Byte>)
    requires |x| == |y| == RecordSize
    requires DecodeLE(x[0..8]) == DecodeLE(y[0..8])
    requires DecodeLE(x[8..12]) == DecodeLE(y[8..12])
    requires DecodeLE(x[12..20]) == DecodeLE(y[12..20])
    requires DecodeLE(x[20..28]) == DecodeLE(y[20..28])
    requires x[28] == y[28]
    requires DecodeLE(x[29..33]) == DecodeLE(y[29..33])
    ensures x == y
  {
    DecodeLEInjective(x[0..8], y[0..8]);
    DecodeLEInjective(x[8..12], y[8..12]);
    DecodeLEInjective(x[12..20], y[12..20]);
    DecodeLEInjective(x[20..28], y[20..28]);
    DecodeLEInjective(x[29..33], y[29..33]);
    forall i | 0 <= i < RecordSize
      ensures x[i] == y[i]
    {
      if i < 8 {
        assert x[i] == x[0..8][i];
      } else if i < 12 {
        assert x[i] == x[8..12][i - 8];
      } else if i < 20 {
        assert x[i] == x[12..20][i - 12];
      } else if i < 28 {
        assert x[i] == x[20..28][i - 20];
      } else if i > 28 {
        assert x[i] == x[29..33][i - 29];
      }
    }
  }

  /** Little-endian byte strings of one width are determined by their value. */
  lemma DecodeLEInjective(u: seq<Byte>, v: seq<Byte>)
    requires |u| == |v| && DecodeLE(u) == DecodeLE(v)
    ensures u == v
  {
    EncodeDecodeLE(u);
    EncodeDecodeLE(v);
  }

  /** Reinterpreting a buffer as a `RawMarketMessage`: possible when it holds
      at least `RecordSize` bytes, and then only the first `RecordSize` bytes
      are read. The decoded record re-encodes to exactly those bytes. */
  function Decode(buffer: seq<Byte>): (r: Option<RawMarketMessage>)
    ensures r.Some? <==> |buffer| >= RecordSize
    ensures r.Some? ==> Encode(r.value) == buffer[..RecordSize]
  {
    if |buffer| < RecordSize then None
    else
      Pow256Widths();
      var b := buffer[..RecordSize];
      var m := RawMarketMessage(
        DecodeLE(b[0..8]), DecodeLE(b[8..12]), DecodeLE(b[12..20]),
        DecodeLE(b[20..28]), b[28], DecodeLE(b[29..33]));
      FieldOffsets(m);
      FieldsDetermineRecord(Encode(m), b);
      Some(m)
  }

  /** Decoding what was encoded gives back every field exactly. */
  lemma DecodeEncode(m: RawMarketMessage)
    ensures Decode(Encode(m)) == Some(m)
  {
    var bs := Encode(m);
    assert bs[..RecordSize] == bs;
    FieldOffsets(m);
    FieldsDetermineRecord(Encode(Decode(bs).value), bs);
  }

  /** Only the first `RecordSize` bytes of a buffer take part in decoding. */
  lemma DecodeIgnoresTail(buffer: seq<Byte>, tail: seq<Byte>)
    requires |buffer| >= RecordSize
    ensures Decode(buffer + tail) == Decode(buffer)
  {
    assert (buffer + tail)[..RecordSize] == buffer[..RecordSize];
  }
}
