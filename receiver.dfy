/** The datagram handling of `UDPMulticastReceiver::listen`: every received
    datagram is counted, decoded as a `RawMarketMessage` when it is large
    enough, and every hundredth one produces a rate estimate. The socket, the
    console and the clocks are outside the model: each pass of the loop is
    given what `recv` returned and the clock readings it would take. */
module Receiver {
  import opened Ints
  import opened Options
  import opened Wire

  /** `char buffer[1024]`: `recv` never returns more than this. */
  const BufferSize: nat := 1024
  /** How many raw bytes are shown per datagram, at most. */
  const RawPreviewLength: nat := 20
  /** A rate line is considered every this many messages. */
  const RateReportPeriod: nat := 100

  /** What one `recv` call yields: a datagram as sent (its first `BufferSize`
      bytes land in the buffer, the rest is discarded), or an error (-1). */
  datatype Recv = Datagram(payload: seq<Byte>) | RecvError

  /** One pass of the loop: the `recv` outcome, the system clock in
      microseconds since the epoch, and the whole seconds elapsed on the
      steady clock since listening began. */
  datatype Reading = Reading(recv: Recv, wallMicros: int, elapsedSeconds: int)

  datatype ParseOutcome =
    | Parsed(msg: RawMarketMessage, latency: U64)
    | TooSmall(bytes: nat)

  /** What the loop reports about one datagram. */
  datatype Report = Report(
    messageNumber: int,
    bytes: nat,
    raw: seq<Byte>,
    parse: ParseOutcome,
    rate: Option<int>)

  /** The bytes `recv` copies into the buffer: a datagram longer than the
      buffer is truncated to it. */
  function Received(payload: seq<Byte>): (buffer: seq<Byte>)
    ensures |buffer| <= BufferSize
    ensures |buffer| == if |payload| <= BufferSize then |payload| else BufferSize
    ensures buffer == payload[..|buffer|]
  {
    if |payload| <= BufferSize then payload else payload[..BufferSize]
  }

  /** The value `recv` returns. */
  function RecvBytes(r: Recv): (n: int)
    ensures n > 0 <==> r.Datagram? && r.payload != []
    ensures n == 0 <==> r.Datagram? && r.payload == []
  {
    match r
    case Datagram(payload) => |Received(payload)|
    case RecvError => -1
  }

  /** `now - msg->timestamp` with a signed `long` reading converted to
      `uint64_t`: the difference modulo 2^64, so a receiver clock behind the
      sender's yields a value near 2^64 rather than a negative one. */
  function Latency(wallMicros: int, timestamp: U64): (latency: U64)
    ensures timestamp <= wallMicros < TwoTo64 ==> latency == wallMicros - timestamp
    ensures 0 <= wallMicros < timestamp ==> latency == TwoTo64 + wallMicros - timestamp
    ensures Wrap64(latency + timestamp) == Wrap64(wallMicros)
  {
    Wrap64(wallMicros - timestamp)
  }

  /** The shown prefix: `min(20, bytes)` bytes. */
  function RawPreview(buffer: seq<Byte>): (raw: seq<Byte>)
    ensures |raw| == if |buffer| < RawPreviewLength then |buffer| else RawPreviewLength
    ensures raw == buffer[..|raw|]
  {
    if |buffer| < RawPreviewLength then buffer else buffer[..RawPreviewLength]
  }

  /** The rate line after `messageCount` messages: only on a multiple of
      `RateReportPeriod` and once a whole second has elapsed, and then the
      whole number of messages per elapsed second, rounded down. */
  function RateLine(messageCount: nat, elapsedSeconds: int): (rate: Option<int>)
    ensures rate.Some? <==> messageCount % RateReportPeriod == 0 && elapsedSeconds > 0
    ensures rate.Some? ==>
      0 <= rate.value && rate.value * elapsedSeconds <= messageCount < (rate.value + 1) * elapsedSeconds
  {
    if messageCount % RateReportPeriod == 0 && elapsedSeconds > 0 then
      var q := messageCount / elapsedSeconds;
      assert q * elapsedSeconds + messageCount % elapsedSeconds == messageCount;
      Some(q)
    else None
  }

  /** The handling of one datagram of `bytes > 0` received when
      `messageCount` messages had been counted before it. */
  function HandleDatagram(messageCount: nat, buffer: seq<Byte>, wallMicros: int, elapsedSeconds: int): (r: Report)
    requires 0 < |buffer| <= BufferSize
    ensures r.messageNumber == messageCount + 1
    ensures r.bytes == |buffer|
    ensures r.raw == RawPreview(buffer)
    ensures r.parse.Parsed? <==> |buffer| >= RecordSize
    ensures r.parse.Parsed? ==>
      Encode(r.parse.msg) == buffer[..RecordSize]
      && r.parse.latency == Latency(wallMicros, r.parse.msg.timestamp)
    ensures r.parse.TooSmall? ==> r.parse.bytes == |buffer|
    ensures r.rate == RateLine(messageCount + 1, elapsedSeconds)
  {
    var count := messageCount + 1;
    var parse :=
      match Decode(buffer)
      case Some(msg) => Parsed(msg, Latency(wallMicros, msg.timestamp))
      case None => TooSmall(|buffer|);
    Report(count, |buffer|, RawPreview(buffer), parse, RateLine(count, elapsedSeconds))
  }

  /** The report for a pass whose `recv` returned a positive count: the
      datagram is numbered after the `messageCount` before it, its size is
      what `recv` returned, it is decoded exactly when `recv` returned at
      least a record's worth of bytes, and then from the datagram's first
      bytes, however long the datagram was. */
  function ReportOf(messageCount: nat, reading: Reading): (r: Report)
    requires RecvBytes(reading.recv) > 0
    ensures r.messageNumber == messageCount + 1
    ensures r.bytes == RecvBytes(reading.recv)
    ensures r.parse.Parsed? <==> RecvBytes(reading.recv) >= RecordSize
    ensures r.parse.Parsed? ==> Encode(r.parse.msg) == reading.recv.payload[..RecordSize]
    ensures r.rate == RateLine(messageCount + 1, reading.elapsedSeconds)
  {
    HandleDatagram(messageCount, Received(reading.recv.payload), reading.wallMicros, reading.elapsedSeconds)
  }

  /** The number of passes before the first `recv` that returns 0 or a
      negative value (or all of them, when none does). */
  function FirstStop(readings: seq<Reading>): (k: nat)
    ensures k <= |readings|
    ensures forall j :: 0 <= j < k ==> RecvBytes(readings[j].recv) > 0
    ensures k < |readings| ==> RecvBytes(readings[k].recv) <= 0
    decreases |readings|
  {
    if readings == [] || RecvBytes(readings[0].recv) <= 0 then 0
    else 1 + FirstStop(readings[1..])
  }

  /** Appending the report of pass `i` to the reports of the passes before it. */
  lemma ReportsExtend(readings: seq<Reading>, reports: seq<Report>, i: nat)
    requires i == |reports| < |readings|
    requires forall j :: 0 <= j <= i ==> RecvBytes(readings[j].recv) > 0
    requires forall j :: 0 <= j < i ==> reports[j] == ReportOf(j, readings[j])
    ensures forall j :: 0 <= j <= i ==> (reports + [ReportOf(i, readings[i])])[j] == ReportOf(j, readings[j])
  {
  }

  /** `listen`, over the passes it makes: every datagram up to the first
      closed or failed `recv` is counted and reported as `HandleDatagram`
      describes, and that `recv` ends the loop. */
  method Listen(readings: seq<Reading>) returns (messageCount: nat, reports: seq<Report>)
    ensures messageCount == FirstStop(readings) == |reports|
    ensures forall j :: 0 <= j < |reports| ==> reports[j] == ReportOf(j, readings[j])
  {
    messageCount := 0;
    reports := [];
    var i := 0;
    while i < |readings|
      invariant i <= |readings|
      invariant messageCount == i == |reports|
      invariant forall j :: 0 <= j < i ==> RecvBytes(readings[j].recv) > 0
      invariant forall j :: 0 <= j < i ==> reports[j] == ReportOf(j, readings[j])
    {
      var reading := readings[i];
      var bytes := RecvBytes(reading.recv);
      if bytes > 0 {
        var report := ReportOf(messageCount, reading);
        ReportsExtend(readings, reports, i);
        messageCount := messageCount + 1;
        reports := reports + [report];
      } else if bytes == 0 {
        break;  // connection closed
      } else {
        break;  // recv error
      }
      i := i + 1;
    }
  }
}
