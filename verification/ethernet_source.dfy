/** `EthernetSource` of `sources/ethernet_source.py`: a live capture whose callback turns
    every captured frame into a packet. The capture itself is outside the model: what
    it delivers is an input. */
module EthernetSource {
  import opened Results
  import opened Text
  import opened Packets
  import opened Fifo
  import opened DataSources

  /** A captured frame: its capture time and link addresses when the frame has them,
      and its raw bytes. */
  datatype EthFrame = EthFrame(time: Option<real>, src: Option<string>, dst: Option<string>, raw: seq<Byte>)

  /** `f"0x{len(raw):04X}"`: the frame length, as the packet id. */
  function LengthId(n: nat): string {
    "0x" + FormatHex(n, 4)
  }

  /** `raw.hex().upper()[:256]`. */
  function TruncatedHex(raw: seq<Byte>): string {
    Slice(HexEncode(raw), 0, 256)
  }

  /** The id reads back as the frame length, and the payload is the upper-case hex of
      the first 128 bytes: a prefix of the full encoding of length `min(2 * len, 256)`
      whose chunks parse to those bytes. */
  lemma FrameEncodingSpec(raw: seq<Byte>)
    ensures ParseInt16(LengthId(|raw|)) == Some(|raw|)
    ensures var h := TruncatedHex(raw);
      && |h| == Min(2 * |raw|, 256)
      && h == HexEncode(raw)[..|h|]
      && |Chunks(h)| == Min(|raw|, 128)
      && forall k :: 0 <= k < |Chunks(h)| ==> ParseInt16(Chunks(h)[k]) == Some(raw[k] as nat)
  {
    ParsePrefixedFormatHex(|raw|, 4);
    var n := Min(|raw|, 128);
    var h := TruncatedHex(raw);
    assert h == HexEncode(raw[..n]) by {
      HexEncodePrefix(raw, n);
    }
    ChunksOfHexEncode(raw[..n]);
    forall k | 0 <= k < n
      ensures ParseInt16(Chunks(h)[k]) == Some(raw[k] as nat)
    {
      ParseByteHex(raw[k]);
    }
  }

  /** The encoding of a prefix of the bytes is the prefix of the encoding. */
  lemma {:induction false} HexEncodePrefix(raw: seq<Byte>, n: nat)
    requires n <= |raw|
    ensures HexEncode(raw)[..2 * n] == HexEncode(raw[..n])
  {
    if n > 0 {
      HexEncodePrefix(raw[1..], n - 1);
      assert raw[..n] == [raw[0]] + raw[1..][..n - 1];
      assert HexEncode(raw[..n]) == ByteHex(raw[0]) + HexEncode(raw[1..][..n - 1]);
    }
  }

  /** The packet `_handle_packet` builds from a frame: a missing time becomes `now`,
      missing addresses become "unknown". */
  function FramePacket(f: EthFrame, interface: string, now: real): UnifiedPacket {
    UnifiedPacket(
      timestamp := if f.time.Some? then f.time.value else now,
      protocol := "ETH",
      source := if f.src.Some? then f.src.value else "unknown",
      destination := if f.dst.Some? then f.dst.value else "unknown",
      msgId := LengthId(|f.raw|),
      payloadHex := TruncatedHex(f.raw),
      payloadDecoded := map["length" := VInt(|f.raw|), "eth_type" := VStr("SOME/IP")],
      domain := "infotainment",
      metadata := map["interface" := VStr(interface)])
  }

  /** The source: its interface, the running flag and the buffer. */
  datatype EthState = EthState(interface: string, running: bool, buffer: seq<UnifiedPacket>)

  /** `EthernetSource(interface)`. */
  function New(interface: string := "eth0"): (s: EthState)
    ensures !s.running && s.buffer == []
  {
    EthState(interface, false, [])
  }

  predicate Valid(s: EthState) {
    |s.buffer| <= LiveCapacity
  }

  /** `start`: a no-op on a running source, otherwise it runs; the capture is opened by
      the background task, so `start` itself never raises. */
  function Start(s: EthState): EthState {
    s.(running := true)
  }

  /** `stop`: the buffer is kept. */
  function Stop(s: EthState): EthState {
    s.(running := false)
  }

  /** `read(max_count)`. */
  function Read(s: EthState, maxCount: int): Batch<EthState> {
    var d := Drain(s.buffer, maxCount);
    Batch(s.(buffer := d.rest), d.taken)
  }

  /** What the capture delivers to the source. */
  datatype CaptureEvent =
    | Captured(frame: EthFrame)
    | Malformed           // building the packet raised; the frame is dropped
    | SniffFailed(error: Error)   // the capture raised; the error is logged

  /** The capture callback and the sniff loop's error handler. No event raises. */
  function OnCapture(s: EthState, e: CaptureEvent, now: real): EthState {
    match e
    case Captured(f) => s.(buffer := Push(s.buffer, FramePacket(f, s.interface, now), LiveCapacity))
    case _ => s
  }

  /** A captured frame becomes the newest packet: an ETH packet of the infotainment
      domain whose id reads back as the frame length and whose decoded length is that
      length; malformed frames and capture errors leave the source unchanged, and no
      event changes the running flag. */
  lemma OnCaptureSpec(s: EthState, e: CaptureEvent, now: real)
    requires Valid(s)
    ensures var t := OnCapture(s, e, now);
      && Valid(t) && t.running == s.running
      && (e.Captured? ==>
            var p := t.buffer[|t.buffer| - 1];
            && p.protocol == "ETH" && p.domain == "infotainment"
            && ParseInt16(p.msgId) == Some(|e.frame.raw|)
            && p.payloadDecoded["length"] == VInt(|e.frame.raw|)
            && |p.payloadHex| <= 256
            && |t.buffer| == Min(|s.buffer| + 1, LiveCapacity))
      && (!e.Captured? ==> t == s)
  {
    if e.Captured? {
      var p := FramePacket(e.frame, s.interface, now);
      FramePacketSpec(e.frame, s.interface, now);
      var t := OnCapture(s, e, now);
      assert t.buffer == KeepNewest(s.buffer + [p], LiveCapacity);
      assert t.buffer[|t.buffer| - 1] == p by {
        KeepNewestIsSuffix(s.buffer + [p], LiveCapacity);
      }
    }
  }

  /** The packet of a frame is an ETH packet of the infotainment domain whose id reads
      back as the frame length, as does its decoded length, and whose payload holds at
      most 256 hex digits. */
  lemma FramePacketSpec(f: EthFrame, interface: string, now: real)
    ensures var p := FramePacket(f, interface, now);
      && p.protocol == "ETH" && p.domain == "infotainment"
      && ParseInt16(p.msgId) == Some(|f.raw|)
      && p.payloadDecoded["length"] == VInt(|f.raw|)
      && |p.payloadHex| <= 256
      && p.metadata["interface"] == VStr(interface)
  {
    FrameEncodingSpec(f.raw);
  }

  /** Starting never fails and always leaves the source running with its buffer;
      stopping leaves it stopped with its buffer; both are idempotent. */
  lemma StartStopSpec(s: EthState)
    ensures Start(s).running && Start(s).buffer == s.buffer && Start(Start(s)) == Start(s)
    ensures !Stop(s).running && Stop(s).buffer == s.buffer && Stop(Stop(s)) == Stop(s)
    ensures s.running ==> Start(s) == s
  {
  }

  /** Reads drain the buffer front to back. */
  lemma ReadSpec(s: EthState, m1: nat, m2: nat)
    requires Valid(s)
    ensures var r := Read(s, m1);
      && Valid(r.state) && r.state.running == s.running
      && r.packets + r.state.buffer == s.buffer
      && |r.packets| == Min(m1, |s.buffer|)
      && r.packets + Read(r.state, m2).packets == Read(s, m1 + m2).packets
  {
    DrainTwice(s.buffer, m1, m2);
  }
}
