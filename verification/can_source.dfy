/** `CANSource` of `sources/can_source.py`: a live CAN bus whose background reader
    turns every received frame into a packet. Opening the bus and receiving are outside
    the model: their outcomes are inputs. */
module CanSource {
  import opened Results
  import opened Text
  import opened Packets
  import opened Fifo
  import opened DataSources
  import TrafficParser

  /** A received CAN frame: arbitration id, data bytes and the driver's timestamp,
      0.0 when the driver gave none. */
  datatype CanFrame = CanFrame(arbitrationId: nat, data: seq<Byte>, timestamp: real)

  /** `f"0x{arbitration_id:03X}"`. */
  function FrameId(arbitrationId: nat): string {
    "0x" + FormatHex(arbitrationId, 3)
  }

  /** `msg.timestamp or time.time()`: a zero timestamp is falsy. */
  function FrameTime(f: CanFrame, now: real): real {
    if f.timestamp != 0.0 then f.timestamp else now
  }

  /** A CAN payload written as upper-case hex always parses: the one payload-dependent
      step of the parser, the engine speed, only reads two hex digits per byte. */
  lemma FrameParses(f: CanFrame, now: real)
    ensures TrafficParser.CanParse(FrameId(f.arbitrationId), HexEncode(f.data), Some(FrameTime(f, now)), now).Success?
  {
    var h := HexEncode(f.data);
    if |f.data| >= 2 {
      HexEncodeFirstBytes(f.data);
      ParseByteHex(f.data[0]);
      ParseByteHex(f.data[1]);
      assert TrafficParser.DecodeRpm(h).Success?;
    }
  }

  /** `_msg_to_packet`: the frame parsed by the CAN parser. */
  function MsgToPacket(f: CanFrame, now: real): UnifiedPacket {
    FrameParses(f, now);
    TrafficParser.CanParse(FrameId(f.arbitrationId), HexEncode(f.data), Some(FrameTime(f, now)), now).value
  }

  /** A frame's packet reads back to the frame: its id parses to the arbitration id,
      its payload chunks parse to the data bytes, a falsy timestamp becomes `now`, and
      the ECU and domain come from the parser's table. */
  lemma MsgToPacketSpec(f: CanFrame, now: real)
    ensures var p := MsgToPacket(f, now);
      && p.protocol == "CAN"
      && ParseInt16(p.msgId) == Some(f.arbitrationId) && |p.msgId| >= 5
      && p.payloadHex == HexEncode(f.data)
      && |Chunks(p.payloadHex)| == |f.data|
      && (forall k :: 0 <= k < |f.data| ==> ParseInt16(Chunks(p.payloadHex)[k]) == Some(f.data[k] as nat))
      && p.timestamp == (if f.timestamp != 0.0 then f.timestamp else now)
      && p.source == TrafficParser.LookupEcu(p.msgId).ecu
  {
    var p := MsgToPacket(f, now);
    var id := FrameId(f.arbitrationId);
    var h := HexEncode(f.data);
    assert p.msgId == id && p.payloadHex == h && p.protocol == "CAN"
      && p.timestamp == FrameTime(f, now) && p.source == TrafficParser.LookupEcu(id).ecu
    by {
      FrameParses(f, now);
    }
    assert ParseInt16(id) == Some(f.arbitrationId) by {
      ParsePrefixedFormatHex(f.arbitrationId, 3);
    }
    ChunksOfHexEncode(f.data);
    forall k | 0 <= k < |f.data|
      ensures ParseInt16(Chunks(h)[k]) == Some(f.data[k] as nat)
    {
      ParseByteHex(f.data[k]);
    }
  }

  /** The source: running flag, whether a bus handle and a reader task exist, and the
      buffer. */
  datatype CanState = CanState(running: bool, busOpen: bool, readerTask: bool, buffer: seq<UnifiedPacket>)

  /** `CANSource()`. */
  function New(): (s: CanState)
    ensures !s.running && !s.busOpen && !s.readerTask && s.buffer == []
  {
    CanState(false, false, false, [])
  }

  predicate Valid(s: CanState) {
    |s.buffer| <= LiveCapacity
  }

  /** `start`: a no-op on a running source. Otherwise the bus is opened; when that
      raises (`busError`), the error is re-raised and nothing changes, else the source
      runs with an open bus and a reader task. */
  function Start(s: CanState, busError: Option<Error>): Effect<CanState> {
    if s.running then Effect(s, Success(Unit))
    else if busError.Some? then Effect(s, Failure(busError.value))
    else Effect(s.(running := true, busOpen := true, readerTask := true), Success(Unit))
  }

  /** `stop`: the reader is cancelled and the bus shut down; the buffer is kept. */
  function Stop(s: CanState): CanState {
    s.(running := false, readerTask := false, busOpen := false)
  }

  /** `read(max_count)`. */
  function Read(s: CanState, maxCount: int): Batch<CanState> {
    var d := Drain(s.buffer, maxCount);
    Batch(s.(buffer := d.rest), d.taken)
  }

  /** What one `recv(timeout=0.1)` of the reader returns. */
  datatype Receive = Received(frame: CanFrame) | TimedOut | ReceiveFailed(error: Error)

  /** One pass of `_read_loop`. The loop runs only while the source runs; a timeout is
      skipped and a receive error is logged; a frame is appended, dropping the oldest
      packet once the buffer is full. */
  function ReadLoopStep(s: CanState, r: Receive, now: real): CanState {
    if !s.running then s
    else
      match r
      case Received(f) => s.(buffer := Push(s.buffer, MsgToPacket(f, now), LiveCapacity))
      case _ => s
  }

  /** The start guard: starting succeeds exactly when the source already ran or the bus
      opened; a failed start leaves the source as it was, in particular not running;
      a successful one leaves it running with a bus and a reader; starting twice is
      starting once. */
  lemma StartSpec(s: CanState, busError: Option<Error>)
    ensures var e := Start(s, busError);
      && (e.outcome.Success? <==> s.running || busError.None?)
      && (e.outcome.Failure? ==> e.state == s && !e.state.running && e.outcome.error == busError.value)
      && (e.outcome.Success? ==> e.state.running && e.state.buffer == s.buffer)
      && (e.outcome.Success? && !s.running ==> e.state.busOpen && e.state.readerTask)
      && Start(e.state, busError).state == e.state
  {
  }

  /** Stopping always leaves the source stopped, without bus or reader, even when it
      never started; the buffer is kept, so packets received before the stop can still
      be read. */
  lemma StopSpec(s: CanState)
    ensures var t := Stop(s);
      !t.running && !t.busOpen && !t.readerTask && t.buffer == s.buffer && Stop(t) == t
  {
  }

  /** Every operation keeps the buffer within its capacity. A running reader adds the
      frame's packet as the newest element; a stopped source's reader adds nothing. */
  lemma ReadLoopStepSpec(s: CanState, r: Receive, now: real)
    requires Valid(s)
    ensures var t := ReadLoopStep(s, r, now);
      && Valid(t) && t.running == s.running
      && (r.Received? && s.running ==>
            && t.buffer[|t.buffer| - 1] == MsgToPacket(r.frame, now)
            && |t.buffer| == Min(|s.buffer| + 1, LiveCapacity))
      && (!r.Received? || !s.running ==> t == s)
  {
  }

  /** Reads drain the buffer front to back. */
  lemma ReadSpec(s: CanState, m1: nat, m2: nat)
    requires Valid(s)
    ensures var r := Read(s, m1);
      && Valid(r.state) && r.state.running == s.running
      && r.packets + r.state.buffer == s.buffer
      && |r.packets| == Min(m1, |s.buffer|)
      && r.packets + Read(r.state, m2).packets == Read(s, m1 + m2).packets
  {
    DrainTwice(s.buffer, m1, m2);
  }
}
