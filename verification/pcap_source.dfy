/** `PcapSource` of `sources/pcap_source.py`: replays a capture file, loaded whole on
    `start`. The file readers are outside the model: what each one yields for the
    source's path is an input. */
module PcapSource {
  import opened Results
  import opened Text
  import opened Packets
  import opened Fifo
  import opened DataSources
  import CanSource
  import EthernetSource

  /** What a reader yields for a path: `Missing` when its optional library is not
      installed, otherwise the frames it read and the exception it stopped with, if
      any (an unreadable file raises before the first frame). */
  datatype Reader<F> = Missing | Read(frames: seq<F>, failure: Option<Error>)

  /** The readers for the three formats: BLF and ASC logs hold CAN frames, PCAP
      captures hold Ethernet frames. */
  datatype Files = Files(
    blf: Reader<CanSource.CanFrame>,
    pcap: Reader<EthernetSource.EthFrame>,
    asc: Reader<CanSource.CanFrame>)

  /** The packet `_load_pcap` builds from a frame. */
  function PcapPacket(f: EthernetSource.EthFrame, path: string, now: real): UnifiedPacket {
    UnifiedPacket(
      timestamp := if f.time.Some? then f.time.value else now,
      protocol := "ETH",
      source := if f.src.Some? then f.src.value else "unknown",
      destination := if f.dst.Some? then f.dst.value else "unknown",
      msgId := EthernetSource.LengthId(|f.raw|),
      payloadHex := EthernetSource.TruncatedHex(f.raw),
      payloadDecoded := map["length" := VInt(|f.raw|)],
      domain := "unknown",
      metadata := map["source_file" := VStr(path)])
  }

  /** The format `_load_file` dispatches on: the lower-cased path's extension. */
  datatype Format = Blf | Pcap | Asc | Unsupported

  function FormatOf(path: string): Format {
    var lower := Lower(path);
    if EndsWith(lower, ".blf") then Blf
    else if EndsWith(lower, ".pcap") || EndsWith(lower, ".pcapng") then Pcap
    else if EndsWith(lower, ".asc") then Asc
    else Unsupported
  }

  /** The packets of a list of CAN frames, in order. */
  function CanPackets(frames: seq<CanSource.CanFrame>, now: real): (ps: seq<UnifiedPacket>)
    ensures |ps| == |frames|
    ensures forall i :: 0 <= i < |ps| ==> ps[i] == CanSource.MsgToPacket(frames[i], now)
  {
    seq(|frames|, i requires 0 <= i < |frames| => CanSource.MsgToPacket(frames[i], now))
  }

  function PcapPackets(frames: seq<EthernetSource.EthFrame>, path: string, now: real): (ps: seq<UnifiedPacket>)
    ensures |ps| == |frames|
    ensures forall i :: 0 <= i < |ps| ==> ps[i] == PcapPacket(frames[i], path, now)
  {
    seq(|frames|, i requires 0 <= i < |frames| => PcapPacket(frames[i], path, now))
  }

  /** What one reader adds to the buffer, and how the load ends: a missing library is
      reported as a RuntimeError, a reader exception propagates after the frames read
      so far were appended. */
  function Append(buffer: seq<UnifiedPacket>, packets: seq<UnifiedPacket>, failure: Option<Error>): Effect<seq<UnifiedPacket>> {
    Effect(KeepNewest(buffer + packets, FileCapacity), if failure.Some? then Failure(failure.value) else Success(Unit))
  }

  /** `_load_file`. */
  function LoadFile(path: string, buffer: seq<UnifiedPacket>, files: Files, now: real): Effect<seq<UnifiedPacket>> {
    match FormatOf(path)
    case Blf =>
      (match files.blf
       case Missing => Effect(buffer, Failure(RuntimeError("python-can is required for BLF")))
       case Read(frames, failure) => Append(buffer, CanPackets(frames, now), failure))
    case Pcap =>
      (match files.pcap
       case Missing => Effect(buffer, Failure(RuntimeError("scapy is required for PCAP")))
       case Read(frames, failure) => Append(buffer, PcapPackets(frames, path, now), failure))
    case Asc =>
      (match files.asc
       case Missing => Effect(buffer, Failure(RuntimeError("python-can is required for ASC")))
       case Read(frames, failure) => Append(buffer, CanPackets(frames, now), failure))
    case Unsupported =>
      Effect(buffer, Failure(ValueError("Unsupported file format: " + Lower(path))))
  }

  /** The source: the file path, the running flag and the buffer. */
  datatype PcapState = PcapState(filePath: string, running: bool, buffer: seq<UnifiedPacket>)

  /** `PcapSource(file_path)`. */
  function New(filePath: string := ""): (s: PcapState)
    ensures !s.running && s.buffer == []
  {
    PcapState(filePath, false, [])
  }

  predicate Valid(s: PcapState) {
    |s.buffer| <= FileCapacity
  }

  /** `start` as written: a no-op on a running source; an empty path raises
      ValueError; otherwise the source is marked running BEFORE the file is loaded,
      so a load that raises leaves it running. */
  function StartAsWritten(s: PcapState, files: Files, now: real): Effect<PcapState> {
    if s.running then Effect(s, Success(Unit))
    else if s.filePath == "" then Effect(s, Failure(ValueError("file_path is required")))
    else
      var load := LoadFile(s.filePath, s.buffer, files, now);
      Effect(s.(running := true, buffer := load.state), load.outcome)
  }

  /** An unsupported extension makes `start` raise yet leaves the source running, and
      the retry that follows is a silent no-op: it reports success with nothing
      loaded. */
  lemma StartAsWrittenLeavesFailedSourceRunning(files: Files, now: real)
    ensures var s := New("a.csv");
      var first := StartAsWritten(s, files, now);
      var retry := StartAsWritten(first.state, files, now);
      && first.outcome == Failure(ValueError("Unsupported file format: a.csv"))
      && first.state.running
      && retry.outcome.Success? && retry.state.buffer == []
  {
    CsvExample();
    assert "Unsupported file format: " + Lower("a.csv") == "Unsupported file format: a.csv";
    assert LoadFile("a.csv", [], files, now) == Effect([], Failure(ValueError("Unsupported file format: a.csv")));
  }

  /** `start` with the running flag set only once the load succeeded: a failed load
      raises and leaves the source exactly as it was. */
  function Start(s: PcapState, files: Files, now: real): Effect<PcapState> {
    if s.running then Effect(s, Success(Unit))
    else if s.filePath == "" then Effect(s, Failure(ValueError("file_path is required")))
    else
      var load := LoadFile(s.filePath, s.buffer, files, now);
      if load.outcome.Failure? then Effect(s, load.outcome)
      else Effect(s.(running := true, buffer := load.state), load.outcome)
  }

  /** A failed start leaves the source unchanged and not running, so a retry loads the
      file again; a successful one runs over the loaded packets, and only then does the
      running guard make later starts no-ops. */
  lemma StartSpec(s: PcapState, files: Files, now: real)
    requires Valid(s)
    ensures var e := Start(s, files, now);
      && Valid(e.state)
      && (e.outcome.Failure? ==> e.state == s && !s.running)
      && (e.outcome.Success? ==> e.state.running)
      && (s.filePath == "" && !s.running ==> e.outcome == Failure(ValueError("file_path is required")))
      && (!s.running && FormatOf(s.filePath) == Unsupported ==> e.outcome.Failure?)
      && Start(e.state, files, now).state == e.state
  {
  }

  /** The corrected start differs from the written one only when the load fails. */
  lemma StartAgreesOnSuccess(s: PcapState, files: Files, now: real)
    ensures StartAsWritten(s, files, now).outcome == Start(s, files, now).outcome
    ensures Start(s, files, now).outcome.Success? ==> StartAsWritten(s, files, now) == Start(s, files, now)
  {
  }

  /** The load dispatches on the lower-cased extension: a readable file of a supported
      format appends its frames' packets, in order, to the buffer (newest 50000 kept);
      PCAP frames become ETH packets of the "unknown" domain tagged with their file,
      and BLF or ASC frames become parsed CAN packets. */
  lemma LoadFileSpec(path: string, buffer: seq<UnifiedPacket>, files: Files, now: real)
    requires |buffer| <= FileCapacity
    ensures var e := LoadFile(path, buffer, files, now);
      && |e.state| <= FileCapacity
      && (FormatOf(path) == Unsupported ==> e.state == buffer && e.outcome.Failure? && e.outcome.error.ValueError?)
      && (FormatOf(path) == Pcap && files.pcap.Read? ==>
            var ps := PcapPackets(files.pcap.frames, path, now);
            && e.state == KeepNewest(buffer + ps, FileCapacity)
            && (e.outcome.Success? <==> files.pcap.failure.None?)
            && forall i :: 0 <= i < |ps| ==>
                 ps[i].protocol == "ETH" && ps[i].domain == "unknown"
                 && ps[i].metadata == map["source_file" := VStr(path)]
                 && |ps[i].payloadHex| <= 256
                 && ParseInt16(ps[i].msgId) == Some(|files.pcap.frames[i].raw|))
      && (FormatOf(path) == Blf && files.blf.Read? ==>
            && e.state == KeepNewest(buffer + CanPackets(files.blf.frames, now), FileCapacity)
            && (e.outcome.Success? <==> files.blf.failure.None?))
      && (FormatOf(path) == Asc && files.asc.Read? ==>
            && e.state == KeepNewest(buffer + CanPackets(files.asc.frames, now), FileCapacity)
            && (e.outcome.Success? <==> files.asc.failure.None?))
      && (FormatOf(path) == Blf && files.blf.Missing? ==>
            e.state == buffer && e.outcome.Failure? && e.outcome.error.RuntimeError?)
      && (FormatOf(path) == Pcap && files.pcap.Missing? ==>
            e.state == buffer && e.outcome.Failure? && e.outcome.error.RuntimeError?)
      && (FormatOf(path) == Asc && files.asc.Missing? ==>
            e.state == buffer && e.outcome.Failure? && e.outcome.error.RuntimeError?)
  {
    if FormatOf(path) == Pcap && files.pcap.Read? {
      var ps := PcapPackets(files.pcap.frames, path, now);
      forall i | 0 <= i < |ps|
        ensures |ps[i].payloadHex| <= 256
        ensures ParseInt16(ps[i].msgId) == Some(|files.pcap.frames[i].raw|)
      {
        EthernetSource.FrameEncodingSpec(files.pcap.frames[i].raw);
      }
    }
  }

  /** The format dispatch is case-insensitive and checks ".pcapng" as well as ".pcap". */
  lemma FormatExamples()
    ensures FormatOf("LOG.BLF") == Blf
    ensures FormatOf("a.pcapng") == Pcap
    ensures FormatOf("a.Asc") == Asc
    ensures FormatOf("a.csv") == Unsupported
  {
    BlfExample();
    PcapngExample();
    AscExample();
    CsvExample();
  }

  lemma BlfExample()
    ensures FormatOf("LOG.BLF") == Blf
  {
    assert Lower("LOG.BLF") == "log.blf";
  }

  /** The format of a path does not depend on the case of its letters. */
  lemma FormatIgnoresCase(path: string)
    ensures FormatOf(Upper(path)) == FormatOf(path)
    ensures FormatOf(Lower(path)) == FormatOf(path)
  {
    LowerForgetsCase(path);
  }

  lemma PcapngExample()
    ensures FormatOf("a.pcapng") == Pcap
  {
    assert Lower("a.pcapng") == "a.pcapng";
    NotEndsWith("a.pcapng", ".blf", 1);
  }

  lemma AscExample()
    ensures FormatOf("a.Asc") == Asc
  {
    assert Lower("a.Asc") == "a.asc";
    NotEndsWith("a.asc", ".blf", 1);
    NotEndsWith("a.asc", ".pcap", 0);
  }

  lemma CsvExample()
    ensures Lower("a.csv") == "a.csv"
    ensures FormatOf("a.csv") == Unsupported
  {
    assert Lower("a.csv") == "a.csv";
    NotEndsWith("a.csv", ".blf", 1);
    NotEndsWith("a.csv", ".pcap", 0);
    NotEndsWith("a.csv", ".asc", 1);
  }

  /** One mismatching character rules a suffix out. */
  lemma NotEndsWith(s: string, suffix: string, i: nat)
    requires i < |suffix| && (|suffix| <= |s| ==> s[|s| - |suffix| + i] != suffix[i])
    ensures !EndsWith(s, suffix)
  {
    if |suffix| <= |s| {
      assert s[|s| - |suffix|..][i] != suffix[i];
    }
  }

  /** `stop`: the source stops and its buffer is cleared. */
  function Stop(s: PcapState): PcapState {
    s.(running := false, buffer := [])
  }

  /** `read(max_count)`. */
  function ReadPackets(s: PcapState, maxCount: int): Batch<PcapState> {
    var d := Drain(s.buffer, maxCount);
    Batch(s.(buffer := d.rest), d.taken)
  }

  /** Stopping empties the source; reads drain it front to back. */
  lemma StopReadSpec(s: PcapState, m1: nat, m2: nat)
    requires Valid(s)
    ensures !Stop(s).running && Stop(s).buffer == []
    ensures var r := ReadPackets(s, m1);
      && Valid(r.state) && r.state.running == s.running
      && r.packets + r.state.buffer == s.buffer
      && |r.packets| == Min(m1, |s.buffer|)
      && r.packets + ReadPackets(r.state, m2).packets == ReadPackets(s, m1 + m2).packets
  {
    DrainTwice(s.buffer, m1, m2);
  }
}
