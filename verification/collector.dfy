/** `CollectorService` of `services/collector.py`: owns the data sources, moves their
    packets into a bounded pending buffer, and hands full batches to persistence and
    detection. One pass of the collect loop is `Tick`; the asyncio task around it, the
    sleeps and the database are outside the model (the database is a sink whose
    commit outcomes are inputs). */
module Collector {
  import opened Results
  import opened Text
  import opened Seqs
  import opened Packets
  import opened Anomalies
  import opened Fifo
  import opened DataSources
  import opened Config
  import opened IsolationForest
  import DetectorService
  import SimulatorSource
  import CanSource
  import EthernetSource
  import PcapSource

  /** The source settings the collector reads: the default mode, the Ethernet interface,
      the replay file, the pending-buffer size, whether to detect automatically, and the
      detection batch size. */
  datatype SourceSettings = SourceSettings(
    mode: string,
    ethernetInterface: string,
    pcapPath: string,
    bufferSize: nat,
    autoDetect: bool,
    detectBatch: int)

  /** One data source of any variant. */
  datatype Source =
    | Simulator(sim: SimulatorSource.SimState)
    | Can(can: CanSource.CanState)
    | Ethernet(eth: EthernetSource.EthState)
    | PcapFile(pcap: PcapSource.PcapState)

  /** The outside world a start depends on: the clock, the simulator's generators,
      whether the CAN bus opens, and what the file readers yield. */
  datatype World = World(
    now: real,
    generators: SimulatorSource.Generators,
    busError: Option<Error>,
    files: PcapSource.Files)

  /** `_create_source(mode)`. */
  function CreateSource(mode: string, settings: SourceSettings): (r: Result<Source>)
    ensures r.Failure? <==> mode !in {"can", "ethernet", "pcap", "simulator"}
    ensures r.Failure? ==> r.error == ValueError("Unknown source mode: " + mode)
    ensures r.Success? ==> !IsRunning(r.value) && Buffer(r.value) == []
    ensures mode == "can" ==> r == Success(Can(CanSource.New()))
    ensures mode == "ethernet" ==> r == Success(Ethernet(EthernetSource.New(settings.ethernetInterface)))
    ensures mode == "pcap" ==> r == Success(PcapFile(PcapSource.New(settings.pcapPath)))
    ensures mode == "simulator" ==> r == Success(Simulator(SimulatorSource.New("normal", 200)))
  {
    if mode == "can" then Success(Can(CanSource.New()))
    else if mode == "ethernet" then Success(Ethernet(EthernetSource.New(settings.ethernetInterface)))
    else if mode == "pcap" then Success(PcapFile(PcapSource.New(settings.pcapPath)))
    else if mode == "simulator" then Success(Simulator(SimulatorSource.New("normal", 200)))
    else Failure(ValueError("Unknown source mode: " + mode))
  }

  predicate IsRunning(src: Source) {
    match src
    case Simulator(s) => s.running
    case Can(s) => s.running
    case Ethernet(s) => s.running
    case PcapFile(s) => s.running
  }

  function Buffer(src: Source): seq<UnifiedPacket> {
    match src
    case Simulator(s) => s.buffer
    case Can(s) => s.buffer
    case Ethernet(s) => s.buffer
    case PcapFile(s) => s.buffer
  }

  /** `await src.start()`. With `asWritten` a file source starts as its code is
      written, running even when its load raised; otherwise a failed start leaves every
      kind of source stopped. */
  function StartSource(src: Source, w: World, asWritten: bool): (e: Effect<Source>)
    ensures e.outcome.Success? ==> IsRunning(e.state)
    ensures e.outcome.Failure? && !(asWritten && src.PcapFile?) ==> !IsRunning(e.state)
  {
    match src
    case Simulator(s) => Effect(Simulator(SimulatorSource.Start(s, w.generators, w.now)), Success(Unit))
    case Can(s) =>
      var e := CanSource.Start(s, w.busError);
      Effect(Can(e.state), e.outcome)
    case Ethernet(s) => Effect(Ethernet(EthernetSource.Start(s)), Success(Unit))
    case PcapFile(s) =>
      var e := if asWritten then PcapSource.StartAsWritten(s, w.files, w.now) else PcapSource.Start(s, w.files, w.now);
      Effect(PcapFile(e.state), e.outcome)
  }

  /** `await src.read(max_count)`. */
  function ReadSource(src: Source, maxCount: int): (b: Batch<Source>)
    ensures b.packets + Buffer(b.state) == Buffer(src)
    ensures |b.packets| == Taken(maxCount, |Buffer(src)|)
    ensures IsRunning(b.state) == IsRunning(src)
  {
    match src
    case Simulator(s) =>
      var b := SimulatorSource.Read(s, maxCount);
      Batch(Simulator(b.state), b.packets)
    case Can(s) =>
      var b := CanSource.Read(s, maxCount);
      Batch(Can(b.state), b.packets)
    case Ethernet(s) =>
      var b := EthernetSource.Read(s, maxCount);
      Batch(Ethernet(b.state), b.packets)
    case PcapFile(s) =>
      var b := PcapSource.ReadPackets(s, maxCount);
      Batch(PcapFile(b.state), b.packets)
  }

  /** `for src in sources: await src.start()`: the sources start in order and the
      first failure propagates, leaving the later sources untouched. */
  function StartAll(srcs: seq<Source>, w: World, asWritten: bool): (e: Effect<seq<Source>>)
    ensures |e.state| == |srcs|
    ensures e.outcome.Success? ==> forall i :: 0 <= i < |srcs| ==> IsRunning(e.state[i])
    decreases |srcs|
  {
    if srcs == [] then Effect([], Success(Unit))
    else
      var first := StartSource(srcs[0], w, asWritten);
      if first.outcome.Failure? then Effect([first.state] + srcs[1..], first.outcome)
      else
        var rest := StartAll(srcs[1..], w, asWritten);
        Effect([first.state] + rest.state, rest.outcome)
  }

  /** The sources are started independently: the whole start succeeds exactly when
      every source's own start does, and then each source is in the state its own
      start leaves it in. */
  lemma {:induction false} StartAllSpec(srcs: seq<Source>, w: World, asWritten: bool)
    ensures var e := StartAll(srcs, w, asWritten);
      && (e.outcome.Success? <==> forall i :: 0 <= i < |srcs| ==> StartSource(srcs[i], w, asWritten).outcome.Success?)
      && (e.outcome.Success? ==> forall i :: 0 <= i < |srcs| ==> e.state[i] == StartSource(srcs[i], w, asWritten).state)
    decreases |srcs|
  {
    if srcs != [] {
      StartAllSpec(srcs[1..], w, asWritten);
      var e := StartAll(srcs, w, asWritten);
      var first := StartSource(srcs[0], w, asWritten);
      if first.outcome.Success? {
        var rest := StartAll(srcs[1..], w, asWritten);
        assert e == Effect([first.state] + rest.state, rest.outcome);
        forall i | 1 <= i < |srcs|
          ensures StartSource(srcs[i], w, asWritten) == StartSource(srcs[1..][i - 1], w, asWritten)
        {
        }
      }
    }
  }

  /** The statistics the collector keeps. */
  datatype Stats = Stats(totalCollected: nat, totalAnomalies: nat, startedAt: Option<real>, sourceMode: Option<string>)

  /** The collector: its sources, running flag, pending buffer, statistics and detector,
      and the settings fixed at construction. */
  datatype CollectorState = CollectorState(
    sources: seq<Source>,
    running: bool,
    pending: seq<UnifiedPacket>,
    stats: Stats,
    detector: DetectorService.Service,
    settings: SourceSettings,
    detectorSettings: DetectorSettings)

  /** `CollectorService()`. */
  function New(settings: SourceSettings, detectorSettings: DetectorSettings): (c: CollectorState)
    ensures Valid(c) && !c.running && c.sources == [] && c.pending == []
    ensures c.stats == Stats(0, 0, None, None) && !c.detector.forest.fitted
  {
    CollectorState([], false, [], Stats(0, 0, None, None),
                   DetectorService.NewService(detectorSettings), settings, detectorSettings)
  }

  predicate Valid(c: CollectorState) {
    |c.pending| <= c.settings.bufferSize
  }

  /** What `start` and `stop` return: an error marker, the started summary, or the
      final statistics. */
  datatype Response =
    | Rejected(message: string)
    | Started(mode: string, sourceCount: nat)
    | Stopped(stats: Stats)

  datatype Reply = Reply(state: CollectorState, response: Result<Response>)

  /** `mode or settings.sources.mode`. */
  function ModeOf(mode: Option<string>, settings: SourceSettings): string {
    if mode.None? || mode.value == "" then settings.mode else mode.value
  }

  /** The sources multi mode creates, "can" then "ethernet". Neither construction
      raises here, so the loop's skip branch never fires. */
  function MultiSources(settings: SourceSettings): (srcs: seq<Source>)
    ensures |srcs| == 2 && srcs[0].Can? && srcs[1].Ethernet?
    ensures forall i :: 0 <= i < 2 ==> !IsRunning(srcs[i])
  {
    [CreateSource("can", settings).value, CreateSource("ethernet", settings).value]
  }

  /** The rest of `start` once the source list is known: start them all, then run. */
  function Launch(c: CollectorState, mode: string, srcs: seq<Source>, w: World, asWritten: bool): Reply {
    var e := StartAll(srcs, w, asWritten);
    var c1 := c.(sources := e.state);
    if e.outcome.Failure? then Reply(c1, Failure(e.outcome.error))
    else Reply(c1.(running := true, stats := c1.stats.(startedAt := Some(w.now))), Success(Started(mode, |srcs|)))
  }

  /** `start(mode)` as written: multi mode APPENDS to the source list, which only
      `stop` clears, so the sources of a failed start are kept and started again. */
  function StartAsWritten(c: CollectorState, mode: Option<string>, w: World): Reply {
    if c.running then Reply(c, Success(Rejected("Collector already running")))
    else
      var m := ModeOf(mode, c.settings);
      var c1 := c.(stats := c.stats.(sourceMode := Some(m)));
      if m == "multi" then Launch(c1, m, c.sources + MultiSources(c.settings), w, true)
      else
        match CreateSource(m, c.settings)
        case Failure(e) => Reply(c1, Failure(e))
        case Success(src) => Launch(c1, m, [src], w, true)
  }

  /** In multi mode, a start that fails because the CAN bus does not open keeps both
      sources; the retry, once the bus opens, reports four sources, two of them
      reading the same bus. */
  lemma MultiRetryDoublesSources(settings: SourceSettings, ds: DetectorSettings, w1: World, w2: World)
    requires w1.busError.Some? && w2.busError.None?
    ensures var c := New(settings, ds);
      var first := StartAsWritten(c, Some("multi"), w1);
      var retry := StartAsWritten(first.state, Some("multi"), w2);
      && first.response.Failure? && !first.state.running && |first.state.sources| == 2
      && retry.response == Success(Started("multi", 4))
      && |retry.state.sources| == 4
      && retry.state.sources[0].Can? && retry.state.sources[2].Can?
  {
    var c := New(settings, ds);
    var srcs := MultiSources(settings);
    var first := StartAsWritten(c, Some("multi"), w1);
    assert first.state.sources == srcs && first.response.Failure? && !first.state.running by {
      MultiStartUnfold(c, w1);
      assert c.sources + srcs == srcs;
      assert StartSource(srcs[0], w1, true) == Effect(srcs[0], Failure(w1.busError.value));
    }
    var all := srcs + srcs;
    var e2 := StartAll(all, w2, true);
    DoubledMultiSourcesStart(settings, w2);
    MultiStartUnfold(first.state, w2);
    assert first.state.sources + MultiSources(first.state.settings) == all;
  }

  /** A file source whose format is unsupported makes a pcap-mode start raise, yet it
      stays in the list, running; the multi-mode start that follows appends the two
      fresh sources and reports three, the file source's start now being a no-op. */
  lemma PcapThenMultiKeepsFailedSource(settings: SourceSettings, ds: DetectorSettings, w: World)
    requires settings.pcapPath == "a.csv" && w.busError.None?
    ensures var c := New(settings, ds);
      var first := StartAsWritten(c, Some("pcap"), w);
      var second := StartAsWritten(first.state, Some("multi"), w);
      && first.response == Failure(ValueError("Unsupported file format: a.csv"))
      && !first.state.running
      && |first.state.sources| == 1 && IsRunning(first.state.sources[0])
      && second.response == Success(Started("multi", 3))
      && second.state.running
  {
    var c := New(settings, ds);
    var pcap := PcapSource.New("a.csv");
    PcapSource.StartAsWrittenLeavesFailedSourceRunning(w.files, w.now);
    var p1 := PcapSource.StartAsWritten(pcap, w.files, w.now);
    var first := StartAsWritten(c, Some("pcap"), w);
    assert first.state.sources == [PcapFile(p1.state)] by {
      assert StartSource(PcapFile(pcap), w, true) == Effect(PcapFile(p1.state), p1.outcome);
      assert [PcapFile(pcap)][1..] == [];
      assert p1.outcome.Failure?;
      assert [PcapFile(p1.state)] + [] == [PcapFile(p1.state)];
      assert StartAll([PcapFile(pcap)], w, true) == Effect([PcapFile(p1.state)], p1.outcome);
    }
    var all := [PcapFile(p1.state)] + MultiSources(settings);
    MultiStartUnfold(first.state, w);
    StartAllSpec(all, w, true);
    forall i | 0 <= i < |all|
      ensures StartSource(all[i], w, true).outcome.Success?
    {
    }
  }

  /** With the bus open, the doubled multi-mode list starts in full. */
  lemma DoubledMultiSourcesStart(settings: SourceSettings, w: World)
    requires w.busError.None?
    ensures var srcs := MultiSources(settings);
      var e := StartAll(srcs + srcs, w, true);
      e.outcome.Success? && e.state[0].Can? && e.state[2].Can?
  {
    var srcs := MultiSources(settings);
    var all := srcs + srcs;
    StartAllSpec(all, w, true);
    assert StartSource(srcs[0], w, true).outcome.Success? && StartSource(srcs[0], w, true).state.Can?;
    assert StartSource(srcs[1], w, true).outcome.Success?;
    forall i | 0 <= i < |all|
      ensures StartSource(all[i], w, true).outcome.Success?
    {
      if i >= 2 {
        assert all[i] == srcs[i - 2];
      }
    }
  }

  /** A stopped collector's multi-mode start, as written, launches the kept sources
      followed by fresh ones. */
  lemma MultiStartUnfold(c: CollectorState, w: World)
    requires !c.running
    ensures StartAsWritten(c, Some("multi"), w)
      == Launch(c.(stats := c.stats.(sourceMode := Some("multi"))), "multi", c.sources + MultiSources(c.settings), w, true)
  {
  }

  /** `start(mode)` with a fresh source list on every start. A running collector is
      rejected; an unknown mode or a failing source start raises and leaves the
      collector stopped. */
  function Start(c: CollectorState, mode: Option<string>, w: World): Reply {
    if c.running then Reply(c, Success(Rejected("Collector already running")))
    else
      var m := ModeOf(mode, c.settings);
      var c1 := c.(stats := c.stats.(sourceMode := Some(m)));
      if m == "multi" then Launch(c1, m, MultiSources(c.settings), w, false)
      else
        match CreateSource(m, c.settings)
        case Failure(e) => Reply(c1, Failure(e))
        case Success(src) => Launch(c1, m, [src], w, false)
  }

  /** Starting a running collector returns the error marker and changes nothing.
      Otherwise the mode is recorded; a start succeeds only with every source
      running, and then reports exactly the sources it owns: two in multi mode, one
      otherwise. An unknown mode raises ValueError; any failure leaves the collector
      stopped. */
  lemma StartSpec(c: CollectorState, mode: Option<string>, w: World)
    ensures var r := Start(c, mode, w);
      var m := ModeOf(mode, c.settings);
      && (c.running ==> r == Reply(c, Success(Rejected("Collector already running"))))
      && (!c.running ==>
            && r.state.stats.sourceMode == Some(m)
            && r.state.pending == c.pending && r.state.detector == c.detector
            && r.state.stats.totalCollected == c.stats.totalCollected
            && (r.response.Failure? ==> !r.state.running)
            && (m !in {"multi", "can", "ethernet", "pcap", "simulator"} ==>
                  r.response == Failure(ValueError("Unknown source mode: " + m)))
            && (r.response.Success? ==>
                  && r.state.running
                  && r.response == Success(Started(m, |r.state.sources|))
                  && |r.state.sources| == (if m == "multi" then 2 else 1)
                  && r.state.stats.startedAt == Some(w.now)
                  && forall i :: 0 <= i < |r.state.sources| ==> IsRunning(r.state.sources[i])))
  {
  }

  /** A single-mode start with the simulator always succeeds. */
  lemma SimulatorModeStarts(c: CollectorState, w: World)
    requires !c.running
    ensures var r := Start(c, Some("simulator"), w);
      r.response == Success(Started("simulator", 1)) && r.state.running
  {
    var src := Simulator(SimulatorSource.New("normal", 200));
    assert StartAll([src], w, false).outcome.Success? by {
      assert [src][1..] == [];
    }
  }

  /** `stop`: a stopped collector returns the error marker; otherwise every source is
      stopped and dropped and the statistics are returned. The counters and the
      pending buffer are kept. */
  function Stop(c: CollectorState): Reply {
    if !c.running then Reply(c, Success(Rejected("Collector not running")))
    else Reply(c.(running := false, sources := []), Success(Stopped(c.stats)))
  }

  lemma StopSpec(c: CollectorState)
    ensures var r := Stop(c);
      && (!c.running ==> r == Reply(c, Success(Rejected("Collector not running"))))
      && (c.running ==>
            && !r.state.running && r.state.sources == []
            && r.response == Success(Stopped(c.stats))
            && r.state.stats == c.stats && r.state.pending == c.pending)
      && !Stop(r.state).state.running
      && Stop(r.state).response == Success(Rejected("Collector not running"))
  {
  }

  // ---- The collect loop ----

  /** The sources after one read each, and the batches the reads returned, in source
      order. */
  datatype Gathered = Gathered(sources: seq<Source>, batches: seq<seq<UnifiedPacket>>)

  function ReadAll(srcs: seq<Source>, maxCount: int): (g: Gathered)
    ensures |g.sources| == |srcs| && |g.batches| == |srcs|
    ensures forall i :: 0 <= i < |srcs| ==> g.batches[i] == ReadSource(srcs[i], maxCount).packets
    ensures forall i :: 0 <= i < |srcs| ==> g.sources[i] == ReadSource(srcs[i], maxCount).state
    decreases |srcs|
  {
    if srcs == [] then Gathered([], [])
    else
      var b := ReadSource(srcs[0], maxCount);
      var rest := ReadAll(srcs[1..], maxCount);
      Gathered([b.state] + rest.sources, [b.packets] + rest.batches)
  }

  /** What one detection batch does to the database and to the detector. */
  datatype DetectionWorld = DetectionWorld(
    hash: Hash,
    log2: Log2,
    scorer: Scorer,
    packetCommit: Option<Error>,
    alertCommit: Option<Error>)

  /** `bytes.fromhex(payload_hex) if payload_hex else b""` does not raise: the payload
      is empty or an even number of hexadecimal digits. */
  predicate Storable(p: UnifiedPacket) {
    p.payloadHex == "" || (|p.payloadHex| % 2 == 0 && IsHexDigits(p.payloadHex))
  }

  predicate AllStorable(ps: seq<UnifiedPacket>) {
    forall i :: 0 <= i < |ps| ==> Storable(ps[i])
  }

  /** The packets without a truthy "attack" tag. */
  function Normal(ps: seq<UnifiedPacket>): seq<UnifiedPacket> {
    Filter((p: UnifiedPacket) => !IsAttack(p), ps)
  }

  /** The training the collector performs before detection: only while the forest is
      unfitted, and only on more than 20 untagged packets. */
  function AutoTrain(d: DetectorService.Service, ps: seq<UnifiedPacket>, dw: DetectionWorld): Result<DetectorService.Service> {
    if d.forest.fitted then Success(d)
    else
      var normal := Normal(ps);
      if |normal| > 20 then DetectorService.Train(d, normal, dw.hash, dw.log2) else Success(d)
  }

  /** `_persist_and_detect`: pops the oldest `min(detect_batch, len)` pending packets
      and, when there are any, stores and examines them. Any exception propagates with
      the batch already popped. */
  function Persist(c: CollectorState, dw: DetectionWorld): Effect<CollectorState> {
    var d := Drain(c.pending, c.settings.detectBatch);
    var c1 := c.(pending := d.rest);
    if d.taken == [] then Effect(c1, Success(Unit)) else Store(c1, d.taken, dw)
  }

  /** The database session of `_persist_and_detect` for a non-empty batch: store the
      packets, train an unfitted forest, detect, store the alerts, count them. Only the
      detector and the anomaly counter can change. */
  function Store(c: CollectorState, batch: seq<UnifiedPacket>, dw: DetectionWorld): (e: Effect<CollectorState>)
    ensures e.state == c.(detector := e.state.detector, stats := c.stats.(totalAnomalies := e.state.stats.totalAnomalies))
  {
    if !AllStorable(batch) then Effect(c, Failure(ValueError("non-hexadecimal number found in fromhex() arg")))
    else if dw.packetCommit.Some? then Effect(c, Failure(dw.packetCommit.value))
    else
      match AutoTrain(c.detector, batch, dw)
      case Failure(e) => Effect(c, Failure(e))
      case Success(detector) =>
        var c2 := c.(detector := detector);
        match DetectorService.Detect(detector, batch, c.detectorSettings, dw.hash, dw.log2, dw.scorer)
        case Failure(e) => Effect(c2, Failure(e))
        case Success(alerts) =>
          if dw.alertCommit.Some? then Effect(c2, Failure(dw.alertCommit.value))
          else Effect(c2.(stats := c2.stats.(totalAnomalies := c2.stats.totalAnomalies + |alerts|)), Success(Unit))
  }

  /** Persisting always consumes the oldest `min(detect_batch, len)` pending packets,
      whatever the outcome, keeps the rest in order, and touches nothing but the
      pending buffer, the detector and the anomaly counter; an empty batch changes
      nothing else. */
  lemma PersistPops(c: CollectorState, dw: DetectionWorld)
    ensures var e := Persist(c, dw);
      var d := Drain(c.pending, c.settings.detectBatch);
      && e.state == c.(pending := d.rest, detector := e.state.detector, stats := e.state.stats)
      && e.state.stats == c.stats.(totalAnomalies := e.state.stats.totalAnomalies)
      && d.taken + e.state.pending == c.pending
      && |d.taken| == Taken(c.settings.detectBatch, |c.pending|)
      && (d.taken == [] ==> e == Effect(c.(pending := d.rest), Success(Unit)))
  {
  }

  /** The forest is trained only when it was unfitted and the batch holds more than 20
      untagged packets, and then on exactly those packets; a fitted forest is never
      retrained. */
  lemma StoreTrainRule(c: CollectorState, batch: seq<UnifiedPacket>, dw: DetectionWorld)
    ensures var e := Store(c, batch, dw);
      && (c.detector.forest.fitted ==> e.state.detector == c.detector)
      && (e.state.detector != c.detector ==>
            && !c.detector.forest.fitted && |Normal(batch)| > 20
            && DetectorService.Train(c.detector, Normal(batch), dw.hash, dw.log2) == Success(e.state.detector))
  {
  }

  /** The anomaly counter grows by the number of alerts detected on the batch, by the
      possibly retrained detector, exactly when every step succeeds; a batch holding a
      payload `bytes.fromhex` rejects fails before anything is stored. */
  lemma StoreCounts(c: CollectorState, batch: seq<UnifiedPacket>, dw: DetectionWorld)
    ensures var e := Store(c, batch, dw);
      && (e.outcome.Success? ==>
            var detected := DetectorService.Detect(e.state.detector, batch, c.detectorSettings, dw.hash, dw.log2, dw.scorer);
            && detected.Success? && dw.packetCommit.None? && dw.alertCommit.None?
            && e.state.stats.totalAnomalies == c.stats.totalAnomalies + |detected.value|)
      && (e.outcome.Failure? ==> e.state.stats.totalAnomalies == c.stats.totalAnomalies)
      && (!AllStorable(batch) ==> e == Effect(c, Failure(ValueError("non-hexadecimal number found in fromhex() arg"))))
  {
  }

  /** One pass of `_collect_loop` while the collector runs: read up to `detect_batch`
      packets from every source into the pending buffer, then persist and detect when
      automatic detection is on and enough packets are pending. An exception of the
      batch step is logged and the loop goes on, so the step's partial effects stay. */
  function Tick(c: CollectorState, dw: DetectionWorld): CollectorState {
    if !c.running then c
    else
      var g := ReadAll(c.sources, c.settings.detectBatch);
      var c1 := c.(
        sources := g.sources,
        pending := ExtendEach(c.pending, g.batches, c.settings.bufferSize),
        stats := c.stats.(totalCollected := c.stats.totalCollected + |Flatten(g.batches)|));
      if c.settings.autoDetect && |c1.pending| >= c.settings.detectBatch then Persist(c1, dw).state
      else c1
  }

  /** A tick keeps the pending buffer within its size, dropping the oldest packets,
      while the collected counter grows by everything read, and each source gives up
      exactly the packets its read returned. Without a detection the pending buffer is
      the newest `buffer_size` packets of the old buffer followed by the new batches,
      and detector and anomaly counter are untouched; with one, the oldest
      `min(detect_batch, len)` packets of that are consumed. A stopped collector is left alone. */
  lemma TickSpec(c: CollectorState, dw: DetectionWorld)
    requires Valid(c)
    ensures var t := Tick(c, dw);
      var g := ReadAll(c.sources, c.settings.detectBatch);
      var read := Flatten(g.batches);
      var extended := KeepNewest(c.pending + read, c.settings.bufferSize);
      var detects := c.settings.autoDetect && |extended| >= c.settings.detectBatch;
      && Valid(t)
      && t.running == c.running
      && (!c.running ==> t == c)
      && (c.running ==>
            && t.sources == g.sources
            && (forall i :: 0 <= i < |c.sources| ==> g.batches[i] + Buffer(t.sources[i]) == Buffer(c.sources[i]))
            && t.stats.totalCollected == c.stats.totalCollected + |read|)
      && (c.running && !detects ==>
            && t.pending == extended
            && t.detector == c.detector
            && t.stats.totalAnomalies == c.stats.totalAnomalies)
      && (c.running && detects ==> t.pending == extended[Taken(c.settings.detectBatch, |extended|)..])
  {
    if c.running {
      var g := ReadAll(c.sources, c.settings.detectBatch);
      ExtendEachSpec(c.pending, g.batches, c.settings.bufferSize);
      var c1 := c.(
        sources := g.sources,
        pending := ExtendEach(c.pending, g.batches, c.settings.bufferSize),
        stats := c.stats.(totalCollected := c.stats.totalCollected + |Flatten(g.batches)|));
      PersistPops(c1, dw);
    }
  }
}
