# GatewayGuard packet-to-alert pipeline in Dafny

GatewayGuard watches the in-vehicle networks of a car gateway. Data sources produce
`UnifiedPacket`s:

- a simulator that replays generated CAN, SOME/IP Ethernet and V2X traffic;
- a live CAN bus;
- a live Ethernet capture;
- a capture file (BLF, PCAP/PCAPNG or ASC).

The collector starts these sources. In a loop it reads each source's bounded
buffer into a bounded pending queue. Once enough packets are pending, it stores a
batch and runs the anomaly detector on it.

The detector has two parts:

- A rule-based part that raises three kinds of alert:
  - frequency anomalies, for CAN ids that send far more often than the average id;
  - CAN ids outside the whitelist;
  - payloads that repeat one byte.
- An Isolation Forest part that raises alerts on outliers in a five-feature
  extraction. The forest is trained once, on the first batch that has enough
  non-attack packets.

The detector merges the alerts of both parts and sorts them by confidence. The traffic
parser turns raw records into packets. The configuration loader merges defaults, a
YAML file and environment variables.

The model has one module per component:

| module | models |
|---|---|
| `Packets`, `Anomalies` | the packet, traffic statistics and alert records |
| `Text` | hex formatting and parsing: `f"{n:0wX}"`, `int(s, 16)`, `bytes.hex().upper()`, 2-character chunks |
| `Seqs` | counting, de-duplication in first-occurrence order (`Counter` key order) and filtering |
| `Fifo` | `deque(maxlen=…)`: appending drops the oldest items; `read(max_count)` pops from the left |
| `RuleDetector` | the three rule checks |
| `IsolationForest` | feature extraction, byte entropy, `fit` and `predict` |
| `DetectorService` | `train`, and `detect` with its stable sort by confidence |
| `TrafficParser` | the CAN, Ethernet and V2X parsers and `parse_batch` |
| `CanSimulator`, `EthSimulator` | the traffic generators |
| `DataSources` | the shared source contract and `read_stream` |
| `SimulatorSource`, `CanSource`, `EthernetSource`, `PcapSource` | the four sources |
| `Collector` | source creation, `start` and `stop`, one pass of the collect loop, and `_persist_and_detect` |
| `Config` | `load_config` |

Anything the model cannot see is an input:

- randomness becomes indexed draw functions;
- the clock becomes one `now` per operation;
- the bus, the capture and the files become the outcomes they deliver;
- the database becomes the commit outcomes;
- `hash`, `log2` and the forest's scorer are passed in as functions.

Python floats are modelled as exact reals.

Notes on the code:

- `_check_frequency` measures its time span over the whole batch, CAN or not,
  while it counts CAN ids only.
- The CAN and Ethernet sources keep their buffer on `stop`. Only the simulator and
  file sources clear it.
- `RuleDetector.NewestFirstBatchHasNoFrequencyAlerts` covers the manual detection
  endpoint, which passes packets newest first. On such a batch, the whole-batch
  span is never positive, so no frequency alert is ever raised there.
- `round(raw * 0.25, 1)` rounds half to even. So the largest engine speed is
  16383.8, not 16383.75, and `TrafficParser.RpmRange` states that bound.

## Model

| member | source | states |
|---|---|---|
| Packets.PacketDefaults | backend/app/models/packet.py:31-40 | A packet built from its five required fields has an empty payload, no decoded fields, no domain, no metadata, and is not an attack packet |
| Packets.TrafficStatsDefaults | backend/app/models/packet.py:58-65 | Fresh traffic statistics count no packets of any protocol, have no time range and a zero rate |
| Anomalies.AnomalyEventDefaults | backend/app/models/anomaly.py:33-43 | An alert built from a time and a type has medium severity, zero confidence, empty strings and no raw packets |
| Text.ParsePrefixedFormatHex | backend/app/sources/can_source.py:101 | An id written as `0x` plus zero-padded upper-case hex parses back with `int(s, 16)` to the number it was written from, for every width |
| Text.FormatHexValue | backend/app/sources/can_source.py:101 | The zero-padded hex digits of a number denote that number |
| Text.ChunksOfHexEncode | backend/app/sources/can_source.py:102 | Splitting a byte string's hex encoding into 2-character chunks gives one chunk per byte, namely that byte's two digits |
| Text.ParseByteHex | backend/app/sources/can_source.py:102 | The two hex digits of a byte parse back to the byte |
| Text.HexEncodeDigits | backend/app/sources/can_source.py:102 | `bytes.hex().upper()` yields only hex digits and is unchanged by upper-casing |
| Text.RepeatedByteChunks | backend/app/services/anomaly_detector.py:104-107 | A payload of at least one byte repeats a single byte exactly when its set of 2-character chunks has one element, and its first chunk is its first two characters |
| Text.ShortHexByte | backend/app/simulators/can_simulator.py:36-37 | Any string of at most two characters that parses as hex denotes a value below 256 |
| Fifo.KeepNewest | backend/app/services/collector.py:71 | A bounded deque holds `min(maxlen, n)` of `n` appended items |
| Fifo.KeepNewestIsSuffix | backend/app/services/collector.py:71 | Those items are the newest ones, in order |
| Fifo.KeepNewestAppend | backend/app/services/collector.py:136 | Trimming before a further `extend` changes nothing: it equals trimming once after appending everything |
| Fifo.PushAll | backend/app/sources/can_source.py:92-93 | Appending items one at a time to a bounded deque keeps the same items as one `extend` |
| Fifo.ExtendEachSpec | backend/app/services/collector.py:133-137 | Extending the pending queue with each source's batch in turn keeps the newest items of all batches concatenated |
| Fifo.Taken | backend/app/sources/simulator_source.py:40-44 | `read(max_count)` pops `min(max_count, len)` items, and none for a negative count |
| Fifo.Drain | backend/app/sources/simulator_source.py:40-44 | The popped items followed by what remains are exactly the buffer before the read |
| Fifo.DrainTwice | backend/app/sources/base.py:32-36 | Two successive reads return what one read of the combined size returns, and leave the same rest, so reads neither skip nor repeat packets |
| Fifo.DrainEmptyIff | backend/app/sources/base.py:32-36 | A read returns nothing exactly when the count is not positive or the buffer is empty |
| RuleDetector.Check | backend/app/services/anomaly_detector.py:31-36 | An empty batch raises no alert; with a non-zero threshold the check never raises; every alert is a CAN frequency, unknown-id or payload alert |
| RuleDetector.CheckFrequency | backend/app/services/anomaly_detector.py:38-50 | No frequency alert for fewer than two packets, a non-positive whole-batch span, or a batch without CAN packets; a non-zero threshold never raises |
| RuleDetector.FrequencyCheckSpec | backend/app/services/anomaly_detector.py:51-75 | An id is flagged exactly when it is a CAN id whose count times the number of distinct ids exceeds the CAN total times the threshold. There is one alert per flagged id, in first-occurrence order, at the last packet's time, with a ratio above 1 |
| RuleDetector.RateComparison | backend/app/services/anomaly_detector.py:51-56 | The time span cancels: an id's rate exceeds the average rate times the threshold exactly when its count times the number of ids exceeds the total times the threshold, and the reported ratio is the span-free quotient |
| RuleDetector.FrequencyAlertsMatch | backend/app/services/anomaly_detector.py:53-73 | The alert loop emits exactly one event per flagged id, in order, each carrying that id's ratio |
| RuleDetector.ZeroThresholdRaises | backend/app/services/anomaly_detector.py:55-56 | With a zero threshold, every batch that reaches the loop raises `ZeroDivisionError` |
| RuleDetector.RatioAboveOne | backend/app/services/anomaly_detector.py:55-67 | Every flagged id's ratio exceeds 1, so its confidence `min(ratio, 1.0)` is 1.0 |
| RuleDetector.FlaggedIdsMembers | backend/app/services/anomaly_detector.py:53-55 | The flagged ids are exactly the counted ids that pass the rate test |
| RuleDetector.NewestFirstBatchHasNoFrequencyAlerts | backend/app/routers/anomaly.py:99-131 | A batch ordered newest first never raises a frequency alert, whatever the threshold |
| RuleDetector.UnknownIdEvent | backend/app/services/anomaly_detector.py:86-95 | An unknown-id alert is of high severity with confidence 0.8 |
| RuleDetector.UnknownIdScanSpec | backend/app/services/anomaly_detector.py:80-96 | The scan emits, for each CAN id outside the whitelist and not seen before, one alert at its first occurrence, in order |
| RuleDetector.UnknownIdCheckSpec | backend/app/services/anomaly_detector.py:77-96 | There are as many unknown-id alerts as distinct non-whitelisted CAN ids, in first-occurrence order, each built from the id's first packet |
| RuleDetector.WhitelistedBatchHasNoUnknownIdAlerts | backend/app/services/anomaly_detector.py:81-85 | A batch whose CAN ids are all whitelisted raises no unknown-id alert |
| RuleDetector.KnownIdsAreWhitelisted | backend/app/services/traffic_parser.py:16-29 | The parser's table of known CAN ids and the detector's whitelist (anomaly_detector.py lines 22-25) hold the same ids |
| RuleDetector.CheckPayload | backend/app/services/anomaly_detector.py:98-127 | At most one payload alert per packet, and every alert is a `payload_anomaly` from `rule_payload` |
| RuleDetector.CheckPayloadSpec | backend/app/services/anomaly_detector.py:98-127 | The payload alerts are the alerts of the offending packets, one per packet, in batch order |
| RuleDetector.PayloadAlertSpec | backend/app/services/anomaly_detector.py:98-127 | A packet raises a payload alert exactly when it is CAN, has at least 8 hex characters and repeats one byte. The alert is critical with confidence 0.9 when the byte is written `00`, `ff` or `FF`, else low with 0.5 |
| IsolationForest.ProtocolCode | backend/app/services/anomaly_detector.py:158 | Protocol codes stay within 0..3, and 3 is given exactly to protocols other than CAN, ETH and V2X |
| IsolationForest.DomainCode | backend/app/services/anomaly_detector.py:159-162 | Domain codes stay within 0..5, and 5 is given exactly to unknown domains |
| IsolationForest.MsgIdNumber | backend/app/services/anomaly_detector.py:149-155 | The id feature is never negative, and a dotted id is hashed modulo 0xFFF |
| IsolationForest.MsgIdNumberOfCanId | backend/app/services/anomaly_detector.py:149-151 | A CAN id of the form `0xNNN` becomes the number it names |
| IsolationForest.MsgIdNumberHashed | backend/app/services/anomaly_detector.py:152-155 | A dotted SOME/IP id becomes a number below 0xFFF |
| IsolationForest.ByteValues | backend/app/services/anomaly_detector.py:173 | Converting the chunks succeeds exactly when every chunk parses as hex, and then yields their values in order |
| IsolationForest.EntropyTermSign | backend/app/services/anomaly_detector.py:177-180 | Each `-p*log2(p)` term is non-negative, and zero exactly when the value makes up the whole payload |
| IsolationForest.ByteEntropyZeroIff | backend/app/services/anomaly_detector.py:169-181 | Byte entropy is never negative; it is zero for payloads under one byte, and otherwise zero exactly when all bytes are equal |
| IsolationForest.RepeatedBytePayloadHasZeroEntropy | backend/app/services/anomaly_detector.py:169-181 | A hex payload repeating one byte has entropy 0.0 |
| IsolationForest.FeaturesOf | backend/app/services/anomaly_detector.py:148-166 | Building a packet's feature row raises exactly when its entropy computation raises |
| IsolationForest.ExtractFeatures | backend/app/services/anomaly_detector.py:142-167 | On success there is one feature row per packet |
| IsolationForest.ExtractFeaturesSucceedsIff | backend/app/services/anomaly_detector.py:142-167 | Extraction succeeds exactly when every packet's payload can be decoded for the entropy |
| IsolationForest.ExtractFeaturesRows | backend/app/services/anomaly_detector.py:148-166 | Row `i` holds packet `i`'s id number, byte length, entropy, protocol code and domain code |
| IsolationForest.NewForest | backend/app/services/anomaly_detector.py:133-140 | A new forest is unfitted with 100 trees, random state 42 and the configured contamination |
| IsolationForest.Fit | backend/app/services/anomaly_detector.py:183-188 | Fitting fails when extraction fails, with the same error. With rows to fit, it also fails exactly when the contamination is neither "auto" nor in (0, 0.5]. An empty training set leaves the forest as it was; otherwise the forest is fitted on the extracted rows |
| IsolationForest.FitContaminationCheck | backend/app/services/anomaly_detector.py:183-188 | Once a non-empty batch's features are extracted, fitting succeeds exactly for a valid contamination; otherwise it raises ValueError |
| IsolationForest.MlSeverityMonotone | backend/app/services/anomaly_detector.py:203-210 | A lower anomaly score never gives a lower severity |
| IsolationForest.OutlierPositions | backend/app/services/anomaly_detector.py:199-201 | The outlier positions ascend and are exactly the rows the scorer marks as outliers |
| IsolationForest.MlAlertsAtOutliers | backend/app/services/anomaly_detector.py:199-225 | One ML alert per outlier row, in packet order, each built from that packet and its score |
| IsolationForest.Predict | backend/app/services/anomaly_detector.py:190-197 | An unfitted forest or an empty batch yields no alerts; otherwise prediction raises exactly when extraction does |
| IsolationForest.PredictSpec | backend/app/services/anomaly_detector.py:190-225 | Alert `j` belongs to the `j`-th outlier packet. It has type `ml_anomaly` and the packet's time, protocol, source and id, with the severity of its score. Its confidence lies in (0, 1] when outlier scores are negative |
| DetectorService.NewService | backend/app/services/anomaly_detector.py:231-233 | A new service's forest is unfitted, has no training rows, and carries the configured contamination as the library reads it |
| DetectorService.ContaminationAccepted | backend/app/services/anomaly_detector.py:135-139 | The configured contamination passes the model library's check exactly when it is "auto" or a number in (0, 0.5]; the default 0.05 passes |
| DetectorService.TrainContaminationCheck | backend/app/services/anomaly_detector.py:135-139 | Training a new service on a non-empty, extractable batch succeeds exactly when the configured contamination passes that check |
| DetectorService.Train | backend/app/services/anomaly_detector.py:235-237 | Training succeeds exactly when fitting does, and installs the fitted forest. A non-empty training set leaves it fitted, and a fitted forest stays fitted |
| DetectorService.Insert | backend/app/services/anomaly_detector.py:250 | Inserting one alert adds exactly that alert to the multiset |
| DetectorService.SortByConfidence | backend/app/services/anomaly_detector.py:250 | The sort is a permutation of its input |
| DetectorService.InsertSorted | backend/app/services/anomaly_detector.py:250 | Inserting into a list sorted by descending confidence keeps it sorted |
| DetectorService.InsertStable | backend/app/services/anomaly_detector.py:250 | Insertion keeps alerts of equal confidence in their original order |
| DetectorService.SortByConfidenceSpec | backend/app/services/anomaly_detector.py:249-250 | The result is sorted by descending confidence, is a permutation of the input, and keeps each confidence class in input order, as Python's stable `sort` does |
| DetectorService.DetectSpec | backend/app/services/anomaly_detector.py:239-251 | `detect` returns exactly the enabled rule alerts plus, when the forest is fitted and ML is enabled, the ML alerts. They are sorted by descending confidence, with equal confidences keeping rules-then-ML order |
| DetectorService.DetectNothing | backend/app/services/anomaly_detector.py:241-248 | With both detectors disabled, or on an empty batch, `detect` returns no alerts |
| DetectorService.UntrainedReportsRulesOnly | backend/app/services/anomaly_detector.py:246-247 | Before training, every alert comes from the rule detector |
| TrafficParser.LookupEcu | backend/app/services/traffic_parser.py:35-37 | Known ids get their table entry, and any other id gets the unknown ECU |
| TrafficParser.RpmTenths | backend/app/services/traffic_parser.py:44 | The rounded engine speed in tenths is within half a tenth of `raw * 0.25`, and exact for even raw values |
| TrafficParser.RpmRange | backend/app/services/traffic_parser.py:41-44 | For a 16-bit raw value, the speed lies in [0, 16383.8] and is within 0.05 of `raw * 0.25` |
| TrafficParser.TwoDigitsByte | backend/app/services/traffic_parser.py:42-43 | A two-digit hex byte is below 256, so the low byte never overlaps the shifted high byte |
| TrafficParser.CanParse | backend/app/services/traffic_parser.py:31-56 | A parsed CAN packet keeps the id, the payload and the timestamp (`now` when absent), and takes source, domain and signal from the ECU table. Its DLC is half the payload length; `rpm` is present exactly for the engine id with two or more bytes, and holds the speed decoded from the first two bytes. Parsing fails exactly when those first bytes are not hex |
| TrafficParser.DecodeRpm | backend/app/services/traffic_parser.py:41-44 | Decoding succeeds exactly when both two-character slices are hex. The speed is that of the 16-bit value with the first slice as high byte, and lies in [0, 16383.8]. A failure is a ValueError |
| TrafficParser.EthParse | backend/app/services/traffic_parser.py:62-85 | An Ethernet packet is an infotainment ETH packet with id `service.method`, the given endpoints and payload, and length half the payload's hex length |
| TrafficParser.ParseAccepted | backend/app/services/traffic_parser.py:98-127 | A parsed record keeps its declared protocol and its timestamp, or `now` when absent |
| TrafficParser.ParseBatch | backend/app/services/traffic_parser.py:95-131 | The batch fails exactly when some accepted record fails. Otherwise there is one packet per accepted record, and unknown protocols are skipped |
| TrafficParser.ParseBatchInOrder | backend/app/services/traffic_parser.py:95-131 | Output packet `k` is the parse of the `k`-th accepted record |
| TrafficParser.V2xDefaults | backend/app/services/traffic_parser.py:117-127 | A bare V2X record becomes a BSM broadcast packet of the v2x domain with no payload at time `now` |
| CanSimulator.DecodeEngineRpm | backend/app/simulators/can_simulator.py:35-39 | A decoded engine payload holds exactly `rpm` and the raw payload |
| CanSimulator.DecodeEngineRpmAgrees | backend/app/simulators/can_simulator.py:35-39 | The simulator's decoder and the parser's decoder (traffic_parser.py lines 41-44) succeed on the same payloads and compute the same speed |
| CanSimulator.DecodeEngineRpmOfBytes | backend/app/simulators/can_simulator.py:35-39 | On a payload encoded from bytes, the speed is computed from the first two bytes |
| CanSimulator.DecodeRpmOfBytes | backend/app/services/traffic_parser.py:41-44 | The parser's decoder, applied to the hex encoding of a payload, recovers the speed of its first two bytes |
| CanSimulator.RowFacts | backend/app/simulators/can_simulator.py:15-28 | Normal messages have a DLC of 4 or 8, and only the first row is the engine id |
| CanSimulator.GenerateNormalCan | backend/app/simulators/can_simulator.py:42-68 | One packet per iteration of `range(count)` |
| CanSimulator.NormalCanShape | backend/app/simulators/can_simulator.py:42-68 | Packet `i` is a broadcast CAN packet at `base + 0.01*i`, with its row's id, source and domain, a hex payload of twice its DLC, and no attack tag |
| CanSimulator.NormalCanInTimeOrder | backend/app/simulators/can_simulator.py:58 | Normal CAN traffic is in time order |
| CanSimulator.NormalIdsAreWhitelisted | backend/app/simulators/can_simulator.py:15-28 | The normal message table uses exactly the detector's whitelisted ids |
| CanSimulator.NormalTrafficHasNoUnknownIds | backend/app/simulators/can_simulator.py:42-68 | Normal CAN traffic raises no unknown-id alert |
| CanSimulator.NormalRpmMatchesParser | backend/app/simulators/can_simulator.py:54-55 | An engine packet's simulated speed equals the speed the parser decodes from its payload |
| CanSimulator.GenerateDos | backend/app/simulators/can_simulator.py:71-90 | One packet per iteration |
| CanSimulator.DosShape | backend/app/simulators/can_simulator.py:71-90 | Every DoS packet is a CAN packet with id 0x000 from ATTACKER with 8 bytes, tagged as an attack, at `base + 0.0002*i` |
| CanSimulator.DosRaisesOneUnknownIdAlert | backend/app/simulators/can_simulator.py:71-90 | A DoS burst raises exactly one unknown-id alert, for its first packet |
| CanSimulator.DosFrequencyAlertIff | backend/app/simulators/can_simulator.py:71-90 | A DoS burst of two or more packets raises a frequency alert exactly when the threshold is below 1 |
| CanSimulator.GenerateFuzzy | backend/app/simulators/can_simulator.py:93-113 | One packet per iteration |
| CanSimulator.FuzzyShape | backend/app/simulators/can_simulator.py:93-113 | Each fuzzy packet's id parses to its drawn 11-bit id, which is also its id feature. It has 1 to 8 bytes with a matching DLC, is tagged as an attack, and sits at `base + 0.005*i` |
| CanSimulator.GenerateSpoofing | backend/app/simulators/can_simulator.py:116-137 | One packet per iteration |
| CanSimulator.SpoofingTripsPayloadRule | backend/app/simulators/can_simulator.py:116-137 | Spoofed packets impersonate a whitelisted id and its source, yet each raises a critical payload alert with confidence 0.9 |
| EthSimulator.GenerateNormalEth | backend/app/simulators/eth_simulator.py:24-52 | One packet per iteration |
| EthSimulator.NormalEthShape | backend/app/simulators/eth_simulator.py:24-52 | Packet `i` is an ETH packet at `base + 0.02*i` with its service's id and endpoints, 8 to 128 bytes of one repeated byte, a matching length field, and no attack tag |
| EthSimulator.NormalEthRaisesNoRuleAlerts | backend/app/simulators/eth_simulator.py:24-52 | Normal Ethernet traffic raises no rule-based alert at any threshold |
| DataSources.StepSpec | backend/app/sources/base.py:38-45 | One step of `read_stream` finishes exactly when the source stopped, and sleeps exactly when it runs with nothing buffered. Otherwise it yields 1 to 100 packets from the front of the buffer |
| DataSources.StreamSpec | backend/app/sources/base.py:38-45 | A stopped source streams nothing. A running source streams its buffer in order, in batches of 1 to 100 packets |
| SimulatorSource.ScenarioSize | backend/app/sources/simulator_source.py:46-81 | A scenario of count `n` has `n + n//2 + n//3` packets (normal), `n//2 + n` (each attack), `n + 4*(n//3) + n//4` (mixed), and none otherwise |
| SimulatorSource.AttackFollowsBackground | backend/app/sources/simulator_source.py:64-75 | In an attack scenario the normal CAN background comes first and the attack after it |
| SimulatorSource.SimulatorGeneratorsSized | backend/app/sources/simulator_source.py:46-81 | Every generator the scenarios use emits one packet per iteration |
| SimulatorSource.New | backend/app/sources/simulator_source.py:20-24 | A new simulator source is stopped and empty |
| SimulatorSource.StartSpec | backend/app/sources/simulator_source.py:26-34 | Starting a stopped source runs it over the newest 10000 packets of its scenario, the whole scenario when it fits. Starting again generates nothing |
| SimulatorSource.StopSpec | backend/app/sources/simulator_source.py:36-38 | Stopping leaves the source stopped and empty |
| SimulatorSource.ReadSpec | backend/app/sources/simulator_source.py:40-44 | A read returns the oldest `min(max_count, len)` packets and keeps the rest, so consecutive reads continue where they stopped |
| CanSource.FrameParses | backend/app/sources/can_source.py:99-107 | Every received frame parses, since its payload is hex |
| CanSource.MsgToPacketSpec | backend/app/sources/can_source.py:99-107 | A frame's packet reads back to the frame: the id parses to the arbitration id and the payload chunks to the data bytes. A zero timestamp becomes `now`; the source comes from the ECU table |
| CanSource.New | backend/app/sources/can_source.py:26-36 | A new CAN source is stopped, with neither bus nor reader, and empty |
| CanSource.StartSpec | backend/app/sources/can_source.py:38-56 | Starting succeeds exactly when the source already ran or the bus opened. A failed start re-raises the bus error and changes nothing; a successful one runs with a bus and a reader. Starting twice is starting once |
| CanSource.StopSpec | backend/app/sources/can_source.py:58-70 | Stopping leaves the source stopped without bus or reader, and keeps the buffer |
| CanSource.ReadLoopStepSpec | backend/app/sources/can_source.py:78-97 | A running reader appends the frame's packet as the newest one within capacity. A timeout, an error or a stopped source changes nothing |
| CanSource.ReadSpec | backend/app/sources/can_source.py:72-76 | Reads drain the buffer front to back |
| EthernetSource.FrameEncodingSpec | backend/app/sources/ethernet_source.py:82-83 | The id parses back to the frame length. The payload is the hex of the first 128 bytes, a prefix of the full encoding, whose chunks parse to those bytes |
| EthernetSource.HexEncodePrefix | backend/app/sources/ethernet_source.py:83 | Truncating the encoding at `2n` characters encodes the first `n` bytes |
| EthernetSource.FramePacketSpec | backend/app/sources/ethernet_source.py:74-90 | A frame's packet is an infotainment ETH packet whose id and length field give the frame length, with at most 256 hex digits and the capture interface in its metadata |
| EthernetSource.OnCaptureSpec | backend/app/sources/ethernet_source.py:56-93 | A captured frame becomes the newest buffered packet within capacity. A malformed frame or a capture error changes nothing |
| EthernetSource.New | backend/app/sources/ethernet_source.py:21-28 | A new Ethernet source is stopped and empty |
| EthernetSource.StartStopSpec | backend/app/sources/ethernet_source.py:30-48 | Starting never fails and runs the source; stopping stops it. Both keep the buffer and are idempotent |
| EthernetSource.ReadSpec | backend/app/sources/ethernet_source.py:50-54 | Reads drain the buffer front to back |
| PcapSource.CanPackets | backend/app/sources/pcap_source.py:60-75 | A BLF or ASC file gives one packet per frame, converted as the live CAN source converts it |
| PcapSource.PcapPackets | backend/app/sources/pcap_source.py:77-98 | A PCAP file gives one packet per frame, in order |
| PcapSource.New | backend/app/sources/pcap_source.py:21-25 | A new file source is stopped and empty |
| PcapSource.StartAsWrittenLeavesFailedSourceRunning | backend/app/sources/pcap_source.py:27-35 | With the code as written, starting on `a.csv` raises "Unsupported file format" yet leaves the source running. A retry then succeeds with an empty buffer |
| PcapSource.StartSpec | backend/app/sources/pcap_source.py:27-35 | A failed start leaves the source as it was, stopped. A missing path and an unsupported format fail; a successful start runs. Starting a started source changes nothing |
| PcapSource.StartAgreesOnSuccess | backend/app/sources/pcap_source.py:27-35 | The corrected start returns what the code returns, and agrees with it entirely whenever it succeeds |
| PcapSource.LoadFileSpec | backend/app/sources/pcap_source.py:48-98 | An unsupported format raises ValueError and loads nothing. A PCAP file appends one ETH packet per frame, tagged with the file name, and fails exactly when the reader failed midway. BLF and ASC files append the converted CAN frames, and fail exactly when their reader failed. For every format, a missing reader raises RuntimeError and loads nothing. The buffer stays within 50000 |
| PcapSource.FormatIgnoresCase | backend/app/sources/pcap_source.py:50-58 | The extension test ignores case: upper- or lower-casing a path never changes its format |
| PcapSource.FormatExamples | backend/app/sources/pcap_source.py:50-58 | Examples of the dispatch: `LOG.BLF` is BLF, `a.pcapng` is PCAP, `a.Asc` is ASC, and `a.csv` is unsupported |
| PcapSource.StopReadSpec | backend/app/sources/pcap_source.py:37-46 | Stopping clears the buffer, and reads drain it front to back |
| Collector.CreateSource | backend/app/services/collector.py:22-46 | The four known modes create the matching stopped, empty source with the configured settings. Any other mode fails with "Unknown source mode" |
| Collector.StartSource | backend/app/services/collector.py:99-100 | A source whose start succeeded runs. One whose start failed does not run, except a file source started as written |
| Collector.ReadSource | backend/app/services/collector.py:133-134 | A read pops from the source's buffer without changing whether it runs |
| Collector.StartAll | backend/app/services/collector.py:99-100 | When all starts succeed, every source runs |
| Collector.StartAllSpec | backend/app/services/collector.py:99-100 | Starting the sources in order succeeds exactly when each start succeeds, and then leaves each source as its own start does |
| Collector.New | backend/app/services/collector.py:55-71 | A new collector is stopped, with no sources, nothing pending, zero counters and an unfitted detector |
| Collector.MultiSources | backend/app/services/collector.py:89-95 | Multi mode creates a stopped CAN source and a stopped Ethernet source |
| Collector.PcapThenMultiKeepsFailedSource | backend/app/services/collector.py:81-106 | With the code as written, a pcap-mode start on an unsupported file raises but keeps the source running in the list; a following multi-mode start reports 3 sources |
| Collector.MultiRetryDoublesSources | backend/app/services/collector.py:81-106 | With the code as written, a multi-mode start whose CAN bus fails, retried once the bus is up, reports 4 sources, two of them on the same bus |
| Collector.StartSpec | backend/app/services/collector.py:81-106 | A running collector rejects the request. Otherwise the mode is recorded, an unknown mode fails, and a failed start leaves the collector stopped. A successful start runs exactly 2 (multi) or 1 sources, all running, and records the start time |
| Collector.SimulatorModeStarts | backend/app/services/collector.py:96-106 | Simulator mode always starts, with one source |
| Collector.StopSpec | backend/app/services/collector.py:108-127 | Stopping a stopped collector is rejected. Otherwise it stops and drops its sources, keeps counters and pending packets, and reports the stats. A second stop is rejected |
| Collector.ReadAll | backend/app/services/collector.py:133-137 | Each source is read once, in order, with the batch size |
| Collector.Store | backend/app/services/collector.py:149-199 | Storing a batch changes only the detector and the anomaly counter |
| Collector.PersistPops | backend/app/services/collector.py:149-158 | `_persist_and_detect` pops the oldest `min(detect_batch, len)` pending packets and touches nothing else but the detector and the anomaly counter. With nothing to pop it does nothing |
| Collector.StoreTrainRule | backend/app/services/collector.py:178-181 | The detector changes only by training an unfitted forest on more than 20 non-attack packets. A fitted detector is never retrained |
| Collector.StoreCounts | backend/app/services/collector.py:160-199 | A successful store adds exactly the number of detected alerts to the counter, and a failed one adds nothing. A batch with a non-hex payload fails before anything is stored |
| Collector.TickSpec | backend/app/services/collector.py:129-147 | A stopped collector does nothing. A running one reads every source once and counts what it read. The pending queue becomes the newest `buffer_size` packets of pending plus all batches. Once that reaches the batch size, the oldest batch is popped for storing |
| Config.ApplySection | backend/app/config.py:53-57 | Applying a section never adds or removes fields |
| Config.ApplySectionIdempotent | backend/app/config.py:53-57 | Applying the same section twice is applying it once |
| Config.ApplySectionOverrides | backend/app/config.py:53-57 | Known fields take the section's value, other fields keep theirs, and a section with only unknown keys changes nothing |
| Config.EnvOverride | backend/app/config.py:75-80 | An environment override never adds or removes fields |
| Config.EnvOverrideSpec | backend/app/config.py:75-80 | A set, non-empty variable replaces its field; an unset or empty one changes nothing; other fields never change |
| Config.SectionOf | backend/app/config.py:53-72 | A section reads as empty when absent, as itself when a mapping, raises AttributeError when it is null or another non-mapping, and raises TypeError when it is a mapping with a key that is not a string |
| Config.DocumentEntries | backend/app/config.py:45-50 | An absent or falsy document reads as `{}`, a mapping as its entries; a truthy non-mapping raises AttributeError |
| Config.LoadConfig | backend/app/config.py:60-82 | Loading succeeds exactly when the document is absent, falsy, or a mapping whose present sections are mappings with string keys. Otherwise it raises: AttributeError for a truthy non-mapping document, TypeError for an `app` section with a non-string key, and only one of those two kinds in any case. A loaded configuration has exactly the default fields |
| Config.LoadConfigUnfold | backend/app/config.py:60-82 | A readable document loads as its `app`, `llm` and `detector` sections applied to the defaults, followed by the three environment overrides of the LLM fields |
| Config.NullSectionRaises | backend/app/config.py:53-72 | A null `detector` section, or a truthy non-mapping document, makes loading raise, and a `detector` section with a non-string key raises TypeError |
| Config.LoadConfigDefaults | backend/app/config.py:45-50 | Without a file, or with a falsy one, and with no non-empty variables, the configuration is the defaults |
| Config.LoadConfigPrecedence | backend/app/config.py:60-82 | Non-empty environment variables override the file. The file overrides the defaults for known detector fields and the LLM model |
| Config.DetectorSettingsOf | backend/app/config.py:26-31 | The detector settings exist exactly when the threshold is numeric, and reflect the configured switches and threshold |
| Config.DefaultDetectorSettings | backend/app/config.py:26-31 | The defaults enable both detectors with threshold 3.0 and contamination 0.05 |

## Left out

- The collector's constructor reads `settings.sources.collector` (collector.py line 66), but the configuration defines no `sources` field. So as written, creating the collector singleton at import (line 209) raises AttributeError. The model does not follow the code here: it passes the source settings to `Collector.New` explicitly.
- Text.Lower and Text.Upper change ASCII letters only, while Python's `str.lower()` and `str.upper()` are Unicode-aware. The extension dispatch is unaffected. But the "Unsupported file format" message for a path with non-ASCII capitals differs from the code's.

- I/O and concurrency: the asyncio tasks, sleeps, the collect loop's back-off and `CancelledError` are left out. One collect-loop pass is `Collector.Tick`. An exception inside a pass is swallowed and the pass keeps its partial effects, as in the code.
- The database is a sink whose commit outcomes are inputs. The `json.dumps` of decoded fields and metadata, and the ORM rows, are not modelled.
- python-can, scapy and the capture-file readers are outside the model. Their results (frames, timeouts, errors, missing modules) are inputs. `bus.shutdown()` errors are left out.
- The V2X generator, `hash`, `log2` and scikit-learn's `IsolationForest` scorer are oracle functions. Only the laws the proofs need (the sign laws of `log2`) are assumed of them, as preconditions.
- Randomness becomes indexed draw functions; the clock becomes one `now` per operation.
- The alert descriptions (f-strings) and log messages are not modelled.
- `stats` merging `running` into the counters (collector.py lines 77-79) is not modelled.
- The collector's `stop` does not reset counters or pending packets, and this is modelled as is.
- A failed source start in multi mode is not caught by the collector, and the model propagates it as a failure.
- Multi mode's `except Exception` skip in `start` (collector.py lines 91-95) is not modelled. Once the source settings are passed explicitly, `_create_source("can")` and `_create_source("ethernet")` cannot raise. So the skip never fires, and `Collector.MultiSources` always builds both sources. As written, that branch would catch the missing `settings.sources` AttributeError.
- Two parsers are stricter than Python's:
  - `int(s, 16)` also accepts surrounding whitespace, a sign and underscores, which `Text.ParseInt16` does not;
  - `bytes.fromhex` also accepts whitespace between byte pairs, which `Collector.Storable` does not.
- The LLM and application configuration fields are kept as plain maps. Only the detector fields are given a typed view.
- A non-numeric `frequency_threshold` gives no typed detector view. A contamination that is neither "auto" nor a number is kept as an unsupported value, and fitting a non-empty batch with it raises.
- Python floats are exact reals in the model: rounding of sums and quotients is not modelled.
- RuleDetector.FrequencyCheckSpec: it characterises positive thresholds only. A zero threshold raises (`RuleDetector.ZeroThresholdRaises`); a negative one, which flags every id, is not characterised.
- IsolationForest.PredictSpec: the confidence is stated before `round(…, 3)`, because rounding is not modelled. The rounded value can be 0.0 for scores closer to zero than 0.0005.
- DetectorService.DetectSpec: the machine-learning confidence is unrounded here too. So an alert whose |score| lies in (0.9, 0.9005) sorts above a rule alert of confidence 0.9. In the code the rounded 0.9 ties, and the rule alert stays first.
- TrafficParser.ParseBatch: each record field is typed (a string, a real or a dictionary, or absent). So the model does not raise where the code does. A null or non-string `protocol` makes `.upper()` raise AttributeError. A null V2X `timestamp`, a non-string source or another value the packet model's validation rejects raises a validation error. Validation's coercions (the string "12.5" read as a float) are not modelled either.
- TrafficParser.ParseBatch: the code calls `time.time()` once per record, but the model uses one `now` for the whole batch. So records without a timestamp share one time here, and a batch made only of them has span 0 and never raises a frequency alert.
- Config.LoadConfig: `cors_origins`, a list, has no value form here and is left out of the application defaults. So is any list or nested mapping inside a section. The `app` section can replace the nested `llm` and `detector` objects with whatever it holds (config.py lines 55-57). The model applies it only to the scalar application fields.
- IsolationForest.ByteEntropyZeroIff: it relies on two sign laws of `log2` rather than its value, so the entropy's magnitude is not stated.
- Collector.StartSpec: it states the corrected start, which replaces the source list instead of appending to it (see Findings); `Collector.StartAsWritten` keeps the code's behaviour.
- PcapSource.StartSpec: it states the corrected start, which sets the running flag only after a successful load (see Findings); `PcapSource.StartAsWritten` keeps the code's behaviour.

## Findings

| source | as written | input that shows it | evidently intended | confidence | as-written member | corrected member |
|---|---|---|---|---|---|---|
| backend/app/sources/pcap_source.py:32-33 | `_running` is set to true before `_load_file`, so a failing load leaves the source marked running | a source for `a.csv`: `start` raises "Unsupported file format", the source stays running, and a retried `start` returns quietly with an empty buffer | the source runs only after its file loaded | not executed | PcapSource.StartAsWrittenLeavesFailedSourceRunning | PcapSource.StartSpec |
| backend/app/services/collector.py:89-95 | multi mode appends two new sources to `_sources` without clearing it, and a failed start leaves them there | a multi-mode start while the CAN bus is down, then a retry once it is up: the collector reports 4 sources, two reading the same bus | each start begins from an empty source list | not executed | Collector.MultiRetryDoublesSources | Collector.StartSpec |
