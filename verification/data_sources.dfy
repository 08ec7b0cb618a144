/** What every data source of `sources/` shares (`sources/base.py`): a running flag, a
    bounded buffer the source fills and `read` drains oldest first, and the
    `read_stream` loop over `read`. */
module DataSources {
  import opened Results
  import opened Packets
  import opened Fifo
  import opened Seqs

  /** `deque(maxlen=10000)`: the buffer of the simulator, CAN and Ethernet sources. */
  const LiveCapacity: nat := 10000

  /** `deque(maxlen=50000)`: the buffer of the file-replay source. */
  const FileCapacity: nat := 50000

  /** The default `max_count` of `read`, which `read_stream` uses. */
  const DefaultReadCount: nat := 100

  datatype Unit = Unit

  /** A state change that may end in an exception. The state keeps every assignment
      made before the raise, as the Python object does. */
  datatype Effect<S> = Effect(state: S, outcome: Result<Unit>)

  /** What `read` returns together with the source it leaves behind. */
  datatype Batch<S> = Batch(state: S, packets: seq<UnifiedPacket>)

  /** One pass of `read_stream`'s loop: stop, yield a batch, or sleep and poll again. */
  datatype StreamStep =
    | Finished
    | Yield(batch: seq<UnifiedPacket>, rest: seq<UnifiedPacket>)
    | Sleep

  function Step(running: bool, buffer: seq<UnifiedPacket>): StreamStep {
    if !running then Finished
    else
      var d := Drain(buffer, DefaultReadCount);
      if d.taken != [] then Yield(d.taken, d.rest) else Sleep
  }

  /** The loop ends exactly when the source is not running; it yields only non-empty
      batches of at most `DefaultReadCount` oldest packets and sleeps only when the
      buffer is empty, since an empty read means "no data now". */
  lemma StepSpec(running: bool, buffer: seq<UnifiedPacket>)
    ensures Step(running, buffer).Finished? <==> !running
    ensures Step(running, buffer).Sleep? <==> running && buffer == []
    ensures Step(running, buffer).Yield? ==>
      var st := Step(running, buffer);
      && 1 <= |st.batch| <= DefaultReadCount
      && st.batch + st.rest == buffer
  {
    DrainEmptyIff(buffer, DefaultReadCount);
  }

  /** The batches `read_stream` yields from a buffer nobody else touches meanwhile,
      up to the first time it has to sleep. */
  function Stream(running: bool, buffer: seq<UnifiedPacket>): seq<seq<UnifiedPacket>>
    decreases |buffer|
  {
    match Step(running, buffer)
    case Yield(batch, rest) => [batch] + Stream(running, rest)
    case _ => []
  }

  /** A stopped source yields nothing; a running one yields its whole buffer, in order,
      in non-empty batches of at most `DefaultReadCount` packets. */
  lemma {:induction false} StreamSpec(running: bool, buffer: seq<UnifiedPacket>)
    ensures !running ==> Stream(running, buffer) == []
    ensures running ==> Flatten(Stream(running, buffer)) == buffer
    ensures forall i :: 0 <= i < |Stream(running, buffer)| ==> 1 <= |Stream(running, buffer)[i]| <= DefaultReadCount
    decreases |buffer|
  {
    StepSpec(running, buffer);
    match Step(running, buffer)
    case Yield(batch, rest) =>
      StreamSpec(running, rest);
      var s := Stream(running, buffer);
      assert s == [batch] + Stream(running, rest);
      assert s[1..] == Stream(running, rest);
      forall i | 0 <= i < |s|
        ensures 1 <= |s[i]| <= DefaultReadCount
      {
        if i > 0 {
          assert s[i] == Stream(running, rest)[i - 1];
        }
      }
    case _ =>
  }
}
