/** `SimulatorSource` of `sources/simulator_source.py`: a data source that fills its
    buffer once, on `start`, with a scenario composed from the traffic generators. */
module SimulatorSource {
  import opened Results
  import opened Text
  import opened Packets
  import opened Fifo
  import opened DataSources
  import CanSimulator
  import EthSimulator

  /** A traffic generator: `(count, base_time)` to packets. */
  type Generator = (int, real) -> seq<UnifiedPacket>

  /** The generators `_generate` calls. */
  datatype Generators = Generators(
    normalCan: Generator,
    normalEth: Generator,
    normalV2x: Generator,
    dos: Generator,
    fuzzy: Generator,
    spoofing: Generator)

  /** Each generator emits one packet per iteration of `range(count)`. */
  ghost predicate Sized(g: Generators) {
    && (forall n: int, t: real :: |g.normalCan(n, t)| == CanSimulator.RangeLength(n))
    && (forall n: int, t: real :: |g.normalEth(n, t)| == CanSimulator.RangeLength(n))
    && (forall n: int, t: real :: |g.normalV2x(n, t)| == CanSimulator.RangeLength(n))
    && (forall n: int, t: real :: |g.dos(n, t)| == CanSimulator.RangeLength(n))
    && (forall n: int, t: real :: |g.fuzzy(n, t)| == CanSimulator.RangeLength(n))
    && (forall n: int, t: real :: |g.spoofing(n, t)| == CanSimulator.RangeLength(n))
  }

  /** The random draws behind the modelled generators; V2X traffic, which is not
      modelled, is itself given as a generator. */
  datatype Draws = Draws(
    row: nat -> CanSimulator.RowIndex,
    byte: (nat, nat) -> Byte,
    id: nat -> CanSimulator.IdDraw,
    dlc: nat -> CanSimulator.DlcDraw,
    spoofedRow: CanSimulator.RowIndex,
    service: nat -> EthSimulator.ServiceIndex,
    length: nat -> EthSimulator.PayloadLength,
    v2x: Generator)

  /** The generators of `simulators/` driven by the given draws. */
  function SimulatorGenerators(d: Draws): Generators {
    Generators(
      normalCan := (n, t) => CanSimulator.GenerateNormalCan(n, t, d.row, d.byte),
      normalEth := (n, t) => EthSimulator.GenerateNormalEth(n, t, d.service, d.length),
      normalV2x := d.v2x,
      dos := (n, t) => CanSimulator.GenerateDos(n, t, d.byte),
      fuzzy := (n, t) => CanSimulator.GenerateFuzzy(n, t, d.id, d.dlc, d.byte),
      spoofing := (n, t) => CanSimulator.GenerateSpoofing(n, t, d.spoofedRow))
  }

  /** The modelled generators emit one packet per iteration. */
  lemma SimulatorGeneratorsSized(d: Draws)
    requires forall n: int, t: real :: |d.v2x(n, t)| == CanSimulator.RangeLength(n)
    ensures Sized(SimulatorGenerators(d))
  {
    var g := SimulatorGenerators(d);
    forall n: int, t: real
      ensures |g.normalCan(n, t)| == CanSimulator.RangeLength(n)
      ensures |g.normalEth(n, t)| == CanSimulator.RangeLength(n)
      ensures |g.dos(n, t)| == CanSimulator.RangeLength(n)
      ensures |g.fuzzy(n, t)| == CanSimulator.RangeLength(n)
      ensures |g.spoofing(n, t)| == CanSimulator.RangeLength(n)
    {
      assert g.normalCan(n, t) == CanSimulator.GenerateNormalCan(n, t, d.row, d.byte);
      assert g.normalEth(n, t) == EthSimulator.GenerateNormalEth(n, t, d.service, d.length);
      assert g.dos(n, t) == CanSimulator.GenerateDos(n, t, d.byte);
      assert g.fuzzy(n, t) == CanSimulator.GenerateFuzzy(n, t, d.id, d.dlc, d.byte);
      assert g.spoofing(n, t) == CanSimulator.GenerateSpoofing(n, t, d.spoofedRow);
    }
  }

  /** `_generate`: the packets of one scenario, all generated from the same base time.
      An unknown scenario yields nothing. */
  function Generate(scenario: string, n: int, base: real, g: Generators): seq<UnifiedPacket> {
    if scenario == "normal" then
      g.normalCan(n, base) + g.normalEth(n / 2, base) + g.normalV2x(n / 3, base)
    else if scenario == "dos" then
      g.normalCan(n / 2, base) + g.dos(n, base)
    else if scenario == "fuzzy" then
      g.normalCan(n / 2, base) + g.fuzzy(n, base)
    else if scenario == "spoofing" then
      g.normalCan(n / 2, base) + g.spoofing(n, base)
    else if scenario == "mixed" then
      g.normalCan(n, base) + g.dos(n / 3, base) + g.fuzzy(n / 3, base)
        + g.spoofing(n / 3, base) + g.normalEth(n / 3, base) + g.normalV2x(n / 4, base)
    else []
  }

  /** The number of packets a scenario holds, for a count `n >= 0`: normal is
      `n + n//2 + n//3`, each attack scenario `n//2 + n`, mixed `n + 4*(n//3) + n//4`,
      and any other scenario none. */
  lemma ScenarioSize(scenario: string, n: nat, base: real, g: Generators)
    requires Sized(g)
    ensures |Generate(scenario, n, base, g)| ==
      if scenario == "normal" then n + n / 2 + n / 3
      else if scenario in {"dos", "fuzzy", "spoofing"} then n / 2 + n
      else if scenario == "mixed" then n + 4 * (n / 3) + n / 4
      else 0
  {
  }

  /** The attack scenarios put the normal background traffic first and the attack
      after it. */
  lemma AttackFollowsBackground(scenario: string, n: nat, base: real, g: Generators)
    requires Sized(g) && scenario in {"dos", "fuzzy", "spoofing"}
    ensures var ps := Generate(scenario, n, base, g);
      var k := n / 2;
      && ps[..k] == g.normalCan(k, base)
      && ps[k..] == (if scenario == "dos" then g.dos(n, base)
                     else if scenario == "fuzzy" then g.fuzzy(n, base)
                     else g.spoofing(n, base))
  {
  }

  /** The source: its scenario and count, the running flag and the buffer. */
  datatype SimState = SimState(scenario: string, count: int, running: bool, buffer: seq<UnifiedPacket>)

  /** `SimulatorSource(scenario, count)`. */
  function New(scenario: string := "normal", count: int := 100): (s: SimState)
    ensures !s.running && s.buffer == []
  {
    SimState(scenario, count, false, [])
  }

  /** A stopped source holds nothing, and the buffer never exceeds its capacity. */
  predicate Valid(s: SimState) {
    |s.buffer| <= LiveCapacity && (!s.running ==> s.buffer == [])
  }

  /** `start`: a no-op on a running source; otherwise the source runs and its buffer
      is extended with the scenario's packets generated at `now`. It never raises. */
  function Start(s: SimState, g: Generators, now: real): SimState {
    if s.running then s
    else s.(running := true, buffer := KeepNewest(s.buffer + Generate(s.scenario, s.count, now, g), LiveCapacity))
  }

  /** `stop`. */
  function Stop(s: SimState): SimState {
    s.(running := false, buffer := [])
  }

  /** `read(max_count)`. */
  function Read(s: SimState, maxCount: int): Batch<SimState> {
    var d := Drain(s.buffer, maxCount);
    Batch(s.(buffer := d.rest), d.taken)
  }

  /** Starting a stopped source makes it run over the newest `LiveCapacity` packets of
      its scenario, so the whole scenario when it fits; starting again changes nothing
      and generates nothing. */
  lemma StartSpec(s: SimState, g: Generators, now: real)
    requires Valid(s)
    ensures Valid(Start(s, g, now))
    ensures Start(s, g, now).running
    ensures !s.running ==>
      var ps := Generate(s.scenario, s.count, now, g);
      && Start(s, g, now).buffer == KeepNewest(ps, LiveCapacity)
      && (|ps| <= LiveCapacity ==> Start(s, g, now).buffer == ps)
    ensures Start(Start(s, g, now), g, now) == Start(s, g, now)
  {
    if !s.running {
      assert s.buffer + Generate(s.scenario, s.count, now, g) == Generate(s.scenario, s.count, now, g);
    }
  }

  /** Stopping leaves a stopped, empty source whatever the state before. */
  lemma StopSpec(s: SimState)
    ensures Valid(Stop(s)) && !Stop(s).running && Stop(s).buffer == []
    ensures Stop(Stop(s)) == Stop(s)
  {
  }

  /** A read returns the oldest `min(max_count, len)` packets in order and keeps the
      rest, so a following read continues where it stopped. */
  lemma ReadSpec(s: SimState, m1: nat, m2: nat)
    requires Valid(s)
    ensures var r := Read(s, m1);
      && Valid(r.state) && r.state.running == s.running
      && r.packets + r.state.buffer == s.buffer
      && |r.packets| == Min(m1, |s.buffer|)
      && r.packets + Read(r.state, m2).packets == Read(s, m1 + m2).packets
  {
    DrainTwice(s.buffer, m1, m2);
  }
}
