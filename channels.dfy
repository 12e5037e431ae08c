/**
 * The drivers a node publishes and the meter-to-driver mapping the site, energy and
 * daily-energy nodes share: for each recognised meter they pick one sample counted
 * from the end of `values`, write 0 for an empty sample and the converted `value`
 * when there is one, and skip the meter when the list is too short.
 */
module Channels {
  import opened Wrappers
  import opened FixedPoint
  import opened Payload

  /** The driver names the nodes hand to `setDriver`. */
  datatype Driver = ST | GV0 | GV1 | GV2 | GV3 | GV4 | CPW | CLITEMP | CV | BATLVL | GPV

  /** A node's published values, keyed by driver. */
  type Drivers = map<Driver, Fixed>

  /** The drivers the meter table writes. */
  const MeterDrivers: set<Driver> := {ST, GV0, GV1, GV2, GV3}

  /** Production→ST, Consumption→GV0, Purchased→GV1, SelfConsumption→GV2, FeedIn→GV3. */
  function ChannelOf(t: MeterType): (c: Option<Driver>)
    ensures c.Some? <==> !t.Other?
    ensures c.Some? ==> c.value in MeterDrivers
  {
    match t
    case Production => Some(ST)
    case Consumption => Some(GV0)
    case Purchased => Some(GV1)
    case SelfConsumption => Some(GV2)
    case FeedIn => Some(GV3)
    case Other(_) => None
  }

  /** No two meter types share a driver. */
  lemma ChannelOfInjective(t1: MeterType, t2: MeterType)
    requires ChannelOf(t1).Some? && ChannelOf(t1) == ChannelOf(t2)
    ensures t1 == t2
  {
    match t1
    case Production =>
    case Consumption =>
    case Purchased =>
    case SelfConsumption =>
    case FeedIn =>
  }

  /** How a node turns a sample's `value` into a driver value. */
  datatype Scale =
    | Round3  // `round(float(v), 3)`, the site's power readings
    | AsIs    // `float(v)`, the 15-minute energy readings
    | Kilo    // `round(float(v) / 1000, 1)`, the daily energy readings

  function Convert(scale: Scale, x: Fixed): Fixed {
    match scale
    case Round3 => Round(x, 3)
    case AsIs => x
    case Kilo => KiloRound(x)
  }

  /** `values[-back]`, when the list is long enough. */
  function SampleFromEnd(values: seq<Sample>, back: nat): (s: Option<Sample>)
    requires back >= 1
    ensures s.Some? <==> back <= |values|
    ensures s.Some? ==> s.value == values[|values| - back]
  {
    if back <= |values| then Some(values[|values| - back]) else None
  }

  /** The result of mapping one meter: the loop `continue`d, went on, or raised. */
  datatype ChannelStep = Skipped | Passed(drivers: Drivers) | Raised(drivers: Drivers)

  /** The per-meter branch of the site and energy loops, up to the driver writes. */
  function MapChannel(d: Drivers, m: Meter, back: nat, scale: Scale): ChannelStep
    requires back >= 1
  {
    match ChannelOf(m.mtype)
    case None => Passed(d)
    case Some(c) =>
      match SampleFromEnd(m.values, back)
      case None => Skipped
      case Some(dp) =>
        var d1 := if dp.IsEmpty() then d[c := 0] else d;
        match dp.value
        case Absent => Passed(d1)
        case Null => Raised(d1)
        case Num(x) => Passed(d1[c := Convert(scale, x)])
  }

  /** What meter m leaves in driver c, if it writes c at all. */
  function Effect(m: Meter, c: Driver, back: nat, scale: Scale): Option<Fixed>
    requires back >= 1
  {
    if ChannelOf(m.mtype) == Some(c) && back <= |m.values| then
      var dp := m.values[|m.values| - back];
      if dp.value.Num? then Some(Convert(scale, dp.value.x))
      else if dp.IsEmpty() then Some(0)
      else None
    else None
  }

  /** Meter m has a `null` value where the node reads it, so `float` raises. */
  predicate RaisesAt(m: Meter, back: nat)
    requires back >= 1
  {
    ChannelOf(m.mtype).Some? && back <= |m.values| && m.values[|m.values| - back].value.Null?
  }

  /** Meter k is the last one in ms that writes driver c. */
  predicate LastWriter(ms: seq<Meter>, c: Driver, back: nat, scale: Scale, k: int)
    requires back >= 1
  {
    0 <= k < |ms| && Effect(ms[k], c, back, scale).Some?
    && forall j :: k < j < |ms| ==> Effect(ms[j], c, back, scale).None?
  }

  /** Mapping one meter changes at most the driver its type names, and changes it as Effect says. */
  lemma MapChannelEffect(d: Drivers, m: Meter, back: nat, scale: Scale)
    requires back >= 1
    requires MeterDrivers <= d.Keys
    ensures MapChannel(d, m, back, scale).Raised? <==> RaisesAt(m, back)
    ensures MapChannel(d, m, back, scale).Raised? ==> MapChannel(d, m, back, scale).drivers == d
    ensures MapChannel(d, m, back, scale).Passed? ==>
      var d' := MapChannel(d, m, back, scale).drivers;
      d'.Keys == d.Keys &&
      forall c :: c in d ==> d'[c] == Effect(m, c, back, scale).GetOr(d[c])
  {
  }

  /** The raw number in the sample a recognised meter is read at, when it holds one. */
  function SampleValue(m: Meter, back: nat): (v: Option<Fixed>)
    requires back >= 1
    ensures v.Some? ==>
      ChannelOf(m.mtype).Some? && back <= |m.values| && m.values[|m.values| - back].value == Num(v.value)
  {
    if ChannelOf(m.mtype).Some? && back <= |m.values| then m.values[|m.values| - back].value.AsNumber()
    else None
  }

  /** What a straight-line update leaves behind: the drivers, and whether it raised part-way. */
  datatype Outcome = Outcome(drivers: Drivers, raised: bool)

  /** What a due update of a straight-line node leaves: the drivers, and whether it ran
      to its end (and so moved `last_date`). */
  datatype Attempt = Attempt(drivers: Drivers, completed: bool)

  /** The result of a scan over the meters: the drivers, and false once a step raised. */
  datatype Scan = Scan(drivers: Drivers, ok: bool)

  /** The meter loop of the daily-energy node (and the channel part of the other two). */
  function ChannelScan(d: Drivers, ms: seq<Meter>, back: nat, scale: Scale): Scan
    requires back >= 1
    decreases |ms|
  {
    if ms == [] then Scan(d, true)
    else
      var p := ChannelScan(d, ms[..|ms| - 1], back, scale);
      if !p.ok then p
      else
        match MapChannel(p.drivers, ms[|ms| - 1], back, scale)
        case Skipped => p
        case Passed(d') => Scan(d', true)
        case Raised(d') => Scan(d', false)
  }

  /** A scan completes exactly when no meter has a `null` value where it is read. */
  lemma {:induction false} ChannelScanOk(d: Drivers, ms: seq<Meter>, back: nat, scale: Scale)
    requires back >= 1
    requires MeterDrivers <= d.Keys
    ensures ChannelScan(d, ms, back, scale).ok <==> forall k :: 0 <= k < |ms| ==> !RaisesAt(ms[k], back)
    ensures ChannelScan(d, ms, back, scale).drivers.Keys == d.Keys
    decreases |ms|
  {
    if ms != [] {
      var ms' := ms[..|ms| - 1];
      ChannelScanOk(d, ms', back, scale);
      var p := ChannelScan(d, ms', back, scale);
      if p.ok {
        MapChannelEffect(p.drivers, ms[|ms| - 1], back, scale);
      }
      assert forall k :: 0 <= k < |ms'| ==> ms'[k] == ms[k];
    }
  }

  /**
   * After a scan that completes, each driver holds what the last meter writing it
   * wrote; a driver no meter writes keeps its value.
   */
  lemma {:induction false} ChannelScanValues(d: Drivers, ms: seq<Meter>, back: nat, scale: Scale, c: Driver)
    requires back >= 1
    requires MeterDrivers <= d.Keys && c in d
    requires forall k :: 0 <= k < |ms| ==> !RaisesAt(ms[k], back)
    ensures ChannelScan(d, ms, back, scale).ok
    ensures ChannelScan(d, ms, back, scale).drivers.Keys == d.Keys
    ensures (forall k :: 0 <= k < |ms| ==> Effect(ms[k], c, back, scale).None?) ==>
      ChannelScan(d, ms, back, scale).drivers[c] == d[c]
    ensures forall k :: LastWriter(ms, c, back, scale, k) ==>
      ChannelScan(d, ms, back, scale).drivers[c] == Effect(ms[k], c, back, scale).value
    decreases |ms|
  {
    ChannelScanOk(d, ms, back, scale);
    if ms != [] {
      var ms' := ms[..|ms| - 1];
      var last := ms[|ms| - 1];
      assert forall k :: 0 <= k < |ms'| ==> ms'[k] == ms[k];
      ChannelScanValues(d, ms', back, scale, c);
      ChannelScanOk(d, ms', back, scale);
      var p := ChannelScan(d, ms', back, scale);
      MapChannelEffect(p.drivers, last, back, scale);
      forall k | LastWriter(ms, c, back, scale, k)
        ensures ChannelScan(d, ms, back, scale).drivers[c] == Effect(ms[k], c, back, scale).value
      {
        LastWriterStep(d, ms, ms', back, scale, c, k);
      }
    }
  }

  /** The step of ChannelScanValues for one last writer k: the final meter is k, or it leaves c alone. */
  lemma LastWriterStep(d: Drivers, ms: seq<Meter>, ms': seq<Meter>, back: nat, scale: Scale, c: Driver, k: int)
    requires back >= 1 && ms != [] && ms' == ms[..|ms| - 1]
    requires MeterDrivers <= d.Keys && c in d
    requires LastWriter(ms, c, back, scale, k)
    requires ChannelScan(d, ms', back, scale).ok
    requires ChannelScan(d, ms', back, scale).drivers.Keys == d.Keys
    requires !RaisesAt(ms[|ms| - 1], back)
    requires forall j :: LastWriter(ms', c, back, scale, j) ==>
      ChannelScan(d, ms', back, scale).drivers[c] == Effect(ms'[j], c, back, scale).value
    ensures c in ChannelScan(d, ms, back, scale).drivers
    ensures ChannelScan(d, ms, back, scale).drivers[c] == Effect(ms[k], c, back, scale).value
  {
    MapChannelEffect(ChannelScan(d, ms', back, scale).drivers, ms[|ms| - 1], back, scale);
    if k < |ms| - 1 {
      assert ms'[k] == ms[k];
      assert forall j :: k < j < |ms'| ==> ms'[j] == ms[j];
      assert LastWriter(ms', c, back, scale, k);
    }
  }

  /** Scanning the same payload twice leaves the meter drivers where one scan left them. */
  lemma ChannelScanIdempotent(d: Drivers, ms: seq<Meter>, back: nat, scale: Scale)
    requires back >= 1
    requires MeterDrivers <= d.Keys
    requires forall k :: 0 <= k < |ms| ==> !RaisesAt(ms[k], back)
    ensures var once := ChannelScan(d, ms, back, scale).drivers;
      ChannelScan(once, ms, back, scale).drivers == once
  {
    var once := ChannelScan(d, ms, back, scale).drivers;
    ChannelScanOk(d, ms, back, scale);
    var twice := ChannelScan(once, ms, back, scale).drivers;
    ChannelScanOk(once, ms, back, scale);
    forall c | c in once
      ensures twice[c] == once[c]
    {
      ChannelScanValues(d, ms, back, scale, c);
      ChannelScanValues(once, ms, back, scale, c);
      if exists k :: LastWriter(ms, c, back, scale, k) {
        var k :| LastWriter(ms, c, back, scale, k);
      } else {
        LastWriterExists(ms, c, back, scale);
      }
    }
  }

  /** Some meter writes c exactly when a last such meter exists. */
  lemma {:induction false} LastWriterExists(ms: seq<Meter>, c: Driver, back: nat, scale: Scale)
    requires back >= 1
    ensures (exists k :: 0 <= k < |ms| && Effect(ms[k], c, back, scale).Some?) ==>
      exists k :: LastWriter(ms, c, back, scale, k)
    decreases |ms|
  {
    if ms != [] {
      var n := |ms| - 1;
      if Effect(ms[n], c, back, scale).Some? {
        assert LastWriter(ms, c, back, scale, n);
      } else if exists k :: 0 <= k < n && Effect(ms[..n][k], c, back, scale).Some? {
        LastWriterExists(ms[..n], c, back, scale);
        var k :| LastWriter(ms[..n], c, back, scale, k);
        LastWriterPrefix(ms, c, back, scale, k);
      } else {
        assert forall k :: 0 <= k < n ==> ms[..n][k] == ms[k];
      }
    }
  }

  /** A last writer of all meters but the final one stays the last writer when the final one does not write. */
  lemma LastWriterPrefix(ms: seq<Meter>, c: Driver, back: nat, scale: Scale, k: int)
    requires back >= 1 && ms != []
    requires LastWriter(ms[..|ms| - 1], c, back, scale, k)
    requires Effect(ms[|ms| - 1], c, back, scale).None?
    ensures LastWriter(ms, c, back, scale, k)
  {
    assert forall j :: k <= j < |ms| - 1 ==> ms[..|ms| - 1][j] == ms[j];
  }
}
