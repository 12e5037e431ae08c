/**
 * The two energy nodes of a site. The 15-minute node reads each meter's
 * second-to-last sample as is and moves `en_date` to the date of the newest sample;
 * the daily node reads the same sample in kilo-units and stamps `last_date` with the
 * time of the attempt.
 */
module EnergyNodes {
  import opened Wrappers
  import opened FixedPoint
  import opened Payload
  import opened Channels
  import opened Gate

  /** The drivers the 15-minute node declares. */
  const EnergyDrivers: set<Driver> := {ST, GV0, GV1, GV2, GV3, GV4}

  /** Both energy nodes read `values[-2]`: the last complete quarter or day. */
  const EnergyBack: nat := 2

  // ---------------------------------------------------------------------------
  // The 15-minute node

  /**
   * The meter loop's state: the drivers, `en_date`, the loop's local `last_date`
   * (None while it is still unbound), and false once the loop raised.
   */
  datatype EnergyScan = EnergyScan(drivers: Drivers, enDate: int, latest: Option<DateEntry>, ok: bool)

  /** The date part of a pass, on `values[-1]`; `continue` when the list is empty. */
  function DateStep(s: EnergyScan, m: Meter, now: int): EnergyScan {
    if m.values == [] then s
    else
      var dp := m.values[|m.values| - 1];
      var d := if dp.IsEmpty() then s.drivers[GV4 := 0] else s.drivers;
      var latest := if dp.date.NoDate? then s.latest else Some(dp.date);
      match latest
      case None => EnergyScan(d, s.enDate, latest, false)  // UnboundLocalError
      case Some(EmptyDate) => EnergyScan(d, s.enDate, latest, true)
      case Some(Iso(t)) => EnergyScan(d[GV4 := LastMinute(now, t)], t, latest, true)
      case Some(_) => EnergyScan(d, s.enDate, latest, false)  // fromisoformat raised
  }

  /** One pass of the 15-minute node's `for meter in ...`. */
  function EnergyStep(s: EnergyScan, m: Meter, now: int): EnergyScan {
    match MapChannel(s.drivers, m, EnergyBack, AsIs)
    case Skipped => s
    case Raised(d) => s.(drivers := d, ok := false)
    case Passed(d) => DateStep(s.(drivers := d), m, now)
  }

  function ScanEnergy(s: EnergyScan, ms: seq<Meter>, now: int): EnergyScan
    decreases |ms|
  {
    if ms == [] then s
    else
      var p := ScanEnergy(s, ms[..|ms| - 1], now);
      if !p.ok then p else EnergyStep(p, ms[|ms| - 1], now)
  }

  /** A due update of the 15-minute node, from its drivers and `en_date`. */
  function EnergyUpdate(d: Drivers, enDate: int, response: Response<seq<Meter>>, now: int): EnergyScan {
    match response
    case NoResponse =>
      EnergyScan(d[ST := 0][GV0 := 0][GV1 := 0][GV2 := 0][GV3 := 0][GV4 := 0], enDate, None, true)
    case Malformed => EnergyScan(d, enDate, None, false)
    case Body(ms) => ScanEnergy(EnergyScan(d, enDate, None, true), ms, now)
  }

  /** A 15-minute loop that raised at meter i goes no further. */
  lemma {:induction false} ScanEnergyStops(s: EnergyScan, ms: seq<Meter>, now: int, i: nat)
    requires i <= |ms|
    requires !ScanEnergy(s, ms[..i], now).ok
    ensures ScanEnergy(s, ms, now) == ScanEnergy(s, ms[..i], now)
    decreases |ms| - i
  {
    if i < |ms| {
      assert ms[..i + 1][..i] == ms[..i];
      ScanEnergyStops(s, ms, now, i + 1);
    } else {
      assert ms[..i] == ms;
    }
  }

  /**
   * When the 15-minute loop completes, the five meter drivers are exactly what the
   * shared meter table leaves with `values[-2]` taken as is; the driver names never
   * change.
   */
  lemma {:induction false} ScanEnergyChannels(s: EnergyScan, ms: seq<Meter>, now: int)
    requires s.ok && s.drivers.Keys == EnergyDrivers
    ensures ScanEnergy(s, ms, now).drivers.Keys == EnergyDrivers
    ensures ChannelScan(s.drivers, ms, EnergyBack, AsIs).drivers.Keys == EnergyDrivers
    ensures ScanEnergy(s, ms, now).ok ==> ChannelScan(s.drivers, ms, EnergyBack, AsIs).ok
    ensures ScanEnergy(s, ms, now).ok ==> forall c :: c in MeterDrivers ==>
      ScanEnergy(s, ms, now).drivers[c] == ChannelScan(s.drivers, ms, EnergyBack, AsIs).drivers[c]
    decreases |ms|
  {
    ChannelScanOk(s.drivers, ms, EnergyBack, AsIs);
    ScanEnergyKeys(s, ms, now);
    if ms != [] {
      var ms' := ms[..|ms| - 1];
      ScanEnergyChannels(s, ms', now);
      var p := ScanEnergy(s, ms', now);
      if p.ok && EnergyStep(p, ms[|ms| - 1], now).ok {
        EnergyStepChannels(p, ChannelScan(s.drivers, ms', EnergyBack, AsIs), ms[|ms| - 1], now);
      }
    }
  }

  /** One 15-minute pass does to the meter drivers what the shared table's pass does. */
  lemma EnergyStepChannels(p: EnergyScan, q: Scan, m: Meter, now: int)
    requires p.ok && p.drivers.Keys == EnergyDrivers && q.drivers.Keys == EnergyDrivers
    requires forall c :: c in MeterDrivers ==> p.drivers[c] == q.drivers[c]
    requires EnergyStep(p, m, now).ok
    ensures !MapChannel(q.drivers, m, EnergyBack, AsIs).Raised?
    ensures var r := EnergyStep(p, m, now).drivers;
      var d := match MapChannel(q.drivers, m, EnergyBack, AsIs)
               case Skipped => q.drivers
               case Passed(d) => d
               case Raised(d) => d;
      r.Keys == EnergyDrivers && d.Keys == EnergyDrivers && forall c :: c in MeterDrivers ==> r[c] == d[c]
  {
    MapChannelEffect(p.drivers, m, EnergyBack, AsIs);
    MapChannelEffect(q.drivers, m, EnergyBack, AsIs);
  }

  /** The loop's `last_date` names an ISO date t, and the node shows t and the minutes since. */
  predicate DateShown(s: EnergyScan, now: int) {
    GV4 in s.drivers &&
    (s.latest.Some? && s.latest.value.Iso? ==>
      s.enDate == s.latest.value.t && s.drivers[GV4] == LastMinute(now, s.enDate))
  }

  /**
   * `en_date` only ever takes a date of the payload: after the loop it is the old
   * value or the `date` of some meter's newest sample, and once the loop has seen an
   * ISO date, `en_date` is that date and GV4 shows the minutes since it.
   */
  lemma {:induction false} EnergyDateFromPayload(s: EnergyScan, ms: seq<Meter>, now: int)
    requires s.ok && MeterDrivers <= s.drivers.Keys && DateShown(s, now)
    ensures var r := ScanEnergy(s, ms, now);
      && DateShown(r, now)
      && (r.enDate == s.enDate
          || exists k :: 0 <= k < |ms| && ms[k].values != [] && ms[k].values[|ms[k].values| - 1].date == Iso(r.enDate))
    decreases |ms|
  {
    if ms != [] {
      var ms' := ms[..|ms| - 1];
      var m := ms[|ms| - 1];
      EnergyDateFromPayload(s, ms', now);
      var p := ScanEnergy(s, ms', now);
      var r := ScanEnergy(s, ms, now);
      if p.ok {
        ScanEnergyKeys(s, ms', now);
        EnergyStepDate(p, m, now);
        if r.enDate != p.enDate {
          assert ms[|ms| - 1].values != [] && ms[|ms| - 1].values[|ms[|ms| - 1].values| - 1].date == Iso(r.enDate);
        }
      }
      if r.enDate != s.enDate && r.enDate == p.enDate {
        var k :| 0 <= k < |ms'| && ms'[k].values != [] && ms'[k].values[|ms'[k].values| - 1].date == Iso(p.enDate);
        assert ms[k] == ms'[k];
      }
    }
  }

  /** One pass keeps DateShown, and moves `en_date` only to the date of the meter's newest sample. */
  lemma EnergyStepDate(p: EnergyScan, m: Meter, now: int)
    requires p.ok && MeterDrivers <= p.drivers.Keys && DateShown(p, now)
    ensures var q := EnergyStep(p, m, now);
      && DateShown(q, now)
      && (q.enDate == p.enDate || (m.values != [] && m.values[|m.values| - 1].date == Iso(q.enDate)))
  {
    MapChannelEffect(p.drivers, m, EnergyBack, AsIs);
  }

  /** The loop keeps the driver names. */
  lemma {:induction false} ScanEnergyKeys(s: EnergyScan, ms: seq<Meter>, now: int)
    requires MeterDrivers <= s.drivers.Keys && GV4 in s.drivers
    ensures ScanEnergy(s, ms, now).drivers.Keys == s.drivers.Keys
    decreases |ms|
  {
    if ms != [] {
      var ms' := ms[..|ms| - 1];
      ScanEnergyKeys(s, ms', now);
      var p := ScanEnergy(s, ms', now);
      if p.ok {
        MapChannelEffect(p.drivers, ms[|ms| - 1], EnergyBack, AsIs);
      }
    }
  }

  /** No sample of meter m carries a `date`. */
  predicate Undated(m: Meter) {
    forall j :: 0 <= j < |m.values| ==> m.values[j].date.NoDate?
  }

  /**
   * The local `last_date` is bound only by a dated sample: on a payload without any
   * dates the loop completes only if it never reaches a newest sample, i.e. every
   * recognised meter has fewer than two samples and every other meter none.
   */
  lemma {:induction false} UndatedPayloadRaises(s: EnergyScan, ms: seq<Meter>, now: int)
    requires s.ok && s.latest.None?
    requires forall k :: 0 <= k < |ms| ==> Undated(ms[k])
    requires ScanEnergy(s, ms, now).ok
    ensures ScanEnergy(s, ms, now).latest.None?
    ensures forall k :: 0 <= k < |ms| ==>
      |ms[k].values| < EnergyBack && (ms[k].mtype.Other? ==> ms[k].values == [])
    decreases |ms|
  {
    if ms != [] {
      var ms' := ms[..|ms| - 1];
      var m := ms[|ms| - 1];
      assert forall k :: 0 <= k < |ms'| ==> ms'[k] == ms[k];
      assert ScanEnergy(s, ms', now).ok;
      UndatedPayloadRaises(s, ms', now);
      if m.values != [] {
        assert m.values[|m.values| - 1].date.NoDate?;
      }
    }
  }

  class Energy {
    const address: string
    const rate: Fixed
    var drivers: Drivers
    var enDate: int

    ghost predicate Valid()
      reads this
    {
      drivers.Keys == EnergyDrivers
    }

    constructor (address: string, lastDate: int, rate: Fixed)
      ensures Valid()
      ensures this.address == address && this.rate == rate && enDate == lastDate
      ensures forall c :: c in EnergyDrivers ==> drivers[c] == 0
    {
      this.address := address;
      this.rate := rate;
      drivers := map[ST := 0, GV0 := 0, GV1 := 0, GV2 := 0, GV3 := 0, GV4 := 0];
      enDate := lastDate;
    }

    /** One pass of the meter loop; `latest` is the local `last_date`, `ok` false when it raised. */
    method MapMeter(m: Meter, now: int, latest: Option<DateEntry>) returns (latest': Option<DateEntry>, ok: bool)
      requires Valid()
      modifies this
      ensures Valid()
      ensures EnergyScan(drivers, enDate, latest', ok) ==
        EnergyStep(EnergyScan(old(drivers), old(enDate), latest, true), m, now)
    {
      latest', ok := latest, true;
      var channel := ChannelOf(m.mtype);
      if channel.Some? {
        if |m.values| < EnergyBack {
          return;
        }
        var c := channel.value;
        var datapoint := m.values[|m.values| - EnergyBack];
        if datapoint.IsEmpty() {
          drivers := drivers[c := 0];
        }
        match datapoint.value {
          case Absent =>
          case Null =>
            ok := false;
            return;
          case Num(x) =>
            drivers := drivers[c := x];
        }
      }
      if |m.values| == 0 {
        return;
      }
      var datapoint := m.values[|m.values| - 1];
      if datapoint.IsEmpty() {
        drivers := drivers[GV4 := 0];
      }
      if !datapoint.date.NoDate? {
        latest' := Some(datapoint.date);
      }
      match latest' {
        case None =>
          ok := false;
        case Some(EmptyDate) =>
        case Some(Iso(t)) =>
          enDate := t;
          drivers := drivers[GV4 := LastMinute(now, t)];
        case Some(_) =>
          ok := false;
      }
    }

    /** The meter loop over an energy response. */
    method MapMeters(ms: seq<Meter>, now: int)
      requires Valid()
      modifies this
      ensures Valid()
      ensures var r := ScanEnergy(EnergyScan(old(drivers), old(enDate), None, true), ms, now);
        drivers == r.drivers && enDate == r.enDate
    {
      ghost var s0 := EnergyScan(drivers, enDate, None, true);
      var latest: Option<DateEntry> := None;
      var i := 0;
      while i < |ms|
        invariant 0 <= i <= |ms|
        invariant Valid()
        invariant ScanEnergy(s0, ms[..i], now) == EnergyScan(drivers, enDate, latest, true)
      {
        assert ms[..i + 1][..i] == ms[..i];
        var ok;
        latest, ok := MapMeter(ms[i], now, latest);
        if !ok {
          ScanEnergyStops(s0, ms, now, i + 1);
          return;
        }
        i := i + 1;
      }
      assert ms[..i] == ms;
    }

    /**
     * `updateInfo(poll_flag)`; the response to the energy request is a parameter and
     * `fetched` says whether it was made. A node that is not due only refreshes GV4.
     */
    method UpdateInfo(pollFlag: string, now: int, response: Response<seq<Meter>>) returns (fetched: bool)
      requires Valid()
      modifies this
      ensures Valid()
      ensures fetched <==> pollFlag != LongPoll && IsDue(now, old(enDate), rate)
      ensures pollFlag == LongPoll ==> drivers == old(drivers) && enDate == old(enDate)
      ensures pollFlag != LongPoll && !fetched ==>
        drivers == old(drivers)[GV4 := LastMinute(now, old(enDate))] && enDate == old(enDate)
      ensures fetched ==>
        var r := EnergyUpdate(old(drivers), old(enDate), response, now);
        drivers == r.drivers && enDate == r.enDate
    {
      fetched := false;
      if pollFlag == LongPoll {
        return;
      }
      var lastMinute := LastMinute(now, enDate);
      if !Due(lastMinute, rate) {
        drivers := drivers[GV4 := lastMinute];
        return;
      }
      fetched := true;
      match response {
        case NoResponse =>
          drivers := drivers[ST := 0][GV0 := 0][GV1 := 0][GV2 := 0][GV3 := 0][GV4 := 0];
        case Malformed =>
        case Body(ms) =>
          MapMeters(ms, now);
      }
    }
  }

  // ---------------------------------------------------------------------------
  // The daily node

  /** A due update of the daily node: the zero fallback, or the meter table in kilo-units. */
  function DayUpdate(d: Drivers, response: Response<seq<Meter>>): Scan {
    match response
    case NoResponse => Scan(d[ST := 0][GV0 := 0][GV1 := 0][GV2 := 0][GV3 := 0], true)
    case Malformed => Scan(d, false)
    case Body(ms) => ChannelScan(d, ms, EnergyBack, Kilo)
  }

  /**
   * After a completed daily update, a meter driver whose last writer read a number
   * shows that reading in kilo-units, as whole tenths within half a tenth; one whose
   * last writer read an empty sample shows 0.
   */
  lemma DayReadingsInTenths(d: Drivers, ms: seq<Meter>, c: Driver, k: int)
    requires d.Keys == MeterDrivers && c in MeterDrivers
    requires forall j :: 0 <= j < |ms| ==> !RaisesAt(ms[j], EnergyBack)
    requires LastWriter(ms, c, EnergyBack, Kilo, k)
    ensures c in DayUpdate(d, Body(ms)).drivers
    ensures var v := DayUpdate(d, Body(ms)).drivers[c];
      && v % 100_000 == 0
      && (SampleValue(ms[k], EnergyBack).Some? ==> 2 * Abs(1000 * v - SampleValue(ms[k], EnergyBack).value) <= 100_000_000)
      && (SampleValue(ms[k], EnergyBack).None? ==> v == 0)
  {
    ChannelScanValues(d, ms, EnergyBack, Kilo, c);
  }

  class EnergyDay {
    const address: string
    const rate: Fixed
    var drivers: Drivers
    var lastDate: int

    ghost predicate Valid()
      reads this
    {
      drivers.Keys == MeterDrivers
    }

    constructor (address: string, lastDate: int, rate: Fixed)
      ensures Valid()
      ensures this.address == address && this.rate == rate && this.lastDate == lastDate
      ensures forall c :: c in MeterDrivers ==> drivers[c] == 0
    {
      this.address := address;
      this.rate := rate;
      drivers := map[ST := 0, GV0 := 0, GV1 := 0, GV2 := 0, GV3 := 0];
      this.lastDate := lastDate;
    }

    /** One pass of the meter loop; `ok` is false when it raised. */
    method MapMeter(m: Meter) returns (ok: bool)
      requires Valid()
      modifies this
      ensures Valid() && lastDate == old(lastDate)
      ensures Scan(drivers, ok) == ChannelScan(old(drivers), [m], EnergyBack, Kilo)
    {
      assert [m][..0] == [];
      ok := true;
      var channel := ChannelOf(m.mtype);
      if channel.Some? {
        if |m.values| < EnergyBack {
          return;
        }
        var c := channel.value;
        var datapoint := m.values[|m.values| - EnergyBack];
        if datapoint.IsEmpty() {
          drivers := drivers[c := 0];
        }
        match datapoint.value {
          case Absent =>
          case Null =>
            ok := false;
          case Num(x) =>
            drivers := drivers[c := KiloRound(x)];
        }
      }
    }

    /** The meter loop over a daily energy response; `ok` is false when it raised. */
    method MapMeters(ms: seq<Meter>) returns (ok: bool)
      requires Valid()
      modifies this
      ensures Valid() && lastDate == old(lastDate)
      ensures Scan(drivers, ok) == ChannelScan(old(drivers), ms, EnergyBack, Kilo)
    {
      ghost var d0 := drivers;
      var i := 0;
      while i < |ms|
        invariant 0 <= i <= |ms|
        invariant Valid() && lastDate == old(lastDate)
        invariant ChannelScan(d0, ms[..i], EnergyBack, Kilo) == Scan(drivers, true)
      {
        assert ms[..i + 1][..i] == ms[..i];
        ghost var before := drivers;
        ok := MapMeter(ms[i]);
        assert ChannelScan(before, [ms[i]], EnergyBack, Kilo) == ChannelScan(d0, ms[..i + 1], EnergyBack, Kilo);
        if !ok {
          ChannelScanStops(d0, ms, i + 1);
          return;
        }
        i := i + 1;
      }
      assert ms[..i] == ms;
      ok := true;
    }

    /**
     * `updateInfo(poll_flag)`; the response to the daily energy request is a parameter
     * and `fetched` says whether it was made. A due attempt stamps `last_date` with now
     * unless it raised, a failed request included.
     */
    method UpdateInfo(pollFlag: string, now: int, response: Response<seq<Meter>>) returns (fetched: bool)
      requires Valid()
      modifies this
      ensures Valid()
      ensures fetched <==> pollFlag != LongPoll && IsDue(now, old(lastDate), rate)
      ensures !fetched ==> drivers == old(drivers) && lastDate == old(lastDate)
      ensures fetched ==>
        var r := DayUpdate(old(drivers), response);
        drivers == r.drivers && lastDate == (if r.ok then now else old(lastDate))
    {
      fetched := false;
      if pollFlag == LongPoll {
        return;
      }
      var lastMinute := LastMinute(now, lastDate);
      if !Due(lastMinute, rate) {
        return;
      }
      fetched := true;
      match response {
        case NoResponse =>
          drivers := drivers[ST := 0][GV0 := 0][GV1 := 0][GV2 := 0][GV3 := 0];
        case Malformed =>
          return;
        case Body(ms) =>
          var ok := MapMeters(ms);
          if !ok {
            return;
          }
      }
      lastDate := now;
    }
  }

  /** A daily loop that raised at meter i goes no further. */
  lemma {:induction false} ChannelScanStops(d: Drivers, ms: seq<Meter>, i: nat)
    requires i <= |ms|
    requires !ChannelScan(d, ms[..i], EnergyBack, Kilo).ok
    ensures ChannelScan(d, ms, EnergyBack, Kilo) == ChannelScan(d, ms[..i], EnergyBack, Kilo)
    decreases |ms| - i
  {
    if i < |ms| {
      assert ms[..i + 1][..i] == ms[..i];
      ChannelScanStops(d, ms, i + 1);
    } else {
      assert ms[..i] == ms;
    }
  }
}
