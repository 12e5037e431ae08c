/**
 * The site node: on each short poll that its gate lets through it fetches the site's
 * power details, fans the site's battery telemetry out to the battery nodes with one
 * storage request, and maps the five power meters onto ST and GV0..GV3. Only a new
 * production or consumption reading moves `last_date`; GV4 shows the minutes since.
 */
module SiteNode {
  import opened Wrappers
  import opened FixedPoint
  import opened Payload
  import opened Channels
  import opened Gate
  import opened Discovery
  import opened BatteryNode

  /** The drivers a site node declares. */
  const SiteDrivers: set<Driver> := {ST, GV0, GV1, GV2, GV3, GV4}

  /** `last_production` and `last_consumption` before any reading: the module-level -1.0. */
  const InitialCache: Fixed := -One

  // ---------------------------------------------------------------------------
  // Requests

  /** The API requests a site update issues. */
  datatype Request =
    | PowerDetails(site: string)
    | StorageData(site: string, serials: string)

  /** `','.join(serials)`. */
  function JoinSerials(xs: seq<string>): string
    decreases |xs|
  {
    if xs == [] then ""
    else if |xs| == 1 then xs[0]
    else xs[0] + "," + JoinSerials(xs[1..])
  }

  /** `s.split(',')`: the inverse the API applies to the `serials` parameter. */
  function SplitSerials(s: string): (r: seq<string>)
    ensures |r| >= 1
    decreases |s|
  {
    if s == [] then [""]
    else
      var rest := SplitSerials(s[1..]);
      if s[0] == ',' then [""] + rest else [[s[0]] + rest[0]] + rest[1..]
  }

  lemma {:induction false} SplitNoComma(x: string)
    requires ',' !in x
    ensures SplitSerials(x) == [x]
  {
    if x != [] {
      assert forall c :: c in x[1..] ==> c in x;
      SplitNoComma(x[1..]);
      assert x == [x[0]] + x[1..];
    }
  }

  lemma {:induction false} SplitAfterComma(x: string, y: string)
    requires ',' !in x
    ensures SplitSerials(x + "," + y) == [x] + SplitSerials(y)
    decreases |x|
  {
    if x == [] {
      assert x + "," + y == [','] + y;
      assert ([','] + y)[1..] == y;
    } else {
      assert forall c :: c in x[1..] ==> c in x;
      SplitAfterComma(x[1..], y);
      assert (x + "," + y)[1..] == x[1..] + "," + y;
      assert x == [x[0]] + x[1..];
    }
  }

  /** The storage request's `serials` parameter names exactly the site's batteries, in order. */
  lemma {:induction false} SerialsRoundTrip(xs: seq<string>)
    requires xs != []
    requires forall i :: 0 <= i < |xs| ==> ',' !in xs[i]
    ensures SplitSerials(JoinSerials(xs)) == xs
    decreases |xs|
  {
    if |xs| == 1 {
      SplitNoComma(xs[0]);
    } else {
      SerialsRoundTrip(xs[1..]);
      SplitAfterComma(xs[0], JoinSerials(xs[1..]));
      assert xs == [xs[0]] + xs[1..];
    }
  }

  /** The requests of one update: power details when due, and a single storage request
      for all the site's batteries when it has any. */
  function SiteRequests(site: string, batteries: seq<string>, due: bool): (rs: seq<Request>)
    ensures !due ==> rs == []
    ensures due ==> |rs| >= 1 && rs[0] == PowerDetails(site)
    ensures (exists i :: 0 <= i < |rs| && rs[i].StorageData?) <==> due && batteries != []
    ensures forall i, j :: 0 <= i < |rs| && 0 <= j < |rs| && rs[i].StorageData? && rs[j].StorageData? ==> i == j
    ensures forall i :: 0 <= i < |rs| && rs[i].StorageData? ==>
      rs[i] == StorageData(site, JoinSerials(batteries))
  {
    if !due then []
    else if batteries == [] then [PowerDetails(site)]
    else
      var rs := [PowerDetails(site), StorageData(site, JoinSerials(batteries))];
      assert rs[1].StorageData?;
      rs
  }

  // ---------------------------------------------------------------------------
  // Battery fan-out

  /** The battery nodes' drivers, by node address, and false once the fan-out raised. */
  datatype Fan = Fan(views: map<string, Drivers>, ok: bool)

  /** Every view has exactly a battery node's drivers. */
  predicate BatteryViews(views: map<string, Drivers>) {
    forall a :: a in views ==> views[a].Keys == BatteryDrivers
  }

  /** The telemetry list of an entry makes `updateData` raise. */
  predicate EntryRaises(e: StorageBattery) {
    BatteryData(map[], e.telemetries).raised
  }

  /** Entry e is one the site hands to the battery node at address a. */
  predicate Reports(e: StorageBattery, a: string) {
    e.telemetryCount > 0 && NodeAddress(e.serialNumber) == a
  }

  /** One pass of `for battery in storage_data['storageData']['batteries']`. */
  function FanStep(views: map<string, Drivers>, e: StorageBattery): Fan {
    if e.telemetryCount > 0 then
      var a := NodeAddress(e.serialNumber);
      if a !in views then Fan(views, false)  // getNode returned None
      else
        var o := BatteryData(views[a], e.telemetries);
        Fan(views[a := o.drivers], !o.raised)
    else Fan(views, true)
  }

  function FanOut(views: map<string, Drivers>, es: seq<StorageBattery>): Fan
    decreases |es|
  {
    if es == [] then Fan(views, true)
    else
      var p := FanOut(views, es[..|es| - 1]);
      if !p.ok then p else FanStep(p.views, es[|es| - 1])
  }

  /** The fan-out of a storage response; a failed or malformed one raises at once. */
  function FanOutResponse(views: map<string, Drivers>, storage: Response<seq<StorageBattery>>): Fan {
    match storage
    case Body(es) => FanOut(views, es)
    case _ => Fan(views, false)
  }

  lemma BatteryDataRaises(d: Drivers, batt: Option<seq<BatteryTelemetry>>)
    ensures BatteryData(d, batt).raised == BatteryData(map[], batt).raised
  {
  }

  /** One step keeps the views' shape and the capacities, and raises exactly as FanOutShape says. */
  lemma FanStepShape(views: map<string, Drivers>, e: StorageBattery)
    requires BatteryViews(views)
    ensures var f := FanStep(views, e);
      && f.views.Keys == views.Keys
      && BatteryViews(f.views)
      && (forall a :: a in views ==> f.views[a][GPV] == views[a][GPV])
      && (f.ok <==> (e.telemetryCount > 0 ==> NodeAddress(e.serialNumber) in views && !EntryRaises(e)))
  {
    if e.telemetryCount > 0 && NodeAddress(e.serialNumber) in views {
      var a := NodeAddress(e.serialNumber);
      BatteryDataRaises(views[a], e.telemetries);
      var o := BatteryData(views[a], e.telemetries);
      assert o.drivers.Keys == BatteryDrivers;
    }
  }

  /**
   * The fan-out keeps the set of battery nodes and their driver names, and never
   * touches a battery's capacity.
   */
  lemma {:induction false} FanOutViews(views: map<string, Drivers>, es: seq<StorageBattery>)
    requires BatteryViews(views)
    ensures FanOut(views, es).views.Keys == views.Keys
    ensures BatteryViews(FanOut(views, es).views)
    ensures forall a :: a in views ==> FanOut(views, es).views[a][GPV] == views[a][GPV]
    decreases |es|
  {
    if es != [] {
      var es' := es[..|es| - 1];
      FanOutViews(views, es');
      var p := FanOut(views, es');
      if p.ok {
        FanStepShape(p.views, es[|es| - 1]);
      }
    }
  }

  /** The fan-out completes exactly when every reported battery has a node and a usable last telemetry. */
  lemma {:induction false} FanOutOk(views: map<string, Drivers>, es: seq<StorageBattery>)
    requires BatteryViews(views)
    ensures FanOut(views, es).ok <==> forall k :: 0 <= k < |es| && es[k].telemetryCount > 0 ==>
      NodeAddress(es[k].serialNumber) in views && !EntryRaises(es[k])
    decreases |es|
  {
    if es != [] {
      var es' := es[..|es| - 1];
      FanOutOk(views, es');
      FanOutViews(views, es');
      assert forall k :: 0 <= k < |es'| ==> es'[k] == es[k];
      var p := FanOut(views, es');
      if p.ok {
        FanStepShape(p.views, es[|es| - 1]);
      }
    }
  }

  /** A battery node no reporting entry names keeps its drivers. */
  lemma {:induction false} FanOutUntouched(views: map<string, Drivers>, es: seq<StorageBattery>, a: string)
    requires a in views
    requires forall k :: 0 <= k < |es| ==> !Reports(es[k], a)
    ensures a in FanOut(views, es).views && FanOut(views, es).views[a] == views[a]
    decreases |es|
  {
    if es != [] {
      FanOutUntouched(views, es[..|es| - 1], a);
    }
  }

  /** Entry k is the last one reporting for the battery node at address a. */
  predicate LastReport(es: seq<StorageBattery>, a: string, k: int) {
    0 <= k < |es| && Reports(es[k], a) && forall j :: k < j < |es| ==> !Reports(es[j], a)
  }

  /**
   * After a fan-out that completes, a battery node whose last report carries
   * telemetries shows that list's last power and rounded charge level, and keeps its
   * capacity.
   */
  lemma {:induction false} FanOutLatest(views: map<string, Drivers>, es: seq<StorageBattery>, a: string, k: int)
    requires BatteryViews(views) && a in views
    requires FanOut(views, es).ok
    requires LastReport(es, a, k)
    requires es[k].telemetries.Some? && es[k].telemetries.value != []
    ensures a in FanOut(views, es).views
    ensures var t := es[k].telemetries.value[|es[k].telemetries.value| - 1];
      t.power.Some? && t.batteryPercentageState.Num? &&
      FanOut(views, es).views[a] ==
        views[a][ST := t.power.value][BATLVL := Round(t.batteryPercentageState.x, 1)]
    decreases |es|
  {
    if k == |es| - 1 {
      FanOutLastEntry(views, es, a);
    } else {
      var es' := es[..|es| - 1];
      FanOutLastOther(views, es, a);
      assert es'[k] == es[k];
      assert LastReport(es', a, k);
      FanOutLatest(views, es', a, k);
    }
  }

  /** A final entry that does not report for a leaves a's view where the earlier ones left it. */
  lemma FanOutLastOther(views: map<string, Drivers>, es: seq<StorageBattery>, a: string)
    requires BatteryViews(views) && a in views
    requires es != [] && FanOut(views, es).ok && !Reports(es[|es| - 1], a)
    ensures FanOut(views, es[..|es| - 1]).ok
    ensures a in FanOut(views, es[..|es| - 1]).views
    ensures a in FanOut(views, es).views
    ensures FanOut(views, es).views[a] == FanOut(views, es[..|es| - 1]).views[a]
  {
    var p := FanOut(views, es[..|es| - 1]);
    FanOutViews(views, es[..|es| - 1]);
    assert p.ok && FanOut(views, es) == FanStep(p.views, es[|es| - 1]);
    FanStepOther(p.views, es[|es| - 1], a);
  }

  /** The case of FanOutLatest where a's last report is the final entry. */
  lemma FanOutLastEntry(views: map<string, Drivers>, es: seq<StorageBattery>, a: string)
    requires BatteryViews(views) && a in views
    requires es != [] && FanOut(views, es).ok && Reports(es[|es| - 1], a)
    requires es[|es| - 1].telemetries.Some? && es[|es| - 1].telemetries.value != []
    ensures a in FanOut(views, es).views
    ensures var ts := es[|es| - 1].telemetries.value;
      var t := ts[|ts| - 1];
      t.power.Some? && t.batteryPercentageState.Num? &&
      FanOut(views, es).views[a] ==
        views[a][ST := t.power.value][BATLVL := Round(t.batteryPercentageState.x, 1)]
  {
    var es' := es[..|es| - 1];
    var e := es[|es| - 1];
    var p := FanOut(views, es');
    FanOutViews(views, es');
    assert p.ok && FanOut(views, es) == FanStep(p.views, e);
    var t := e.telemetries.value[|e.telemetries.value| - 1];
    FanStepLatest(p.views, e, a);
    SameBattery(p.views[a], views[a], t.power.value, Round(t.batteryPercentageState.x, 1));
  }

  /** The step for a's report sets ST and BATLVL from the last telemetry. */
  lemma FanStepLatest(views: map<string, Drivers>, e: StorageBattery, a: string)
    requires a in views && Reports(e, a) && FanStep(views, e).ok
    requires e.telemetries.Some? && e.telemetries.value != []
    ensures a in FanStep(views, e).views
    ensures var t := e.telemetries.value[|e.telemetries.value| - 1];
      t.power.Some? && t.batteryPercentageState.Num? &&
      FanStep(views, e).views[a] ==
        views[a][ST := t.power.value][BATLVL := Round(t.batteryPercentageState.x, 1)]
  {
  }

  /** A step for another battery leaves a's view alone. */
  lemma FanStepOther(views: map<string, Drivers>, e: StorageBattery, a: string)
    requires a in views && !Reports(e, a)
    ensures a in FanStep(views, e).views && FanStep(views, e).views[a] == views[a]
  {
  }

  /** Two battery views that agree on the capacity agree once ST and BATLVL are set. */
  lemma SameBattery(d1: Drivers, d2: Drivers, power: Fixed, level: Fixed)
    requires d1.Keys == d2.Keys == BatteryDrivers && d1[GPV] == d2[GPV]
    ensures d1[ST := power][BATLVL := level] == d2[ST := power][BATLVL := level]
  {
  }

  /** A fan-out that raised at entry i goes no further. */
  lemma {:induction false} FanOutStops(views: map<string, Drivers>, es: seq<StorageBattery>, i: nat)
    requires i <= |es|
    requires !FanOut(views, es[..i]).ok
    ensures FanOut(views, es) == FanOut(views, es[..i])
    decreases |es| - i
  {
    if i < |es| {
      assert es[..i + 1][..i] == es[..i];
      FanOutStops(views, es, i + 1);
    } else {
      assert es[..i] == es;
    }
  }

  // ---------------------------------------------------------------------------
  // Power mapping

  /** The state a site update reads and writes. */
  datatype SiteState = SiteState(drivers: Drivers, lastProduction: Fixed, lastConsumption: Fixed, lastDate: int)

  /** The meter loop's state: the site, `datapoint_changed`, and false once it raised. */
  datatype SiteScan = SiteScan(st: SiteState, changed: bool, ok: bool)

  /** The change check against `last_production` / `last_consumption`. */
  function Track(s: SiteScan, m: Meter): SiteScan {
    match SampleValue(m, 1)
    case None => s
    case Some(x) =>
      var v := Round(x, 3);
      if m.mtype == Production && v != s.st.lastProduction then
        s.(st := s.st.(lastProduction := v), changed := true)
      else if m.mtype == Consumption && v != s.st.lastConsumption then
        s.(st := s.st.(lastConsumption := v), changed := true)
      else s
  }

  /** One pass of `for meter in power_data['powerDetails']['meters']`. */
  function SiteMeterStep(s: SiteScan, m: Meter, now: int): SiteScan {
    match MapChannel(s.st.drivers, m, 1, Round3)
    case Skipped => s
    case Raised(d) => s.(st := s.st.(drivers := d), ok := false)
    case Passed(d) =>
      var t := Track(s, m);
      var last := if t.changed then now else t.st.lastDate;
      t.(st := t.st.(drivers := d[GV4 := LastMinute(now, last)], lastDate := last))
  }

  function ScanSite(s: SiteScan, ms: seq<Meter>, now: int): SiteScan
    decreases |ms|
  {
    if ms == [] then s
    else
      var p := ScanSite(s, ms[..|ms| - 1], now);
      if !p.ok then p else SiteMeterStep(p, ms[|ms| - 1], now)
  }

  /** Everything after the storage fan-out: the zero fallback or the meter loop. */
  function PowerUpdate(st: SiteState, power: Response<seq<Meter>>, now: int): SiteScan {
    match power
    case NoResponse =>
      SiteScan(st.(drivers := st.drivers[ST := 0][GV0 := 0][GV1 := 0][GV2 := 0][GV3 := 0][GV4 := 0]), false, true)
    case Malformed => SiteScan(st, false, false)
    case Body(ms) => ScanSite(SiteScan(st, false, true), ms, now)
  }

  /** A failed power request zeroes all six drivers and leaves `last_date` alone. */
  lemma NoResponseZeroes(st: SiteState, now: int)
    requires st.drivers.Keys == SiteDrivers
    ensures var r := PowerUpdate(st, NoResponse, now).st;
      r.drivers.Keys == SiteDrivers && (forall c :: c in SiteDrivers ==> r.drivers[c] == 0)
      && r.lastDate == st.lastDate && r.lastProduction == st.lastProduction
      && r.lastConsumption == st.lastConsumption
  {
  }

  /** A meter loop that raised at meter i goes no further. */
  lemma {:induction false} ScanSiteStops(s: SiteScan, ms: seq<Meter>, now: int, i: nat)
    requires i <= |ms|
    requires !ScanSite(s, ms[..i], now).ok
    ensures ScanSite(s, ms, now) == ScanSite(s, ms[..i], now)
    decreases |ms| - i
  {
    if i < |ms| {
      assert ms[..i + 1][..i] == ms[..i];
      ScanSiteStops(s, ms, now, i + 1);
    } else {
      assert ms[..i] == ms;
    }
  }

  /**
   * On the five meter drivers the site's loop does exactly what the shared
   * meter table does with the last sample rounded to three places; it raises exactly
   * when that does.
   */
  lemma {:induction false} ScanSiteChannels(s: SiteScan, ms: seq<Meter>, now: int)
    requires s.ok && s.st.drivers.Keys == SiteDrivers
    ensures ScanSite(s, ms, now).st.drivers.Keys == SiteDrivers
    ensures ChannelScan(s.st.drivers, ms, 1, Round3).drivers.Keys == SiteDrivers
    ensures ScanSite(s, ms, now).ok == ChannelScan(s.st.drivers, ms, 1, Round3).ok
    ensures forall d :: d in MeterDrivers ==>
      ScanSite(s, ms, now).st.drivers[d] == ChannelScan(s.st.drivers, ms, 1, Round3).drivers[d]
    decreases |ms|
  {
    ChannelScanOk(s.st.drivers, ms, 1, Round3);
    if ms != [] {
      var ms' := ms[..|ms| - 1];
      var m := ms[|ms| - 1];
      ScanSiteChannels(s, ms', now);
      ChannelScanOk(s.st.drivers, ms', 1, Round3);
      var p := ScanSite(s, ms', now);
      var q := ChannelScan(s.st.drivers, ms', 1, Round3);
      if p.ok {
        MapChannelEffect(p.st.drivers, m, 1, Round3);
        MapChannelEffect(q.drivers, m, 1, Round3);
      }
    }
  }

  /**
   * After a meter loop that completes, each of ST and GV0..GV3 holds the rounded
   * last sample of the last meter of its type that has one (0 for an empty sample),
   * and keeps its value when no meter of its type does.
   */
  lemma SiteMeterDrivers(st: SiteState, ms: seq<Meter>, now: int, c: Driver)
    requires st.drivers.Keys == SiteDrivers && c in MeterDrivers
    requires forall k :: 0 <= k < |ms| ==> !RaisesAt(ms[k], 1)
    ensures PowerUpdate(st, Body(ms), now).st.drivers.Keys == SiteDrivers
    ensures var r := PowerUpdate(st, Body(ms), now);
      && r.ok
      && ((forall k :: 0 <= k < |ms| ==> Effect(ms[k], c, 1, Round3).None?) ==> r.st.drivers[c] == st.drivers[c])
      && (forall k :: LastWriter(ms, c, 1, Round3, k) ==> r.st.drivers[c] == Effect(ms[k], c, 1, Round3).value)
  {
    ScanSiteChannels(SiteScan(st, false, true), ms, now);
    ChannelScanValues(st.drivers, ms, 1, Round3, c);
  }

  /** Mapping the same power payload twice leaves the five meter drivers as once does. */
  lemma SiteMeterDriversIdempotent(st: SiteState, ms: seq<Meter>, now: int)
    requires st.drivers.Keys == SiteDrivers
    requires forall k :: 0 <= k < |ms| ==> !RaisesAt(ms[k], 1)
    ensures PowerUpdate(st, Body(ms), now).st.drivers.Keys == SiteDrivers
    ensures PowerUpdate(PowerUpdate(st, Body(ms), now).st, Body(ms), now).st.drivers.Keys == SiteDrivers
    ensures var once := PowerUpdate(st, Body(ms), now).st;
      var twice := PowerUpdate(once, Body(ms), now).st;
      forall c :: c in MeterDrivers ==> twice.drivers[c] == once.drivers[c]
  {
    var once := PowerUpdate(st, Body(ms), now).st;
    ScanSiteChannels(SiteScan(st, false, true), ms, now);
    ScanSiteChannels(SiteScan(once, false, true), ms, now);
    ChannelScanIdempotent(st.drivers, ms, 1, Round3);
    var c1 := ChannelScan(st.drivers, ms, 1, Round3).drivers;
    forall c | c in MeterDrivers
      ensures PowerUpdate(once, Body(ms), now).st.drivers[c] == once.drivers[c]
    {
      ChannelScanOk(st.drivers, ms, 1, Round3);
      ChannelScanValues(once.drivers, ms, 1, Round3, c);
      ChannelScanValues(c1, ms, 1, Round3, c);
      ChannelScanValues(st.drivers, ms, 1, Round3, c);
      if exists k :: LastWriter(ms, c, 1, Round3, k) {
        var k :| LastWriter(ms, c, 1, Round3, k);
      } else {
        LastWriterExists(ms, c, 1, Round3);
      }
    }
  }

  /** Meter m's reading agrees with the cached production and consumption in st. */
  predicate Agrees(m: Meter, st: SiteState) {
    match SampleValue(m, 1)
    case None => true
    case Some(x) =>
      (m.mtype == Production ==> Round(x, 3) == st.lastProduction)
      && (m.mtype == Consumption ==> Round(x, 3) == st.lastConsumption)
  }

  /**
   * Change tracking: `last_date` becomes now exactly when a production or consumption
   * reading differed from the cache; the cache only moves then; and a payload whose
   * readings all agree with the cache moves nothing.
   */
  lemma {:induction false} SiteChangeTracking(s: SiteScan, ms: seq<Meter>, now: int)
    requires s.ok && !s.changed
    ensures var r := ScanSite(s, ms, now);
      && (r.changed ==> r.st.lastDate == now)
      && (!r.changed ==> r.st.lastDate == s.st.lastDate
                         && r.st.lastProduction == s.st.lastProduction
                         && r.st.lastConsumption == s.st.lastConsumption)
      && ((forall k :: 0 <= k < |ms| ==> Agrees(ms[k], s.st)) ==> !r.changed)
    decreases |ms|
  {
    if ms != [] {
      var ms' := ms[..|ms| - 1];
      assert forall k :: 0 <= k < |ms'| ==> ms'[k] == ms[k];
      SiteChangeTracking(s, ms', now);
    }
  }

  /**
   * The other half of change tracking: in a loop that completes, a production or
   * consumption reading that differs from the cache marks the update as changed,
   * so `last_date` ends at now.
   */
  lemma {:induction false} SiteChangeDetected(s: SiteScan, ms: seq<Meter>, now: int, k: int)
    requires s.ok && !s.changed && 0 <= k < |ms|
    requires ScanSite(s, ms, now).ok
    requires !Agrees(ms[k], s.st)
    ensures ScanSite(s, ms, now).changed && ScanSite(s, ms, now).st.lastDate == now
    decreases |ms|
  {
    var ms' := ms[..|ms| - 1];
    var p := ScanSite(s, ms', now);
    assert p.ok;
    if k < |ms| - 1 {
      assert ms'[k] == ms[k];
      SiteChangeDetected(s, ms', now, k);
    } else if !p.changed {
      SiteChangeTracking(s, ms', now);
    }
    SiteChangeTracking(s, ms, now);
  }

  /** Purchased, SelfConsumption, FeedIn and unknown meters never move `last_date`. */
  lemma OtherMetersKeepLastDate(st: SiteState, ms: seq<Meter>, now: int)
    requires forall k :: 0 <= k < |ms| ==> ms[k].mtype != Production && ms[k].mtype != Consumption
    ensures PowerUpdate(st, Body(ms), now).st.lastDate == st.lastDate
  {
    SiteChangeTracking(SiteScan(st, false, true), ms, now);
  }

  /** Meter m is a recognised one with no samples, which the loop skips with `continue`. */
  predicate SkippedMeter(m: Meter) {
    ChannelOf(m.mtype).Some? && m.values == []
  }

  /**
   * GV4: after a loop that completes, it shows the minutes since the final `last_date`
   * when any meter got past the sample lookup; when every meter was skipped the site
   * is left exactly as it was.
   */
  lemma {:induction false} SiteElapsedDriver(s: SiteScan, ms: seq<Meter>, now: int)
    requires s.ok && GV4 in s.st.drivers
    requires ScanSite(s, ms, now).ok
    ensures var r := ScanSite(s, ms, now);
      && GV4 in r.st.drivers
      && ((exists k :: 0 <= k < |ms| && !SkippedMeter(ms[k])) ==> r.st.drivers[GV4] == LastMinute(now, r.st.lastDate))
      && ((forall k :: 0 <= k < |ms| ==> SkippedMeter(ms[k])) ==> r == s)
    decreases |ms|
  {
    if ms != [] {
      var ms' := ms[..|ms| - 1];
      var m := ms[|ms| - 1];
      assert forall k :: 0 <= k < |ms'| ==> ms'[k] == ms[k];
      assert ScanSite(s, ms', now).ok;
      SiteElapsedDriver(s, ms', now);
      if !SkippedMeter(m) {
        assert ScanSite(s, ms, now).st.drivers[GV4] == LastMinute(now, ScanSite(s, ms, now).st.lastDate);
      } else {
        assert ScanSite(s, ms, now) == ScanSite(s, ms', now);
        if exists k :: 0 <= k < |ms| && !SkippedMeter(ms[k]) {
          var k :| 0 <= k < |ms| && !SkippedMeter(ms[k]);
          assert k < |ms'| && !SkippedMeter(ms'[k]);
        }
      }
    }
  }

  // ---------------------------------------------------------------------------
  // Battery node registry

  /** The host's battery nodes by address: each valid, no node under two addresses. */
  ghost predicate Registry(nodes: map<string, Battery>)
    reads nodes.Values
  {
    && (forall a :: a in nodes ==> nodes[a].Valid())
    && (forall a, b :: a in nodes && b in nodes && a != b ==> nodes[a] != nodes[b])
  }

  /** The battery nodes' drivers, by address. */
  function Views(nodes: map<string, Battery>): map<string, Drivers>
    reads nodes.Values
  {
    map a | a in nodes :: nodes[a].drivers
  }

  lemma RegistryViews(nodes: map<string, Battery>)
    requires Registry(nodes)
    ensures BatteryViews(Views(nodes))
  {
  }

  /** `self.getNode(address).updateData(...)` on a registered battery node. */
  method Deliver(nodes: map<string, Battery>, a: string, batt: Option<seq<BatteryTelemetry>>)
    returns (raised: bool)
    requires Registry(nodes) && a in nodes
    modifies nodes[a]
    ensures Registry(nodes)
    ensures Outcome(Views(nodes)[a], raised) == BatteryData(old(Views(nodes))[a], batt)
    ensures Views(nodes) == old(Views(nodes))[a := Views(nodes)[a]]
  {
    ghost var before := Views(nodes);
    var node := nodes[a];
    raised := node.UpdateData(batt);
    assert forall b :: b in nodes && b != a ==> nodes[b] != node;
    assert Views(nodes) == before[a := node.drivers];
  }

  /** The fan-out loop: hand each reporting battery's telemetries to its node. */
  method FanOutStorage(storage: Response<seq<StorageBattery>>, nodes: map<string, Battery>) returns (ok: bool)
    requires Registry(nodes)
    modifies nodes.Values
    ensures Registry(nodes)
    ensures Fan(Views(nodes), ok) == FanOutResponse(old(Views(nodes)), storage)
  {
    if !storage.Body? {
      return false;
    }
    var es := storage.body;
    ghost var start := Views(nodes);
    var i := 0;
    while i < |es|
      invariant 0 <= i <= |es|
      invariant Registry(nodes)
      invariant FanOut(start, es[..i]) == Fan(Views(nodes), true)
    {
      var e := es[i];
      assert es[..i + 1][..i] == es[..i];
      ghost var step := FanStep(Views(nodes), e);
      assert FanOut(start, es[..i + 1]) == step;
      if e.telemetryCount > 0 {
        var a := NodeAddress(e.serialNumber);
        if a !in nodes {
          FanOutStops(start, es, i + 1);
          return false;
        }
        var raised := Deliver(nodes, a, e.telemetries);
        assert Fan(Views(nodes), !raised) == step;
        if raised {
          FanOutStops(start, es, i + 1);
          return false;
        }
      }
      i := i + 1;
    }
    assert es[..i] == es;
    ok := true;
  }

  // ---------------------------------------------------------------------------
  // The node

  class Site {
    const address: string
    const rate: Fixed
    var batteries: seq<string>
    var drivers: Drivers
    var lastProduction: Fixed
    var lastConsumption: Fixed
    var lastDate: int

    ghost predicate Valid()
      reads this
    {
      drivers.Keys == SiteDrivers
    }

    function State(): SiteState
      reads this
    {
      SiteState(drivers, lastProduction, lastConsumption, lastDate)
    }

    constructor (address: string, lastProduction: Fixed, lastConsumption: Fixed, lastDate: int, rate: Fixed)
      ensures Valid()
      ensures this.address == address && this.rate == rate && batteries == []
      ensures forall c :: c in SiteDrivers ==> drivers[c] == 0
      ensures this.lastProduction == lastProduction && this.lastConsumption == lastConsumption
      ensures this.lastDate == lastDate
    {
      this.address := address;
      this.rate := rate;
      batteries := [];
      drivers := map[ST := 0, GV0 := 0, GV1 := 0, GV2 := 0, GV3 := 0, GV4 := 0];
      this.lastProduction := lastProduction;
      this.lastConsumption := lastConsumption;
      this.lastDate := lastDate;
    }

    /** Discovery's `getNode(address).batteries.append(batt_sn)`. */
    method AddBattery(serial: string)
      modifies this
      ensures batteries == old(batteries) + [serial]
      ensures State() == old(State())
    {
      batteries := batteries + [serial];
    }

    /** One pass of the meter loop; `ok` is false when it raised. */
    method MapMeter(m: Meter, now: int, changed: bool) returns (changed': bool, ok: bool)
      requires Valid()
      modifies this
      ensures Valid() && batteries == old(batteries)
      ensures SiteScan(State(), changed', ok) == SiteMeterStep(SiteScan(old(State()), changed, true), m, now)
    {
      changed', ok := changed, true;
      var channel := ChannelOf(m.mtype);
      if channel.Some? {
        if |m.values| == 0 {
          return;  // `continue`: GV4 is not touched either
        }
        var c := channel.value;
        var datapoint := m.values[|m.values| - 1];
        if datapoint.IsEmpty() {
          drivers := drivers[c := 0];
        }
        match datapoint.value {
          case Absent =>
          case Null =>
            ok := false;
            return;
          case Num(x) =>
            var v := Round(x, 3);
            if m.mtype == Production && v != lastProduction {
              changed' := true;
              lastProduction := v;
            } else if m.mtype == Consumption && v != lastConsumption {
              changed' := true;
              lastConsumption := v;
            }
            drivers := drivers[c := v];
        }
      }
      if changed' {
        lastDate := now;
      }
      drivers := drivers[GV4 := LastMinute(now, lastDate)];
    }

    /** The meter loop over a power response. */
    method MapMeters(ms: seq<Meter>, now: int)
      requires Valid()
      modifies this
      ensures Valid() && batteries == old(batteries)
      ensures State() == ScanSite(SiteScan(old(State()), false, true), ms, now).st
    {
      ghost var s0 := SiteScan(State(), false, true);
      var changed := false;
      var i := 0;
      while i < |ms|
        invariant 0 <= i <= |ms|
        invariant Valid() && batteries == old(batteries)
        invariant ScanSite(s0, ms[..i], now) == SiteScan(State(), changed, true)
      {
        assert ms[..i + 1][..i] == ms[..i];
        var ok;
        changed, ok := MapMeter(ms[i], now, changed);
        if !ok {
          ScanSiteStops(s0, ms, now, i + 1);
          return;
        }
        i := i + 1;
      }
      assert ms[..i] == ms;
    }

    /** Everything after the fan-out: zero on a failed request, raise on a malformed one. */
    method MapPower(power: Response<seq<Meter>>, now: int, ghost nodes: map<string, Battery>)
      requires Valid()
      modifies this
      ensures Valid() && batteries == old(batteries)
      ensures State() == PowerUpdate(old(State()), power, now).st
      ensures Views(nodes) == old(Views(nodes))
    {
      match power {
        case NoResponse =>
          drivers := drivers[ST := 0][GV0 := 0][GV1 := 0][GV2 := 0][GV3 := 0][GV4 := 0];
        case Malformed =>
        case Body(ms) =>
          MapMeters(ms, now);
      }
    }

    /** The due branch: the storage fan-out, then the power mapping unless it raised. */
    method Fetch(now: int, power: Response<seq<Meter>>, storage: Response<seq<StorageBattery>>,
                 nodes: map<string, Battery>)
      returns (requests: seq<Request>)
      requires Valid() && Registry(nodes)
      modifies this, nodes.Values
      ensures Valid() && Registry(nodes)
      ensures batteries == old(batteries)
      ensures requests == SiteRequests(address, batteries, true)
      ensures var fan := if batteries == [] then Fan(old(Views(nodes)), true)
                         else FanOutResponse(old(Views(nodes)), storage);
        && Views(nodes) == fan.views
        && State() == (if fan.ok then PowerUpdate(old(State()), power, now).st else old(State()))
    {
      requests := [PowerDetails(address)];
      if |batteries| > 0 {
        requests := requests + [StorageData(address, JoinSerials(batteries))];
        var ok := FanOutStorage(storage, nodes);
        if !ok {
          return;
        }
      }
      MapPower(power, now, nodes);
    }

    /**
     * `updateInfo(poll_flag)`. The responses to the two requests are parameters;
     * `requests` lists the requests made. A long poll does nothing; a node that is not
     * due only refreshes GV4; a due node fans the storage data out first, and a fan-out
     * that raises ends the update before any power mapping.
     */
    method UpdateInfo(pollFlag: string, now: int, power: Response<seq<Meter>>,
                      storage: Response<seq<StorageBattery>>, nodes: map<string, Battery>)
      returns (requests: seq<Request>)
      requires Valid() && Registry(nodes)
      modifies this, nodes.Values
      ensures Valid() && Registry(nodes)
      ensures batteries == old(batteries)
      ensures requests ==
        SiteRequests(address, batteries, pollFlag != LongPoll && IsDue(now, old(lastDate), rate))
      ensures pollFlag == LongPoll ==> State() == old(State()) && Views(nodes) == old(Views(nodes))
      ensures pollFlag != LongPoll && !IsDue(now, old(lastDate), rate) ==>
        && State() == old(State()).(drivers := old(drivers)[GV4 := LastMinute(now, old(lastDate))])
        && Views(nodes) == old(Views(nodes))
      ensures pollFlag != LongPoll && IsDue(now, old(lastDate), rate) ==>
        var fan := if batteries == [] then Fan(old(Views(nodes)), true)
                   else FanOutResponse(old(Views(nodes)), storage);
        && Views(nodes) == fan.views
        && State() == (if fan.ok then PowerUpdate(old(State()), power, now).st else old(State()))
    {
      requests := [];
      if pollFlag == LongPoll {
        return;
      }
      var lastMinute := LastMinute(now, lastDate);
      if !Due(lastMinute, rate) {
        ghost var views := Views(nodes);
        drivers := drivers[GV4 := lastMinute];
        assert Views(nodes) == views;
        return;
      }
      requests := Fetch(now, power, storage, nodes);
    }
  }
}
