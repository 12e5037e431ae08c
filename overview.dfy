/**
 * The production overview node: lifetime, year, month and day energy in kilo-units
 * and the current power. Its poll-flag guard compares with "ShortPoll", a flag the
 * host never sends, so it runs on short and long polls alike.
 */
module OverviewNode {
  import opened Wrappers
  import opened FixedPoint
  import opened Payload
  import opened Channels
  import opened Gate

  /** The drivers an overview node declares. */
  const OverviewDrivers: set<Driver> := {ST, GV0, GV1, GV2, GV3}

  /** The flag the overview's guard skips on. */
  const SkippedFlag: string := "ShortPoll"

  /** `setDriver(c, round(f / 1000, 1))` after attempt a, unless a already raised. */
  function ThenKilo(a: Attempt, c: Driver, f: Field): (r: Attempt)
    ensures r.completed <==> a.completed && f.Num?
    ensures !a.completed ==> r == a
  {
    if !a.completed then a
    else if f.Num? then Attempt(a.drivers[c := KiloRound(f.x)], true)
    else Attempt(a.drivers, false)
  }

  /**
   * A due update of the overview node. The current power is read first (for the log
   * line), so a missing one raises before any write; the four energies follow, and
   * the power is written last.
   */
  function OverviewUpdate(d: Drivers, response: Response<Overview>): (a: Attempt)
    ensures !response.Body? ==> a == Attempt(d, false)
  {
    match response
    case NoResponse => Attempt(d, false)
    case Malformed => Attempt(d, false)
    case Body(o) =>
      match o.currentPower
      case None => Attempt(d, false)
      case Some(power) =>
        var a1 := ThenKilo(Attempt(d, true), ST, o.lifeTimeEnergy);
        var a2 := ThenKilo(a1, GV0, o.lastYearEnergy);
        var a3 := ThenKilo(a2, GV1, o.lastMonthEnergy);
        var a4 := ThenKilo(a3, GV2, o.lastDayEnergy);
        if a4.completed then Attempt(a4.drivers[GV3 := power], true) else a4
  }

  /**
   * The update runs to its end exactly when the response carries the current power
   * and four numeric energies; it then shows each energy rounded to a tenth of a
   * kilo-unit, the power as given, and nothing else changes.
   */
  lemma OverviewMapping(d: Drivers, o: Overview)
    ensures var a := OverviewUpdate(d, Body(o));
      && (a.completed <==>
            o.currentPower.Some? && o.lifeTimeEnergy.Num? && o.lastYearEnergy.Num?
            && o.lastMonthEnergy.Num? && o.lastDayEnergy.Num?)
      && (a.completed ==>
            a.drivers == d[ST := KiloRound(o.lifeTimeEnergy.x)]
                          [GV0 := KiloRound(o.lastYearEnergy.x)]
                          [GV1 := KiloRound(o.lastMonthEnergy.x)]
                          [GV2 := KiloRound(o.lastDayEnergy.x)]
                          [GV3 := o.currentPower.value])
  {
  }

  /**
   * An update that raises part-way keeps the energies written before the first one
   * that is not a number, and writes neither later energies nor the power; a missing
   * current power raises before any write.
   */
  lemma OverviewRaised(d: Drivers, o: Overview)
    ensures o.currentPower.None? ==> OverviewUpdate(d, Body(o)) == Attempt(d, false)
    ensures o.currentPower.Some? && !o.lifeTimeEnergy.Num? ==> OverviewUpdate(d, Body(o)) == Attempt(d, false)
    ensures o.currentPower.Some? && o.lifeTimeEnergy.Num? && !o.lastYearEnergy.Num? ==>
      OverviewUpdate(d, Body(o)) == Attempt(d[ST := KiloRound(o.lifeTimeEnergy.x)], false)
    ensures o.currentPower.Some? && o.lifeTimeEnergy.Num? && o.lastYearEnergy.Num?
            && !o.lastMonthEnergy.Num? ==>
      OverviewUpdate(d, Body(o)) == Attempt(d[ST := KiloRound(o.lifeTimeEnergy.x)]
                                             [GV0 := KiloRound(o.lastYearEnergy.x)], false)
    ensures o.currentPower.Some? && o.lifeTimeEnergy.Num? && o.lastYearEnergy.Num?
            && o.lastMonthEnergy.Num? && !o.lastDayEnergy.Num? ==>
      OverviewUpdate(d, Body(o)) == Attempt(d[ST := KiloRound(o.lifeTimeEnergy.x)]
                                             [GV0 := KiloRound(o.lastYearEnergy.x)]
                                             [GV1 := KiloRound(o.lastMonthEnergy.x)], false)
  {
  }

  /** Every energy the node shows is a whole number of tenths within half a tenth of the reading. */
  lemma OverviewEnergiesInTenths(d: Drivers, o: Overview)
    requires OverviewUpdate(d, Body(o)).completed
    ensures var r := OverviewUpdate(d, Body(o)).drivers;
      && r[ST] % 100_000 == 0 && 2 * Abs(1000 * r[ST] - o.lifeTimeEnergy.x) <= 100_000_000
      && r[GV0] % 100_000 == 0 && 2 * Abs(1000 * r[GV0] - o.lastYearEnergy.x) <= 100_000_000
      && r[GV1] % 100_000 == 0 && 2 * Abs(1000 * r[GV1] - o.lastMonthEnergy.x) <= 100_000_000
      && r[GV2] % 100_000 == 0 && 2 * Abs(1000 * r[GV2] - o.lastDayEnergy.x) <= 100_000_000
  {
    OverviewMapping(d, o);
  }

  /** The guard does not match either flag the host sends. */
  lemma GuardNeverSkips()
    ensures ShortPoll != SkippedFlag && LongPoll != SkippedFlag
  {
    assert ShortPoll[0] != SkippedFlag[0];
    assert LongPoll[0] != SkippedFlag[0];
  }

  class ProductionOverview {
    const address: string
    const rate: Fixed
    var drivers: Drivers
    var lastDate: int

    ghost predicate Valid()
      reads this
    {
      drivers.Keys == OverviewDrivers
    }

    constructor (address: string, lastDate: int, rate: Fixed)
      ensures Valid()
      ensures this.address == address && this.rate == rate && this.lastDate == lastDate
      ensures forall c :: c in OverviewDrivers ==> drivers[c] == 0
    {
      this.address := address;
      this.rate := rate;
      drivers := map[ST := 0, GV0 := 0, GV1 := 0, GV2 := 0, GV3 := 0];
      this.lastDate := lastDate;
    }

    /** One energy line; `ok` is false when it raised. */
    method PutKilo(c: Driver, f: Field) returns (ok: bool)
      requires Valid() && c in OverviewDrivers
      modifies this
      ensures Valid() && lastDate == old(lastDate)
      ensures Attempt(drivers, ok) == ThenKilo(Attempt(old(drivers), true), c, f)
    {
      ok := f.Num?;
      if ok {
        drivers := drivers[c := KiloRound(f.x)];
      }
    }

    /** The mapping of a response, up to the first line that raises. */
    method Map(response: Response<Overview>) returns (completed: bool)
      requires Valid()
      modifies this
      ensures Valid() && lastDate == old(lastDate)
      ensures Attempt(drivers, completed) == OverviewUpdate(old(drivers), response)
    {
      completed := false;
      if !response.Body? {
        return;
      }
      var o := response.body;
      if o.currentPower.None? {
        return;
      }
      var ok := PutKilo(ST, o.lifeTimeEnergy);
      if !ok { return; }
      ok := PutKilo(GV0, o.lastYearEnergy);
      if !ok { return; }
      ok := PutKilo(GV1, o.lastMonthEnergy);
      if !ok { return; }
      ok := PutKilo(GV2, o.lastDayEnergy);
      if !ok { return; }
      drivers := drivers[GV3 := o.currentPower.value];
      completed := true;
    }

    /**
     * `updateInfo(poll_flag)`; the response to the overview request is a parameter
     * and `fetched` says whether it was made. `last_date` moves to now only when the
     * mapping ran to its end.
     */
    method UpdateInfo(pollFlag: string, now: int, response: Response<Overview>) returns (fetched: bool)
      requires Valid()
      modifies this
      ensures Valid()
      ensures fetched <==> pollFlag != SkippedFlag && IsDue(now, old(lastDate), rate)
      ensures !fetched ==> drivers == old(drivers) && lastDate == old(lastDate)
      ensures fetched ==>
        var a := OverviewUpdate(old(drivers), response);
        drivers == a.drivers && lastDate == (if a.completed then now else old(lastDate))
    {
      fetched := false;
      if pollFlag == SkippedFlag {
        return;
      }
      var lastMinute := LastMinute(now, lastDate);
      if !Due(lastMinute, rate) {
        return;
      }
      fetched := true;
      var completed := Map(response);
      if completed {
        lastDate := now;
      }
    }
  }
}
