/**
 * The inverter node: when due it asks for the inverter's telemetry and maps the
 * newest telemetry's single-phase block onto its nine drivers, one line after the
 * other; `last_date` moves only when every line ran.
 */
module InverterNode {
  import opened Wrappers
  import opened FixedPoint
  import opened Payload
  import opened Channels
  import opened Gate

  /** The drivers an inverter node declares. */
  const InverterDrivers: set<Driver> := {ST, GV0, CPW, CLITEMP, CV, GV1, GV2, GV3, GV4}

  /** GV4's code for `inverterMode`: 2 for MPPT, 1 for STARTING, 0 for anything else. */
  function ModeCode(mode: string): (code: Fixed)
    ensures code == 2 * One <==> mode == "MPPT"
    ensures code == One <==> mode == "STARTING"
    ensures code == 0 <==> mode != "MPPT" && mode != "STARTING"
  {
    if mode == "MPPT" then 2 * One else if mode == "STARTING" then One else 0
  }

  /** How a line of the mapping treats the field it reads. */
  datatype Presence =
    | Required      // `float(data[k])`: a missing or null field raises
    | ZeroIfAbsent  // `if k in data['L1Data']: ... else: setDriver(c, 0)`; null raises
    | SkipIfNull    // `if data[k] is not None: ...`; a missing field raises

  /** One `setDriver(c, round(float(f), places))` line. */
  datatype Line = Line(c: Driver, f: Field, presence: Presence, places: nat)

  /** One line: the new drivers, or None when it raised. */
  function LineStep(d: Drivers, l: Line): (r: Option<Drivers>)
    requires l.places <= Places
    ensures r.Some? <==>
      l.f.Num? || (l.f.Absent? && l.presence == ZeroIfAbsent) || (l.f.Null? && l.presence == SkipIfNull)
  {
    match l.f
    case Num(x) => Some(d[l.c := Round(x, l.places)])
    case Absent => if l.presence == ZeroIfAbsent then Some(d[l.c := 0]) else None
    case Null => if l.presence == SkipIfNull then Some(d) else None
  }

  /** Run line l after attempt a, unless a already raised. */
  function Then(a: Attempt, l: Line): (r: Attempt)
    requires l.places <= Places
    ensures r.completed <==> a.completed && LineStep(a.drivers, l).Some?
    ensures !a.completed ==> r == a
  {
    if !a.completed then a
    else
      match LineStep(a.drivers, l)
      case None => Attempt(a.drivers, false)
      case Some(d) => Attempt(d, true)
  }

  /** The eight `setDriver` lines of the mapping, in the order the node runs them. */
  function MapLines(d: Drivers, l1: PhaseData, t: InverterTelemetry): Attempt {
    var a1 := Then(Attempt(d, true), Line(ST, l1.activePower, Required, 3));
    var a2 := Then(a1, Line(GV0, l1.reactivePower, ZeroIfAbsent, 3));
    var a3 := Then(a2, Line(CPW, l1.apparentPower, ZeroIfAbsent, 3));
    var a4 := Then(a3, Line(CLITEMP, t.temperature, Required, 3));
    var a5 := Then(a4, Line(CV, l1.acVoltage, Required, 3));
    var a6 := Then(a5, Line(GV1, t.dcVoltage, SkipIfNull, 3));
    var a7 := Then(a6, Line(GV2, l1.acCurrent, Required, 1));
    Then(a7, Line(GV3, l1.acFrequency, Required, 1))
  }

  /** The newest telemetry carries a single-phase block: the mapping starts. */
  predicate Mappable(response: Response<InverterData>) {
    response.Body? && response.body.count >= 1 && response.body.telemetries != []
    && response.body.telemetries[|response.body.telemetries| - 1].l1Data.Some?
  }

  /** A numeric field that may be missing (then 0) but not null. */
  predicate ZeroOrNum(f: Field) {
    !f.Null?
  }

  function ZeroOr(f: Field, places: nat): Fixed
    requires places <= Places
  {
    if f.Num? then Round(f.x, places) else 0
  }

  /** A due update of the inverter node: the lines up to the first that raises, then the mode. */
  function InverterUpdate(d: Drivers, response: Response<InverterData>): (a: Attempt)
    ensures !Mappable(response) ==> a == Attempt(d, false)
  {
    match response
    case NoResponse => Attempt(d, false)
    case Malformed => Attempt(d, false)
    case Body(data) =>
      if data.count < 1 || data.telemetries == [] then Attempt(d, false)
      else
        var t := data.telemetries[|data.telemetries| - 1];
        match t.l1Data
        case None => Attempt(d, false)
        case Some(l1) =>
          var a := MapLines(d, l1, t);
          if !a.completed then a
          else
            match t.inverterMode
            case None => Attempt(a.drivers, false)
            case Some(mode) => Attempt(a.drivers[GV4 := ModeCode(mode)], true)
  }

  /**
   * The mapping. A failed request, a count below one or a telemetry without L1Data
   * changes nothing. Otherwise the update runs to its end exactly when every required
   * field is a number, the optional powers are not null, `dcVoltage` is present and
   * `inverterMode` is present; it then writes the rounded readings, 0 for a missing
   * optional power, keeps GV1 for a null `dcVoltage`, and sets GV4 to the mode's code.
   */
  lemma InverterMapping(d: Drivers, response: Response<InverterData>)
    requires InverterDrivers <= d.Keys && Mappable(response)
    ensures var t := response.body.telemetries[|response.body.telemetries| - 1];
      var l1 := t.l1Data.value;
      var a := InverterUpdate(d, response);
      && (a.completed <==>
            l1.activePower.Num? && ZeroOrNum(l1.reactivePower) && ZeroOrNum(l1.apparentPower)
            && t.temperature.Num? && l1.acVoltage.Num? && !t.dcVoltage.Absent?
            && l1.acCurrent.Num? && l1.acFrequency.Num? && t.inverterMode.Some?)
      && (a.completed ==>
            a.drivers == d[ST := Round(l1.activePower.x, 3)]
                          [GV0 := ZeroOr(l1.reactivePower, 3)]
                          [CPW := ZeroOr(l1.apparentPower, 3)]
                          [CLITEMP := Round(t.temperature.x, 3)]
                          [CV := Round(l1.acVoltage.x, 3)]
                          [GV1 := if t.dcVoltage.Num? then Round(t.dcVoltage.x, 3) else d[GV1]]
                          [GV2 := Round(l1.acCurrent.x, 1)]
                          [GV3 := Round(l1.acFrequency.x, 1)]
                          [GV4 := ModeCode(t.inverterMode.value)])
  {
    var t := response.body.telemetries[|response.body.telemetries| - 1];
    MapLinesMapping(d, t.l1Data.value, t);
  }

  /** The eight lines run to their end exactly when each field suits its line, and then write every reading. */
  lemma MapLinesMapping(d: Drivers, l1: PhaseData, t: InverterTelemetry)
    requires InverterDrivers <= d.Keys
    ensures var a := MapLines(d, l1, t);
      && a.drivers.Keys == d.Keys
      && (a.completed <==>
            l1.activePower.Num? && ZeroOrNum(l1.reactivePower) && ZeroOrNum(l1.apparentPower)
            && t.temperature.Num? && l1.acVoltage.Num? && !t.dcVoltage.Absent?
            && l1.acCurrent.Num? && l1.acFrequency.Num?)
      && (a.completed ==>
            a.drivers == d[ST := Round(l1.activePower.x, 3)]
                          [GV0 := ZeroOr(l1.reactivePower, 3)]
                          [CPW := ZeroOr(l1.apparentPower, 3)]
                          [CLITEMP := Round(t.temperature.x, 3)]
                          [CV := Round(l1.acVoltage.x, 3)]
                          [GV1 := if t.dcVoltage.Num? then Round(t.dcVoltage.x, 3) else d[GV1]]
                          [GV2 := Round(l1.acCurrent.x, 1)]
                          [GV3 := Round(l1.acFrequency.x, 1)])
  {
  }

  /**
   * An update that raises part-way keeps the writes of the lines before the one that
   * raised and makes none after it: one clause per line, each naming the first line
   * whose field does not suit it.
   */
  lemma MapLinesRaised(d: Drivers, l1: PhaseData, t: InverterTelemetry)
    requires InverterDrivers <= d.Keys
    ensures !l1.activePower.Num? ==> MapLines(d, l1, t) == Attempt(d, false)
    ensures l1.activePower.Num? && l1.reactivePower.Null? ==>
      MapLines(d, l1, t) == Attempt(d[ST := Round(l1.activePower.x, 3)], false)
    ensures l1.activePower.Num? && !l1.reactivePower.Null? && l1.apparentPower.Null? ==>
      MapLines(d, l1, t) == Attempt(d[ST := Round(l1.activePower.x, 3)]
                                     [GV0 := ZeroOr(l1.reactivePower, 3)], false)
    ensures l1.activePower.Num? && !l1.reactivePower.Null? && !l1.apparentPower.Null?
            && !t.temperature.Num? ==>
      MapLines(d, l1, t) == Attempt(d[ST := Round(l1.activePower.x, 3)]
                                     [GV0 := ZeroOr(l1.reactivePower, 3)]
                                     [CPW := ZeroOr(l1.apparentPower, 3)], false)
    ensures l1.activePower.Num? && !l1.reactivePower.Null? && !l1.apparentPower.Null?
            && t.temperature.Num? && !l1.acVoltage.Num? ==>
      MapLines(d, l1, t) == Attempt(d[ST := Round(l1.activePower.x, 3)]
                                     [GV0 := ZeroOr(l1.reactivePower, 3)]
                                     [CPW := ZeroOr(l1.apparentPower, 3)]
                                     [CLITEMP := Round(t.temperature.x, 3)], false)
    ensures l1.activePower.Num? && !l1.reactivePower.Null? && !l1.apparentPower.Null?
            && t.temperature.Num? && l1.acVoltage.Num? && t.dcVoltage.Absent? ==>
      MapLines(d, l1, t) == Attempt(d[ST := Round(l1.activePower.x, 3)]
                                     [GV0 := ZeroOr(l1.reactivePower, 3)]
                                     [CPW := ZeroOr(l1.apparentPower, 3)]
                                     [CLITEMP := Round(t.temperature.x, 3)]
                                     [CV := Round(l1.acVoltage.x, 3)], false)
    ensures l1.activePower.Num? && !l1.reactivePower.Null? && !l1.apparentPower.Null?
            && t.temperature.Num? && l1.acVoltage.Num? && !t.dcVoltage.Absent?
            && !l1.acCurrent.Num? ==>
      MapLines(d, l1, t) == Attempt(d[ST := Round(l1.activePower.x, 3)]
                                     [GV0 := ZeroOr(l1.reactivePower, 3)]
                                     [CPW := ZeroOr(l1.apparentPower, 3)]
                                     [CLITEMP := Round(t.temperature.x, 3)]
                                     [CV := Round(l1.acVoltage.x, 3)]
                                     [GV1 := if t.dcVoltage.Num? then Round(t.dcVoltage.x, 3) else d[GV1]], false)
    ensures l1.activePower.Num? && !l1.reactivePower.Null? && !l1.apparentPower.Null?
            && t.temperature.Num? && l1.acVoltage.Num? && !t.dcVoltage.Absent?
            && l1.acCurrent.Num? && !l1.acFrequency.Num? ==>
      MapLines(d, l1, t) == Attempt(d[ST := Round(l1.activePower.x, 3)]
                                     [GV0 := ZeroOr(l1.reactivePower, 3)]
                                     [CPW := ZeroOr(l1.apparentPower, 3)]
                                     [CLITEMP := Round(t.temperature.x, 3)]
                                     [CV := Round(l1.acVoltage.x, 3)]
                                     [GV1 := if t.dcVoltage.Num? then Round(t.dcVoltage.x, 3) else d[GV1]]
                                     [GV2 := Round(l1.acCurrent.x, 1)], false)
  {
  }

  /** A due update that got past the L1Data check and raised leaves what the lines left:
      when all eight ran, a missing `inverterMode` raises after every reading was written. */
  lemma InverterRaised(d: Drivers, response: Response<InverterData>)
    requires InverterDrivers <= d.Keys && Mappable(response)
    ensures var t := response.body.telemetries[|response.body.telemetries| - 1];
      var a := InverterUpdate(d, response);
      !a.completed ==> a == Attempt(MapLines(d, t.l1Data.value, t).drivers, false)
  {
  }

  class Inverter {
    const address: string
    const serial: string
    const rate: Fixed
    var drivers: Drivers
    var lastDate: int

    ghost predicate Valid()
      reads this
    {
      drivers.Keys == InverterDrivers
    }

    constructor (address: string, serial: string, lastDate: int, rate: Fixed)
      ensures Valid()
      ensures this.address == address && this.serial == serial && this.rate == rate
      ensures this.lastDate == lastDate
      ensures forall c :: c in InverterDrivers ==> drivers[c] == 0
    {
      this.address := address;
      this.serial := serial;
      this.rate := rate;
      drivers := map[ST := 0, GV0 := 0, CPW := 0, CLITEMP := 0, CV := 0, GV1 := 0, GV2 := 0, GV3 := 0, GV4 := 0];
      this.lastDate := lastDate;
    }

    /** One `setDriver` line; `ok` is false when it raised. */
    method Put(l: Line) returns (ok: bool)
      requires Valid() && l.c in InverterDrivers && l.places <= Places
      modifies this
      ensures Valid() && lastDate == old(lastDate)
      ensures Attempt(drivers, ok) == Then(Attempt(old(drivers), true), l)
    {
      ok := true;
      match l.f {
        case Num(x) =>
          drivers := drivers[l.c := Round(x, l.places)];
        case Absent =>
          if l.presence == ZeroIfAbsent {
            drivers := drivers[l.c := 0];
          } else {
            ok := false;
          }
        case Null =>
          if l.presence != SkipIfNull {
            ok := false;
          }
      }
    }

    /** The mapping of a response, up to the first line that raises. */
    method Map(response: Response<InverterData>) returns (completed: bool)
      requires Valid()
      modifies this
      ensures Valid() && lastDate == old(lastDate)
      ensures Attempt(drivers, completed) == InverterUpdate(old(drivers), response)
    {
      completed := false;
      if !response.Body? {
        return;
      }
      var data := response.body;
      if data.count < 1 || |data.telemetries| == 0 {
        return;
      }
      var t := data.telemetries[|data.telemetries| - 1];
      if t.l1Data.None? {
        return;
      }
      var l1 := t.l1Data.value;
      var ok := Put(Line(ST, l1.activePower, Required, 3));
      if !ok { return; }
      ok := Put(Line(GV0, l1.reactivePower, ZeroIfAbsent, 3));
      if !ok { return; }
      ok := Put(Line(CPW, l1.apparentPower, ZeroIfAbsent, 3));
      if !ok { return; }
      ok := Put(Line(CLITEMP, t.temperature, Required, 3));
      if !ok { return; }
      ok := Put(Line(CV, l1.acVoltage, Required, 3));
      if !ok { return; }
      ok := Put(Line(GV1, t.dcVoltage, SkipIfNull, 3));
      if !ok { return; }
      ok := Put(Line(GV2, l1.acCurrent, Required, 1));
      if !ok { return; }
      ok := Put(Line(GV3, l1.acFrequency, Required, 1));
      if !ok { return; }
      if t.inverterMode.None? {
        return;
      }
      drivers := drivers[GV4 := ModeCode(t.inverterMode.value)];
      completed := true;
    }

    /**
     * `updateInfo(poll_flag)`; the response to the telemetry request is a parameter
     * and `fetched` says whether it was made. A node that is not due changes nothing;
     * `last_date` moves to now only when the mapping ran to its end.
     */
    method UpdateInfo(pollFlag: string, now: int, response: Response<InverterData>) returns (fetched: bool)
      requires Valid()
      modifies this
      ensures Valid()
      ensures fetched <==> pollFlag != LongPoll && IsDue(now, old(lastDate), rate)
      ensures !fetched ==> drivers == old(drivers) && lastDate == old(lastDate)
      ensures fetched ==>
        var a := InverterUpdate(old(drivers), response);
        drivers == a.drivers && lastDate == (if a.completed then now else old(lastDate))
    {
      fetched := false;
      if pollFlag == LongPoll {
        return;
      }
      var lastMinute := LastMinute(now, lastDate);
      if !Due(lastMinute, rate) {
        return;
      }
      fetched := true;
      var completed := Map(response);
      if completed {
        lastDate := now;
      }
    }
  }
}
