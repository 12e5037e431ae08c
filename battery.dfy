/**
 * A battery node. It never asks the API itself: its site's storage request hands it
 * the battery's telemetries, and it publishes the last one.
 */
module BatteryNode {
  import opened Wrappers
  import opened FixedPoint
  import opened Payload
  import opened Channels

  /** The drivers a battery node declares. */
  const BatteryDrivers: set<Driver> := {ST, BATLVL, GPV}

  /** The drivers `updateData` writes. */
  const TelemetryDrivers: set<Driver> := {ST, BATLVL}

  /** `SEBattery.updateData`: what it leaves in the drivers, and whether it raised. */
  function BatteryData(d: Drivers, batt: Option<seq<BatteryTelemetry>>): (o: Outcome)
    ensures o.raised <==>
      batt.Some? && (batt.value == [] || batt.value[|batt.value| - 1].power.None?
                     || !batt.value[|batt.value| - 1].batteryPercentageState.Num?)
    ensures o.drivers.Keys == d.Keys + (if batt.Some? && batt.value != [] && batt.value[|batt.value| - 1].power.Some?
                                         then {ST} + (if o.raised then {} else {BATLVL}) else {})
    ensures forall c :: c in d && c !in TelemetryDrivers ==> o.drivers[c] == d[c]
    ensures batt.Some? && !o.raised ==>
      var t := batt.value[|batt.value| - 1];
      o.drivers[ST] == t.power.value && o.drivers[BATLVL] == Round(t.batteryPercentageState.x, 1)
    ensures batt.None? ==> o.drivers == d
    ensures o.raised && batt.value != [] && batt.value[|batt.value| - 1].power.Some? ==>
      o.drivers == d[ST := batt.value[|batt.value| - 1].power.value]
    ensures o.raised && (batt.value == [] || batt.value[|batt.value| - 1].power.None?) ==> o.drivers == d
  {
    match batt
    case None => Outcome(d, false)
    case Some(ts) =>
      if ts == [] then Outcome(d, true)
      else
        var t := ts[|ts| - 1];
        match t.power
        case None => Outcome(d, true)
        case Some(p) =>
          var d1 := d[ST := p];
          match t.batteryPercentageState
          case Num(x) => Outcome(d1[BATLVL := Round(x, 1)], false)
          case _ => Outcome(d1, true)
  }

  class Battery {
    const address: string
    const serial: string
    const inventory: InventoryBattery
    var drivers: Drivers

    ghost predicate Valid()
      reads this
    {
      drivers.Keys == BatteryDrivers
    }

    constructor (address: string, serial: string, inventory: InventoryBattery)
      ensures Valid()
      ensures this.address == address && this.serial == serial && this.inventory == inventory
      ensures forall c :: c in BatteryDrivers ==> drivers[c] == 0
    {
      this.address := address;
      this.serial := serial;
      this.inventory := inventory;
      drivers := map[ST := 0, BATLVL := 0, GPV := 0];
    }

    /** `updateInfo`, run at start: publish the nameplate capacity; a missing or null one raises. */
    method UpdateInfo()
      requires Valid()
      modifies this
      ensures Valid()
      ensures inventory.nameplateCapacity.Num? ==>
        drivers == old(drivers)[GPV := inventory.nameplateCapacity.x]
      ensures !inventory.nameplateCapacity.Num? ==> drivers == old(drivers)
    {
      match inventory.nameplateCapacity
      case Num(x) => drivers := drivers[GPV := x];
      case _ =>
    }

    /**
     * `updateData(batt_data)`: nothing for a null list; otherwise the last telemetry's
     * power and rounded charge level. `raised` reports an exception, which the calling
     * site does not catch here.
     */
    method UpdateData(batt: Option<seq<BatteryTelemetry>>) returns (raised: bool)
      requires Valid()
      modifies this
      ensures Valid()
      ensures Outcome(drivers, raised) == BatteryData(old(drivers), batt)
    {
      raised := false;
      if batt.None? {
        return;
      }
      var ts := batt.value;
      if |ts| == 0 {
        raised := true;
        return;
      }
      var data := ts[|ts| - 1];
      if data.power.None? {
        raised := true;
        return;
      }
      drivers := drivers[ST := data.power.value];
      if !data.batteryPercentageState.Num? {
        raised := true;
        return;
      }
      drivers := drivers[BATLVL := Round(data.batteryPercentageState.x, 1)];
    }
  }
}
