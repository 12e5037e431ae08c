/**
 * The JSON the monitoring API returns, as values. Only the keys the polling code
 * reads are modelled; a key the code tests for (`'value' in datapoint`,
 * `data['dcVoltage'] is not None`) keeps its absent and null cases apart.
 */
module Payload {
  import opened Wrappers
  import opened FixedPoint

  /** What `_api_request` hands back for one endpoint. */
  datatype Response<T> =
    | NoResponse   // the request failed and `_api_request` returned None
    | Malformed    // a JSON body without the expected top-level keys (a KeyError)
    | Body(body: T)

  /** A numeric JSON field: missing, `null`, or a number. */
  datatype Field = Absent | Null | Num(x: Fixed) {
    /** `float(field)`: a number, or None where Python raises. */
    function AsNumber(): Option<Fixed> {
      if Num? then Some(x) else None
    }
  }

  /** The `date` entry of a sample: missing, the empty string, a parseable ISO date
      (in seconds on the plug-in's clock), or anything `fromisoformat` rejects. */
  datatype DateEntry = NoDate | EmptyDate | Iso(t: int) | BadDate

  /** One element of a meter's `values` list. `otherKeys` says whether the dict holds
      keys besides `value` and `date`. */
  datatype Sample = Sample(value: Field, date: DateEntry, otherKeys: bool) {
    /** `len(datapoint) == 0`. */
    predicate IsEmpty() {
      value.Absent? && date.NoDate? && !otherKeys
    }
  }

  /** The `type` of a meter; `Other` is any name the code does not recognise. */
  datatype MeterType = Production | Consumption | Purchased | SelfConsumption | FeedIn | Other(name: string)

  /** One entry of `powerDetails.meters` or `energyDetails.meters`. A missing
      `values` key behaves exactly like an empty list and is folded into it. */
  datatype Meter = Meter(mtype: MeterType, values: seq<Sample>)

  /** One element of a battery's `telemetries`. `power` is None when the key is missing
      (a JSON null is folded into that case too). */
  datatype BatteryTelemetry = BatteryTelemetry(power: Option<Fixed>, batteryPercentageState: Field)

  /** One entry of `storageData.batteries`; `telemetries` is None when it is JSON null. */
  datatype StorageBattery = StorageBattery(
    serialNumber: string,
    telemetryCount: int,
    telemetries: Option<seq<BatteryTelemetry>>)

  /** The single-phase block `L1Data` of an inverter telemetry. */
  datatype PhaseData = PhaseData(
    activePower: Field,
    reactivePower: Field,
    apparentPower: Field,
    acVoltage: Field,
    acCurrent: Field,
    acFrequency: Field)

  /** One element of an inverter's `telemetries`; `l1Data` is None when the block is missing,
      `inverterMode` is None when the key is missing. A JSON null mode, which the mode test
      sends to its last branch (GV4 = 0), is modelled as `Some` of a string that names no mode. */
  datatype InverterTelemetry = InverterTelemetry(
    l1Data: Option<PhaseData>,
    temperature: Field,
    dcVoltage: Field,
    inverterMode: Option<string>)

  /** The `data` object of an equipment response. */
  datatype InverterData = InverterData(count: int, telemetries: seq<InverterTelemetry>)

  /** The `overview` object: the four energy totals and the current power, each None
      when missing (a JSON null current power is folded into that case too). */
  datatype Overview = Overview(
    lifeTimeEnergy: Field,
    lastYearEnergy: Field,
    lastMonthEnergy: Field,
    lastDayEnergy: Field,
    currentPower: Option<Fixed>)

  /** The inventory entry of an inverter: its name, serial number and model. */
  datatype InventoryInverter = InventoryInverter(name: string, serial: string, model: string)

  /** The inventory entry of a battery, kept by its node for `nameplateCapacity`. */
  datatype InventoryBattery = InventoryBattery(name: string, serial: string, nameplateCapacity: Field)
}
