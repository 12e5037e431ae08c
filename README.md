# SolarEdge node server: polling core

This project models the polling core of the SolarEdge node server (`solaredge-poly.py`). The node
server publishes a SolarEdge installation on a home-automation controller as a tree of nodes:

- a site node
- one node per inverter and per battery
- a 15-minute energy node
- a daily energy node
- a production overview node

Each node keeps a map of driver values (`ST`, `GV0`…). Each poll of a node runs the same steps:

1. A staleness gate decides whether the node asks the monitoring API again. It fetches when the
   minutes since the node's `last_date`, rounded to a tenth, reach the rate limit or are exactly 0.
2. If the gate lets it through, the node maps the JSON response onto its drivers.
3. The node moves its `last_date` as that node's rules say.

Battery nodes never fetch. The site node asks for all of its batteries' telemetry in a single
storage request and hands each reporting battery its telemetry list. Discovery derives node
addresses from serial numbers and creates inverter and battery nodes from the site inventory. An
inverter node is created only if its model is a single-phase one. Discovery also hands each new
battery's serial to the site node.

How the model represents the system:

- **Pure parts.** These are the gate, address and model derivation, name sanitising, the meter
  table and the mode code. They are Dafny functions with lemmas.
- **Nodes.** Each node is a class. Its drivers are a `map<Driver, Fixed>` field, and its dates are
  `int` fields.
- **Updates.** Each `updateInfo` is a method proved equal to a specification function of the old
  state. The meter loops are `while` loops whose invariant is the specification fold over the
  meters seen so far.
- **Numbers.** A number is held in millionths (`Fixed`). Python's `round(x, n)` is rounding half to
  even on that exact decimal.
- **Time.** Time is whole seconds on the plug-in's clock, passed in as `now`.
- **API responses.** Each response is a parameter: `NoResponse` when `_api_request` returned None,
  `Malformed` when a top-level key is missing, or `Body`.
- **Exceptions.** Every `updateInfo` is wrapped in a catch-all `except`. The model represents this as
  an update that stops at the first statement that would raise and keeps the writes made before it.

Four behaviours of the code are modelled as written, though they may not be what the authors meant:

- **Overview guard.** The overview node skips on the flag `"ShortPoll"`, which the host never sends,
  so the node runs on short and long polls alike (`OverviewNode.GuardNeverSkips`).
- **Zero sentinel.** The gate also fires when the rounded age is exactly 0. A node is therefore due
  right after `last_date` moved, but not a minute later. So "due" is not monotone in time
  (`Gate.SentinelNotMonotone`), although it is once the rate has been reached
  (`Gate.RateReachedStays`).
- **15-minute node's `last_date`.** In the 15-minute energy node, `last_date` is a local variable
  bound only by a dated sample. A payload whose first newest sample carries no date makes the update
  raise at that point. `EnergyNodes.UndatedPayloadRaises` characterises when an undated payload gets
  through.
- **Daily node's `last_date`.** The daily energy node moves `last_date` to now after every due
  attempt that does not raise, including one whose request failed.

## Model

| member | source | states |
|---|---|---|
| FixedPoint.RoundDiv | solaredge-poly.py:331 | the quotient is within half a divisor of the exact one, and a tie goes to the even quotient (Python's `round`) |
| FixedPoint.Round | solaredge-poly.py:331 | `round(x, places)` is a multiple of 10^-places within half a step of x |
| FixedPoint.KiloRound | solaredge-poly.py:579 | `round(x / 1000, 1)` is a whole number of tenths within half a tenth of x/1000 |
| FixedPoint.RoundIdempotent | solaredge-poly.py:331 | rounding an already rounded reading to the same places leaves it unchanged |
| FixedPoint.RoundMonotone | solaredge-poly.py:331 | rounding keeps the order of two readings |
| FixedPoint.RoundDivMonotone | solaredge-poly.py:281 | a larger elapsed time never rounds to fewer tenths of a minute |
| Gate.RateLimit | solaredge-poly.py:127-132 | the rate is the `rate_limit` parameter when set, 5 minutes otherwise |
| Gate.LastMinute | solaredge-poly.py:281 | the minutes since `last_date` are a whole number of tenths, within half a tenth of the exact elapsed time |
| Gate.ZeroSentinel | solaredge-poly.py:285 | the `last_minute == 0.0` branch fires exactly when `last_date` is within three seconds of now |
| Gate.Due | solaredge-poly.py:285 | the staleness test: the rounded age reaches the rate or is exactly 0 (characterised through Gate.IsDue) |
| Gate.IsDue | solaredge-poly.py:281-285 | a node is due exactly when its rounded age reaches the rate or its `last_date` is within three seconds of now |
| Gate.RateReachedStays | solaredge-poly.py:285 | once the rounded age reaches the rate it stays reached later, so the node stays due |
| Gate.SentinelNotMonotone | solaredge-poly.py:285 | a node due at the instant of its last change is not due a minute later with the default rate |
| Gate.DefaultRateScenario | solaredge-poly.py:127-132 | with the default rate a node is not due two minutes after its last change and is due after six |
| Gate.FirstPollDue | solaredge-poly.py:26 | `last_date` starts an hour before start-up, so every node with a rate up to an hour fetches on its first poll |
| Channels.ChannelOf | solaredge-poly.py:322-375 | exactly the five recognised meter types have a driver, and it is one of ST, GV0..GV3 |
| Channels.ChannelOfInjective | solaredge-poly.py:322-375 | no two meter types write the same driver |
| Channels.SampleFromEnd | solaredge-poly.py:325 | `values[-back]` exists exactly when the list holds at least `back` samples, and is then `values[len - back]` |
| Channels.MapChannelEffect | solaredge-poly.py:323-335 | one meter raises exactly on a null value where it is read; otherwise it changes only its own driver: to the converted value, to 0 for an empty sample, or not at all |
| Channels.SampleValue | solaredge-poly.py:330-331 | the number read is the `value` of the sample the meter is read at |
| Channels.ChannelScanOk | solaredge-poly.py:322-375 | the meter loop completes exactly when no meter has a null value where it is read, and it keeps the driver names |
| Channels.ChannelScanValues | solaredge-poly.py:322-375 | after a completed loop each meter driver holds what the last meter writing it wrote; a driver no meter writes keeps its value |
| Channels.ChannelScanIdempotent | solaredge-poly.py:322-375 | mapping the same payload a second time leaves the meter drivers as the first time did |
| Channels.LastWriterExists | solaredge-poly.py:322-375 | if any meter writes a driver, a last such meter exists |
| SiteNode.SiteRequests | solaredge-poly.py:285-302 | a due update issues the power request first and at most one storage request; the storage request comes exactly when the site has batteries and joins all their serials; an update that is not due issues none |
| SiteNode.SerialsRoundTrip | solaredge-poly.py:299 | splitting the joined `serials` parameter at commas gives back the site's serials, in order |
| SiteNode.FanOutViews | solaredge-poly.py:305-311 | the fan-out keeps the set of battery nodes and their driver names, and never touches a battery's capacity |
| SiteNode.FanOutOk | solaredge-poly.py:305-311 | the fan-out completes exactly when every entry with `telemetryCount > 0` has a node under its address and a usable last telemetry |
| SiteNode.FanOutUntouched | solaredge-poly.py:308-311 | a battery node that no entry with `telemetryCount > 0` names keeps its drivers |
| SiteNode.FanOutLatest | solaredge-poly.py:305-311 | after a completed fan-out, a battery shows the power and rounded charge level of the last telemetry of its last report |
| SiteNode.FanOutStops | solaredge-poly.py:305-311 | a fan-out that raised at some entry processes no later entry |
| SiteNode.NoResponseZeroes | solaredge-poly.py:314-320 | a failed power request zeroes ST and GV0..GV4 and leaves `last_date` and the cached readings alone |
| SiteNode.ScanSiteStops | solaredge-poly.py:322-383 | a meter loop that raised at some meter goes no further |
| SiteNode.ScanSiteChannels | solaredge-poly.py:322-375 | on ST and GV0..GV3 the site loop does what the shared meter table does with the last sample rounded to 3 places, and raises exactly when it does |
| SiteNode.SiteMeterDrivers | solaredge-poly.py:322-375 | after a completed loop each of ST and GV0..GV3 holds the rounded last sample of the last meter of its type, or 0 for an empty sample, and keeps its value when no meter of its type writes it |
| SiteNode.SiteMeterDriversIdempotent | solaredge-poly.py:322-375 | mapping the same power payload twice leaves the five meter drivers as once does |
| SiteNode.SiteChangeTracking | solaredge-poly.py:331-379 | a loop that marked a change leaves `last_date` at now; one that did not keeps `last_date` and the cached production and consumption; a payload whose readings all agree with the cache marks no change |
| SiteNode.SiteChangeDetected | solaredge-poly.py:331-379 | in a loop that completes, a production or consumption reading that differs from the cache marks a change and leaves `last_date` at now (with SiteChangeTracking: `last_date` moves exactly when some reading differed) |
| SiteNode.OtherMetersKeepLastDate | solaredge-poly.py:349-379 | Purchased, SelfConsumption, FeedIn and unknown meters never move `last_date` |
| SiteNode.SiteElapsedDriver | solaredge-poly.py:378-383 | after a completed loop GV4 shows the minutes since the final `last_date` when any meter got past its sample lookup; when every meter was skipped the site is unchanged |
| SiteNode.Deliver | solaredge-poly.py:309 | `getNode(addr).updateData(...)` changes that battery node as `updateData` specifies and no other node |
| SiteNode.FanOutStorage | solaredge-poly.py:305-311 | the fan-out loop leaves the battery nodes exactly as the fan-out fold says, and reports whether it completed |
| SiteNode.Site.AddBattery | solaredge-poly.py:228 | the serial is appended to the site's batteries and nothing else changes |
| SiteNode.Site.MapMeter | solaredge-poly.py:322-383 | one pass of the meter loop changes the site exactly as the specification step does |
| SiteNode.Site.MapMeters | solaredge-poly.py:322-383 | the meter loop leaves the site exactly as the specification fold does |
| SiteNode.Site.MapPower | solaredge-poly.py:313-383 | the power mapping zeroes on a failed request, does nothing on a malformed one, and otherwise runs the meter loop; it leaves the battery nodes alone |
| SiteNode.Site.Fetch | solaredge-poly.py:287-383 | a due update fans out the storage data first; a fan-out that raises stops the update before any power mapping |
| SiteNode.Site.UpdateInfo | solaredge-poly.py:276-388 | a long poll does nothing; a node that is not due only refreshes GV4; a due node issues its requests, fans out and maps the power meters; the battery list never changes |
| SiteNode.Site.constructor | solaredge-poly.py:260-268 | a new site has no batteries, zeroed drivers and the given cache, date and rate |
| BatteryNode.BatteryData | solaredge-poly.py:744-751 | `updateData` does nothing for a null list; otherwise it raises exactly when the list is empty or the last telemetry lacks a power or a numeric charge level; otherwise it shows that power and the charge level rounded to one place; a raise after the power line keeps that power in ST and changes nothing else, an earlier raise changes nothing; GPV never changes |
| BatteryNode.Battery.UpdateData | solaredge-poly.py:744-751 | the node's drivers and the raised flag are those BatteryData specifies |
| BatteryNode.Battery.UpdateInfo | solaredge-poly.py:737-742 | the node publishes the nameplate capacity as GPV, and changes nothing when it is missing or null |
| BatteryNode.Battery.constructor | solaredge-poly.py:725-732 | a new battery node keeps its address, serial and inventory entry, with zeroed drivers |
| EnergyNodes.ScanEnergyStops | solaredge-poly.py:446-508 | a 15-minute loop that raised at some meter goes no further |
| EnergyNodes.ScanEnergyChannels | solaredge-poly.py:446-493 | when the 15-minute loop completes, ST and GV0..GV3 hold what the meter table leaves with `values[-2]` taken as is |
| EnergyNodes.EnergyDateFromPayload | solaredge-poly.py:495-508 | `en_date` ends as its old value or as the date of some meter's newest sample, never as now; once an ISO date was seen, GV4 shows the minutes since `en_date` |
| EnergyNodes.ScanEnergyKeys | solaredge-poly.py:446-508 | the 15-minute loop keeps the driver names |
| EnergyNodes.UndatedPayloadRaises | solaredge-poly.py:495-508 | on a payload without dates the loop completes only when it never reaches a newest sample: each recognised meter has fewer than two samples and each other meter none |
| EnergyNodes.Energy.MapMeter | solaredge-poly.py:446-508 | one pass of the 15-minute loop changes the node exactly as the specification step does |
| EnergyNodes.Energy.MapMeters | solaredge-poly.py:446-508 | the 15-minute loop leaves drivers and `en_date` exactly as the specification fold does |
| EnergyNodes.Energy.UpdateInfo | solaredge-poly.py:420-513 | a long poll does nothing; a node that is not due only refreshes GV4 from `en_date`; a due node zeroes on a failed request and otherwise runs the loop |
| EnergyNodes.Energy.constructor | solaredge-poly.py:405-412 | a new 15-minute node has zeroed drivers, its `en_date` is the given start date, and it keeps its address and rate |
| EnergyNodes.DayReadingsInTenths | solaredge-poly.py:569-615 | after a completed daily loop a meter driver shows its last writer's reading as whole tenths of a kilo-unit within half a tenth of it, or 0 when that writer read an empty sample |
| EnergyNodes.ChannelScanStops | solaredge-poly.py:569-615 | a daily loop that raised at some meter goes no further |
| EnergyNodes.EnergyDay.MapMeter | solaredge-poly.py:571-615 | one pass of the daily loop is the meter table's step with `values[-2]` in kilo-units |
| EnergyNodes.EnergyDay.MapMeters | solaredge-poly.py:569-615 | the daily loop leaves the drivers exactly as the meter table in kilo-units does |
| EnergyNodes.EnergyDay.UpdateInfo | solaredge-poly.py:544-620 | a due attempt that does not raise stamps `last_date` with now, a failed request included, after zeroing ST..GV3; one that raises keeps `last_date` |
| EnergyNodes.EnergyDay.constructor | solaredge-poly.py:529-536 | a new daily node has zeroed drivers and keeps the given start date, address and rate |
| InverterNode.ModeCode | solaredge-poly.py:693-698 | GV4 is 2 exactly for MPPT, 1 exactly for STARTING, 0 for any other mode |
| InverterNode.LineStep | solaredge-poly.py:678-692 | a mapping line goes through exactly when its field is a number, or missing where it falls back to 0, or null where it is skipped |
| InverterNode.MapLinesMapping | solaredge-poly.py:678-692 | the eight lines run to their end exactly when each field suits its line, and then write the rounded readings, 0 for a missing optional power and the old GV1 for a null `dcVoltage` |
| InverterNode.InverterUpdate | solaredge-poly.py:667-677 | a failed request, a count below one or a newest telemetry without `L1Data` changes nothing |
| InverterNode.InverterMapping | solaredge-poly.py:678-700 | a mappable response completes exactly when every required field is a number, the optional powers are not null, `dcVoltage` and `inverterMode` are present; it then writes every reading and the mode code |
| InverterNode.MapLinesRaised | solaredge-poly.py:678-692 | an update that raises at a line keeps the readings the lines before it wrote and writes nothing from that line on |
| InverterNode.InverterRaised | solaredge-poly.py:678-698 | a raised update that got past the L1Data check leaves what the lines left; a missing `inverterMode` raises after all eight readings were written |
| InverterNode.Inverter.Map | solaredge-poly.py:667-698 | the mapping method changes the drivers exactly as InverterUpdate says |
| InverterNode.Inverter.UpdateInfo | solaredge-poly.py:651-704 | a long poll or a node that is not due changes nothing; a due node maps the response and moves `last_date` to now only when every line ran |
| InverterNode.Inverter.constructor | solaredge-poly.py:636-642 | a new inverter node has zeroed drivers and keeps its address, serial, start date and rate |
| OverviewNode.ThenKilo | solaredge-poly.py:805-808 | an energy line completes exactly when its field is a number and the lines before it completed |
| OverviewNode.OverviewUpdate | solaredge-poly.py:801-804 | a failed or malformed response changes nothing |
| OverviewNode.OverviewMapping | solaredge-poly.py:803-811 | the update completes exactly when the current power and the four energies are present; it then shows each energy in kilo-units and the power as given, and nothing else |
| OverviewNode.OverviewRaised | solaredge-poly.py:803-811 | a missing current power raises before any write; otherwise the energies before the first non-numeric one are written and nothing after it, the power included |
| OverviewNode.OverviewEnergiesInTenths | solaredge-poly.py:805-808 | each energy shown is a whole number of tenths of a kilo-unit, within half a tenth of the reading |
| OverviewNode.GuardNeverSkips | solaredge-poly.py:787-788 | the guard's flag is neither flag the host sends |
| OverviewNode.ProductionOverview.Map | solaredge-poly.py:801-809 | the mapping method changes the drivers exactly as OverviewUpdate says |
| OverviewNode.ProductionOverview.UpdateInfo | solaredge-poly.py:783-814 | the node runs on both poll flags; a due node maps the response and moves `last_date` to now only when the mapping completed |
| OverviewNode.ProductionOverview.constructor | solaredge-poly.py:768-773 | a new overview node has zeroed drivers and keeps its address, start date and rate |
| Discovery.LowerChar | solaredge-poly.py:207 | on ASCII, the lower-cased character is not upper case, other characters are kept, and a non-dash stays a non-dash |
| Discovery.RemoveDashes | solaredge-poly.py:207 | the result contains no dash |
| Discovery.RemoveDashesKeepsOthers | solaredge-poly.py:207 | removing dashes keeps every other character as often as it occurs |
| Discovery.NodeAddress | solaredge-poly.py:207 | the address is as long as the dash-free serial, cut to 14 characters |
| Discovery.NodeAddressShape | solaredge-poly.py:207 | the address is the lower-cased dash-free serial character by character, with no dash and no upper-case letter |
| Discovery.NodeAddressIdempotent | solaredge-poly.py:207 | deriving an address from an address gives it back |
| Discovery.NodeAddressIgnoresDashesAndCase | solaredge-poly.py:207 | serials that differ only in dashes and letter case share an address |
| Discovery.BeforeDash | solaredge-poly.py:209 | `split('-')[0]` is a dash-free prefix that ends at the first dash |
| Discovery.BeforeDashIsFirstDash | solaredge-poly.py:209 | the prefix is everything before the first dash |
| Discovery.ModelPrefix | solaredge-poly.py:208-211 | the model compared is a dash-free prefix that is the whole model or ends at a dash |
| Discovery.ModelPrefixIsSplit | solaredge-poly.py:208-211 | the `'-' in model` test is redundant: the compared model is always `split('-')[0]` |
| Discovery.SuffixedModelSupported | solaredge-poly.py:208-215 | a single-phase model followed by a dash and any suffix is supported |
| Discovery.ShortModelUnsupported | solaredge-poly.py:208-218 | a model whose part before the first dash is shorter than six characters, such as a three-phase `SE10K-…`, gets no inverter node |
| Discovery.SanitizeName | solaredge-poly.py:185 | the sanitised name holds only ASCII letters, digits and spaces, and keeps each of those as often as it occurs |
| Discovery.SanitizeNameConcat | solaredge-poly.py:185 | sanitising keeps the order of the kept characters: a concatenation sanitises to the sanitised parts in order |
| Discovery.SanitizeNameChar | solaredge-poly.py:185 | one character is kept exactly when it is an ASCII letter, a digit or a space |
| Discovery.SanitizeNameFixes | solaredge-poly.py:185 | a name comes out unchanged exactly when it holds only kept characters |
| Discovery.SanitizeNameIdempotent | solaredge-poly.py:185 | sanitising twice is sanitising once |
| Registration.AddressOfEntry | solaredge-poly.py:219-222 | each inventory battery's address is among the derived addresses |
| Registration.EntryOfAddress | solaredge-poly.py:219-222 | each derived address belongs to some inventory battery |
| Registration.AppendedNew | solaredge-poly.py:223-228 | each serial appended to the site gets a node under an address that had none before, and comes from the inventory |
| Registration.AppendedDistinct | solaredge-poly.py:223-228 | no two appended serials share an address |
| Registration.AppendedCovers | solaredge-poly.py:219-228 | every inventory battery's address either had a node before or is the address of an appended serial |
| Registration.RegisterBatteries | solaredge-poly.py:219-228 | after the battery loop every inventory address has a node; old nodes are kept; new nodes are fresh and carry their address; the site's batteries grow by exactly the appended serials; nothing else of the site changes |
| Registration.RegisterBattery | solaredge-poly.py:220-228 | one pass of the battery loop adds a node and appends the serial exactly when the entry's address has no node, and keeps every existing node |
| Registration.RegisterNewBattery | solaredge-poly.py:223-228 | a battery whose address has no node gets a fresh node under that address, its serial is appended to the site, and every existing node is kept |
| Registration.AddBatteryNode | solaredge-poly.py:225 | `addNode(SEBattery(...))` adds exactly one fresh, valid node under the new address |
| Registration.RegisteredBatteriesReached | solaredge-poly.py:305-311 | when every serial the site asks about has a node, the fan-out finds a node for every reporting battery and completes unless a telemetry list is unusable |
| Registration.SupportedAddressOfEntry | solaredge-poly.py:204-215 | each inverter of a supported model has its address among the supported ones |
| Registration.EntryOfSupportedAddress | solaredge-poly.py:204-215 | each supported address belongs to some inverter of a supported model |
| Registration.AddedInvertersExactly | solaredge-poly.py:204-218 | exactly the supported addresses without a node get one, and each new node's serial is that of a supported inverter with that address |
| Registration.RegisterInverters | solaredge-poly.py:204-218 | after the inverter loop the nodes are the old ones plus one fresh node per added address, carrying its address, serial, start date and rate ; the map from address to serial grows by exactly the added inverters |
| Registration.RegisterInverter | solaredge-poly.py:205-216 | one pass of the inverter loop adds a node exactly when the entry's model is supported and its address has none, and keeps every existing node |
| Registration.RegisterNewInverter | solaredge-poly.py:212-216 | a supported inverter whose address has no node gets a fresh node carrying its address, serial, start date and rate, and every existing node is kept |
| Registration.AddInverterNode | solaredge-poly.py:215 | `addNode(SEInverter(...))` adds exactly one fresh, valid node under the new address, recording its serial |

## Left out

- HTTP and the API key. `_api_request`, the connection handling, `api_close` and the API-key and
  version probe in `handleParameters` are I/O. Each response is a parameter of the update that uses it.
- Host calls and logging. `addNode`, `subscribe`, `setDriver` notifications, `reportDrivers` and
  `LOGGER` belong to the host. `setDriver` is modelled as an update of the node's driver map.
- `wait_for_node_event`. It is a busy-wait synchronisation with the host, not logic.
- The time-window strings. `_start_time`, `_end_time` and their midnight variants depend on pytz
  time zones and wall-clock formatting, and they only build URLs.
- Dates. `datetime.fromisoformat` and time zones are not modelled: a date is either already in
  seconds (`Iso`) or unparseable (`BadDate`).
- Clock resolution. Time is whole seconds; the sub-second part of `datetime.now()` is dropped.
- Floating point. Readings are exact decimals in millionths. Binary float rounding and digits
  beyond the sixth decimal are not modelled.
- Unused JSON fields. Keys the code never reads are not modelled.
- BatteryNode.BatteryData: a JSON null `power` in a battery telemetry is modelled as a missing key,
  so the model raises where the source writes None to ST and goes on to BATLVL. Because a raise in
  the battery step ends the whole site update (SiteNode.FanOutOk, SiteNode.Site.Fetch), the model
  then also keeps the site's drivers and `last_date`, which the source would go on to update.
- OverviewNode.OverviewMapping: a JSON null `currentPower.power` is modelled as a missing key, so
  the model raises before any write and keeps `last_date`, where the source writes the energies,
  writes None to GV3 and moves `last_date` to now.
- Creating the site, energy, daily energy and overview nodes. Discovery adds these under the
  site id and the prefixes `en`, `dy` and `ov`. That step is host wiring and is not modelled;
  the nodes' constructors are.
- The site list loop and the inventory request of `discover`. They are I/O. Only the loops over
  the inventory's inverters and batteries are modelled.
- Registration.RegisterBatteries: it assumes that a battery's address is never held by a node of
  another kind. The source's `getNode` check also finds the site, inverter and energy nodes, and
  handing a battery's telemetry to such a node is not modelled.
- Registration.RegisterInverters: it takes the existing inverter nodes as the only addresses
  already in use. The source's `getNode` check also finds nodes of the other kinds.
- Discovery.LowerChar: it lower-cases ASCII capitals only. Python's `str.lower()` also maps
  non-ASCII capitals and can lengthen a string (one capital can become two code points), which
  would move the 14-character cut of Discovery.NodeAddress. Serials are taken to be ASCII.
- A meter without a `type` key. Reading `meter['type']` raises KeyError and aborts the update;
  the model's meters always carry a type, so this error path is not modelled.
- A storage entry without `telemetryCount`. Reading it raises KeyError and aborts the fan-out;
  the model's entries always carry a count, so this error path is not modelled.
- A storage entry without `serialNumber`. Reading it raises KeyError and aborts the fan-out;
  the model's entries always carry a serial, so this error path is not modelled.
- A storage entry without `telemetries`. For an entry with `telemetryCount > 0` the source raises
  KeyError on a missing key but hands None to `updateData` (which returns) for a JSON null; the
  model's `Option` merges the two into the null case, so the missing-key raise is not modelled.
- An inverter `data` object without `count`. Reading it raises KeyError and ends the update before
  any write; the model's inverter data always carries a count, so this error path is not modelled.
- Gate.RateReachedStays: the gate is stated monotone only for ages that reached the rate. The
  zero sentinel makes it non-monotone near `last_date`, as Gate.SentinelNotMonotone shows.
