/** The panel's records and constants (src/include/paratypes.h, src/include/para_mgr.h). */
module Records {
  const MAX_AREAS: int := 8
  const MAX_ZONES: int := 96
  const MAX_UTILITY_KEY: int := 251
  const LABEL_LENGTH: nat := 17

  const OK: char := 'O'
  const DISARMED: char := 'D'
  const ARMED: char := 'A'
  const FORCE_ARMED: char := 'F'
  const STAY_ARMED: char := 'S'
  const INSTANT_ARMED: char := 'I'
  const EXIT_DELAY: char := 'E'
  const ZONE_IN_MEMORY: char := 'M'
  const TROUBLE: char := 'T'
  const IN_ALARM: char := 'A'
  const ZONE_OPEN: char := 'O'
  const ZONE_CLOSED: char := 'C'
  const ZONE_TAMPERED: char := 'T'
  const ZONE_FIRE: char := 'F'

  datatype Option<+T> = None | Some(value: T)

  /** The state an alarm panel has for the home automation. */
  datatype PanelState =
    | Disarmed | ArmedHome | ArmedAway | ArmedNight | ArmedVacation
    | ArmedCustomBypass | PendingAlarm | Triggered | Arming | Disarming

  /** The fields of an area whose changes are reported. */
  datatype AreaFields = AreaFields(
    status: char, memory: char, trouble: char, ready: char,
    programming: char, alarm: char, strobe: char)

  datatype Area = Area(
    num: int, name: string, fields: AreaFields, state: PanelState,
    firstReport: bool, updated: bool)

  datatype ZoneFields = ZoneFields(
    status: char, alarm: char, fire: char, supervision: char, battery: char)

  datatype Zone = Zone(
    num: int, area: int, name: string, fields: ZoneFields, on: bool,
    bypassed: char, updated: bool)

  const ZERO_AREA: AreaFields := AreaFields('\0', '\0', '\0', '\0', '\0', '\0', '\0')
  const ZERO_ZONE: ZoneFields := ZoneFields('\0', '\0', '\0', '\0', '\0')

  /** A label that fits its field as a C string. */
  predicate LabelFits(name: string) {
    |name| <= LABEL_LENGTH && '\0' !in name
  }

  /** The record that configuring an area leaves behind. */
  function NewArea(n: int): Area {
    Area(n, "", ZERO_AREA, Disarmed, true, false)
  }

  function NewZone(z: int, area: int): Zone {
    Zone(z, area, "", ZERO_ZONE, false, OK, false)
  }

  /** The areas configured, and the area each zone was configured under. */
  datatype Config = Config(areas: set<int>, zoneArea: map<int, int>)

  datatype Tables = Tables(areas: map<int, Area>, zones: map<int, Zone>)

  function ConfigOf(t: Tables): Config {
    Config(t.areas.Keys, map z | z in t.zones :: t.zones[z].area)
  }

  /** What configuring guarantees and no message changes. */
  predicate WellFormed(t: Tables) {
    && (forall n :: n in t.areas ==> 1 <= n <= MAX_AREAS && t.areas[n].num == n)
    && (forall z :: z in t.zones ==> 1 <= z <= MAX_ZONES && t.zones[z].num == z && t.zones[z].area in t.areas)
  }

  /** The tables when the poll loop starts. */
  predicate Initial(t: Tables) {
    && WellFormed(t)
    && (forall n :: n in t.areas ==> t.areas[n] == NewArea(n))
    && (forall z :: z in t.zones ==> t.zones[z] == NewZone(z, t.zones[z].area))
  }

  datatype CommandType = AreaControl | UtilityKey
  datatype AreaCommand = ArmAway | ArmHome | Disarm

  /** A command from the MQTT side. */
  datatype Command = Command(kind: CommandType, num: int, what: AreaCommand)
}
