/** The requests the manager writes to the panel (src/para_mgr.c:291-423, 732-781). */
module Requests {
  import opened CText
  import opened Records

  function LabelRequest(n: nat): string { "AL" + Padded(3, n) }

  function StatusRequest(n: nat): string { "RA" + Padded(3, n) }

  function ZoneLabelRequest(z: nat): string { "ZL" + Padded(3, z) }

  function ZoneStatusRequest(z: nat): string { "RZ" + Padded(3, z) }

  function UtilityKeyRequest(k: nat): string { "UK" + Padded(3, k) }

  function QuickArmRequest(n: nat, mode: char): string { "AQ" + Padded(3, n) + [mode] }

  /** `snprintf` into a buffer of `size` bytes. */
  function Clipped(size: nat, s: string): string
    requires size > 0
  {
    if |s| < size then s else s[..size - 1]
  }

  function ArmRequest(n: nat, mode: char, code: string): string {
    Clipped(13, "AA" + Padded(3, n) + [mode] + code)
  }

  function DisarmRequest(n: nat, code: string): string {
    Clipped(12, "AD" + Padded(3, n) + code)
  }

  function CommandRequests(areas: set<int>, code: Option<string>, cmd: Command): seq<string> {
    if cmd.kind == AreaControl then
      if 0 < cmd.num <= MAX_AREAS && cmd.num in areas then
        match cmd.what
        case ArmAway =>
          if code == None then [QuickArmRequest(cmd.num, ARMED)] else [ArmRequest(cmd.num, ARMED, code.value)]
        case ArmHome => [QuickArmRequest(cmd.num, STAY_ARMED)]
        case Disarm => if code == None then [] else [DisarmRequest(cmd.num, code.value)]
      else []
    else if 0 < cmd.num <= MAX_UTILITY_KEY then [UtilityKeyRequest(cmd.num)]
    else []
  }

  /** The status requests of the configured areas from `n` up. */
  function StatusFrom(areas: set<int>, n: nat): seq<string>
    decreases MAX_AREAS + 1 - n, areas
  {
    if n > MAX_AREAS then []
    else (if n in areas then [StatusRequest(n)] else []) + StatusFrom(areas, n + 1)
  }

  function AreasFrom(areas: set<int>, n: nat): seq<string>
    decreases MAX_AREAS + 1 - n, areas
  {
    if n > MAX_AREAS then []
    else (if n in areas then [LabelRequest(n), StatusRequest(n)] else []) + AreasFrom(areas, n + 1)
  }

  function ZonesFrom(zones: set<int>, z: nat): seq<string>
    decreases MAX_ZONES + 1 - z, zones
  {
    if z > MAX_ZONES then []
    else (if z in zones then [ZoneLabelRequest(z), ZoneStatusRequest(z)] else []) + ZonesFrom(zones, z + 1)
  }

  function StartupRequests(cfg: Config): seq<string> {
    AreasFrom(cfg.areas, 1) + ZonesFrom(cfg.zoneArea.Keys, 1)
  }
}
