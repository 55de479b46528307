/** A chart device (CPU, memory, disk, network): its descriptor and the
    conversion of byte counts into the device's display unit. */
module Devices {

  import opened Wrappers
  import Metrics

  datatype Device = Device(name: string, key: string, unit: string, color: string)

  predicate IsCpu(d: Device) { d.key == "cpu" }
  predicate IsMemory(d: Device) { d.key == "memory" }
  predicate IsDisk(d: Device) { d.key == "disk" }
  predicate IsNetwork(d: Device) { d.key == "network" }

  /** The devices whose samples are a read/write pair. */
  predicate IsPaired(d: Device) { IsDisk(d) || IsNetwork(d) }

  const ReadWriteSuffix: string := " (read / write)"

  /** The device name, marked as a read/write pair for disk and network. */
  function TooltipTitle(d: Device): (t: string)
    ensures |t| >= |d.name| && t[..|d.name|] == d.name
    ensures IsPaired(d) <==> |t| > |d.name|
    ensures IsPaired(d) ==> t[|d.name|..] == ReadWriteSuffix
  {
    if IsPaired(d) then d.name + ReadWriteSuffix else d.name
  }

  /** The display units and the bytes in one of each. */
  const DisplayUnits: seq<string> := ["B", "kB", "MB", "GB"]

  function Divisor(unit: string): real
    requires unit in DisplayUnits
  {
    if unit == "B" then 1.0
    else if unit == "kB" then 1000.0
    else if unit == "MB" then 1000000.0
    else 1000000000.0
  }

  /** Bytes expressed in the device's unit; a unit other than B, kB, MB or GB
      is an error. */
  function ConvertFromBytesToSelectedUnit(d: Device, bytes: real): (r: Result<real, Error>)
    ensures r.Failure? <==> d.unit !in DisplayUnits
    ensures r.Failure? ==> r.error == UnknownUnit(d.unit)
    ensures r.Success? ==> r.value * Divisor(d.unit) == bytes
    ensures r.Success? && bytes >= 0.0 ==> r.value >= 0.0
  {
    if d.unit == "B" then Success(bytes)
    else if d.unit == "kB" then Success(bytes / 1000.0)
    else if d.unit == "MB" then Success(bytes / 1000000.0)
    else if d.unit == "GB" then Success(bytes / 1000000000.0)
    else Failure(UnknownUnit(d.unit))
  }

  /** Converting to a display unit undoes the scaling that parsing the same
      suffix applied: the two unit tables agree on B, kB, MB and GB. */
  lemma {:induction false} ConvertUndoesParse(d: Device, x: real)
    requires d.unit in DisplayUnits
    ensures ConvertFromBytesToSelectedUnit(d, Metrics.Scale(x, d.unit)) == Success(x)
  {
    assert d.unit == "B" || d.unit == "kB" || d.unit == "MB" || d.unit == "GB";
    assert Metrics.Scale(x, d.unit) == x * Divisor(d.unit);
  }
}
