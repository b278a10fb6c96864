/** The WMI objects the inventory reads and the per-object conversions that both
    versions of `get_specs` (src/stats.py and stats.py) apply to them. */
module Inventory {
  import opened Wrappers
  import opened Text
  import opened BatteryStatus
  import opened Units

  /** A WMI property value as Python sees it. */
  datatype Value = Null | Str(s: string) | Int(i: int) | Bool(b: bool)

  /** Python truthiness. */
  predicate Truthy(v: Value)
  {
    match v
    case Null => false
    case Str(s) => s != []
    case Int(i) => i != 0
    case Bool(b) => b
  }

  /** `int(v)`; `None` where Python raises (`int(None)`, a string that is no integer). */
  function ToInt(v: Value): (r: Option<int>)
    ensures r.None? <==> v.Null? || (v.Str? && ParseInt(v.s).None?)
    ensures v.Int? ==> r == Some(v.i)
    ensures v.Bool? ==> r == Some(if v.b then 1 else 0)
  {
    match v
    case Null => None
    case Str(s) => ParseInt(s)
    case Int(i) => Some(i)
    case Bool(b) => Some(if b then 1 else 0)
  }

  /** `v.strip()`; `None` where Python raises `AttributeError` (only strings have it). */
  function StripValue(v: Value): Option<string>
  {
    if v.Str? then Some(Strip(v.s)) else None
  }

  // ---- WMI objects; an `Option` field is one read with `getattr(obj, name, default)`,
  //      `None` meaning the attribute does not exist ------------------------------

  datatype Processor = Processor(name: Value, manufacturer: Value, description: Value,
                                 numberOfCores: Value, maxClockSpeed: Value)
  datatype VideoController = VideoController(name: Value, driverVersion: Value, description: Value,
                                             videoModeDescription: Value, adapterRam: Value)
  datatype PhysicalMemory = PhysicalMemory(capacity: Value, speed: Value, manufacturer: Value,
                                           partNumber: Value)
  datatype DiskDrive = DiskDrive(model: Value, interfaceType: Value, mediaType: Option<Value>,
                                 size: Value, serialNumber: Value)
  datatype NetworkAdapter = NetworkAdapter(physicalAdapter: Value, netEnabled: Value, name: Value,
                                           macAddress: Value, manufacturer: Value,
                                           adapterType: Value, speed: Value)
  datatype Battery = Battery(name: Value, estimatedChargeRemaining: Value, batteryStatus: Value,
                             designCapacity: Option<Value>, fullChargeCapacity: Option<Value>)

  /** The result of each `Win32_*` query of a WMI connection; `None` where the
      query raised. */
  datatype Wmi = Wmi(
    processors: Option<seq<Processor>>,
    videoControllers: Option<seq<VideoController>>,
    physicalMemory: Option<seq<PhysicalMemory>>,
    diskDrives: Option<seq<DiskDrive>>,
    networkAdapters: Option<seq<NetworkAdapter>>,
    batteries: Option<seq<Battery>>)

  // ---- the dicts built from one object --------------------------------------------

  datatype CpuInfo = CpuInfo(name: Value, manufacturer: Value, description: Value,
                             coreCount: Value, clockSpeed: Value)
  datatype GpuInfo = GpuInfo(name: Value, driverVersion: Value, videoProcessor: Value,
                             videoModeDesc: Value, vram: int)
  datatype RamInfo = RamInfo(capacity: int, speed: Value, manufacturer: string, partNumber: string)
  datatype StorageInfo = StorageInfo(model: Value, interfaceType: Value, mediaType: Value,
                                     size: Option<int>, serialNumber: string)
  datatype NicInfo = NicInfo(name: Value, macAddress: Value, manufacturer: Value,
                             adapterType: Value, speed: real)
  datatype BatteryInfo = BatteryInfo(name: Value, estimatedChargeRemaining: Value,
                                     batteryStatus: string, designCapacity: Value,
                                     fullChargeCapacity: Value)

  /** Each conversion below gives `None` where building the dict raises. */

  /** The CPU dict never raises: each key is filled with a property read as is. */
  function CpuEntry(p: Processor): (r: Option<CpuInfo>)
    ensures r.Some?
    ensures && r.value.name == p.name && r.value.manufacturer == p.manufacturer
            && r.value.description == p.description && r.value.coreCount == p.numberOfCores
            && r.value.clockSpeed == p.maxClockSpeed
  {
    Some(CpuInfo(p.name, p.manufacturer, p.description, p.numberOfCores, p.maxClockSpeed))
  }

  /** VRAM in whole MiB, rounded down; raises when `AdapterRAM` is no integer. */
  function GpuEntry(g: VideoController): (r: Option<GpuInfo>)
    ensures r.Some? <==> ToInt(g.adapterRam).Some?
    ensures r.Some? ==> r.value.vram * MiB <= ToInt(g.adapterRam).value < (r.value.vram + 1) * MiB
    ensures r.Some? ==> && r.value.name == g.name && r.value.driverVersion == g.driverVersion
                        && r.value.videoProcessor == g.description
                        && r.value.videoModeDesc == g.videoModeDescription
  {
    match ToInt(g.adapterRam)
    case None => None
    case Some(ram) =>
      Some(GpuInfo(g.name, g.driverVersion, g.description, g.videoModeDescription, ram / MiB))
  }

  /** Capacity in whole MiB, rounded down; manufacturer and part number stripped.
      Raises when the capacity is no integer or either text is not a string. */
  function RamEntry(m: PhysicalMemory): (r: Option<RamInfo>)
    ensures r.Some? <==> ToInt(m.capacity).Some? && m.manufacturer.Str? && m.partNumber.Str?
    ensures r.Some? ==> r.value.capacity * MiB <= ToInt(m.capacity).value < (r.value.capacity + 1) * MiB
    ensures r.Some? ==> && r.value.speed == m.speed
                        && r.value.manufacturer == Strip(m.manufacturer.s)
                        && r.value.partNumber == Strip(m.partNumber.s)
  {
    match (ToInt(m.capacity), StripValue(m.manufacturer), StripValue(m.partNumber))
    case (Some(capacity), Some(manufacturer), Some(partNumber)) =>
      Some(RamInfo(capacity / MiB, m.speed, manufacturer, partNumber))
    case _ => None
  }

  /** Size in whole GiB, rounded down, when `Size` is truthy and `None` otherwise;
      the serial number stripped when truthy and "N/A" otherwise; the media type
      "Unknown" when the attribute is missing. */
  function StorageEntry(d: DiskDrive): (r: Option<StorageInfo>)
    ensures r.Some? <==> (Truthy(d.size) ==> ToInt(d.size).Some?)
                         && (Truthy(d.serialNumber) ==> d.serialNumber.Str?)
    ensures r.Some? ==> (r.value.size.Some? <==> Truthy(d.size))
    ensures r.Some? && r.value.size.Some? ==>
              r.value.size.value * GiB <= ToInt(d.size).value < (r.value.size.value + 1) * GiB
    ensures r.Some? ==>
              r.value.serialNumber == if Truthy(d.serialNumber) then Strip(d.serialNumber.s) else "N/A"
    ensures r.Some? ==> r.value.mediaType == if d.mediaType.Some? then d.mediaType.value else Str("Unknown")
    ensures r.Some? ==> r.value.model == d.model && r.value.interfaceType == d.interfaceType
  {
    var mediaType := if d.mediaType.Some? then d.mediaType.value else Str("Unknown");
    var size: Option<Option<int>> :=
      if !Truthy(d.size) then Some(None)
      else match ToInt(d.size) case None => None case Some(bytes) => Some(Some(bytes / GiB));
    var serial: Option<string> := if Truthy(d.serialNumber) then StripValue(d.serialNumber) else Some("N/A");
    if size.None? || serial.None? then None
    else Some(StorageInfo(d.model, d.interfaceType, mediaType, size.value, serial.value))
  }

  /** A serial number of blanks only is shown as the empty string, not as "N/A". */
  lemma BlankSerialIsEmpty(d: DiskDrive)
    requires StorageEntry(d).Some?
    requires d.serialNumber.Str? && d.serialNumber.s != [] && AllSpace(d.serialNumber.s)
    ensures StorageEntry(d).value.serialNumber == ""
  {
    var none: string := [];
    assert d.serialNumber.s + none + none == d.serialNumber.s;
    StripOfPadded(d.serialNumber.s, none, none);
  }

  /** The adapters `get_specs` reports: `PhysicalAdapter and NetEnabled`. */
  predicate IsActiveAdapter(n: NetworkAdapter)
    ensures IsActiveAdapter(n) ==> !n.physicalAdapter.Null? && !n.netEnabled.Null?
    ensures n.physicalAdapter == Bool(false) || n.netEnabled == Bool(false) ==> !IsActiveAdapter(n)
    ensures n.physicalAdapter == Bool(true) && n.netEnabled == Bool(true) ==> IsActiveAdapter(n)
  {
    Truthy(n.physicalAdapter) && Truthy(n.netEnabled)
  }

  /** Speed in Mbps, the exact quotient of `int(Speed) / 1000000`; raises when
      `Speed` is no integer. */
  function NicEntry(n: NetworkAdapter): (r: Option<NicInfo>)
    ensures r.Some? <==> ToInt(n.speed).Some?
    ensures r.Some? ==> r.value.speed * 1000000.0 == ToInt(n.speed).value as real
    ensures r.Some? ==> && r.value.name == n.name && r.value.macAddress == n.macAddress
                        && r.value.manufacturer == n.manufacturer && r.value.adapterType == n.adapterType
  {
    match ToInt(n.speed)
    case None => None
    case Some(bps) => Some(NicInfo(n.name, n.macAddress, n.manufacturer, n.adapterType, bps as real / 1000000.0))
  }

  /** The status named after `int(BatteryStatus)`; the capacities "N/A" when the
      attribute is missing. Raises when the status is no integer. */
  function BatteryEntry(b: Battery): (r: Option<BatteryInfo>)
    ensures r.Some? <==> ToInt(b.batteryStatus).Some?
    ensures r.Some? ==> r.value.batteryStatus == StatusName(ToInt(b.batteryStatus).value)
    ensures r.Some? ==> r.value.designCapacity == if b.designCapacity.Some? then b.designCapacity.value else Str("N/A")
    ensures r.Some? ==> r.value.fullChargeCapacity == if b.fullChargeCapacity.Some? then b.fullChargeCapacity.value else Str("N/A")
    ensures r.Some? ==> r.value.name == b.name && r.value.estimatedChargeRemaining == b.estimatedChargeRemaining
  {
    match ToInt(b.batteryStatus)
    case None => None
    case Some(code) =>
      Some(BatteryInfo(b.name, b.estimatedChargeRemaining, StatusName(code),
                       if b.designCapacity.Some? then b.designCapacity.value else Str("N/A"),
                       if b.fullChargeCapacity.Some? then b.fullChargeCapacity.value else Str("N/A")))
  }
}
