/** `get_specs` in the root stats.py, the older variant: each group is one dict
    whose keys are overwritten for every object, so only the last object's values
    remain; and one `try` covers the whole call, so any failure, including opening
    the WMI connection, makes all six groups `None`. */
module LegacySpecs {
  import opened Wrappers
  import opened Inventory
  import opened Collect
  import CurrentSpecs

  /** The six-element list `[cpu, gpu, ram, storage, network, battery]`. */
  datatype Specs = Specs(
    cpu: Option<Slot<CpuInfo>>,
    gpu: Option<Slot<GpuInfo>>,
    ram: Option<Slot<RamInfo>>,
    storage: Option<Slot<StorageInfo>>,
    network: Option<Slot<NicInfo>>,
    battery: Option<Slot<BatteryInfo>>)

  /** `[None, None, None, None, None, None]`. */
  const AllNone: Specs := Specs(None, None, None, None, None, None)

  /** What the call returns: either every group is present or every group is
      `None`, and a failed connection gives six `None`s. */
  function SpecsOf(conn: Option<Wmi>): (r: Specs)
    ensures conn.None? ==> r == AllNone
    ensures r == AllNone
            || (r.cpu.Some? && r.gpu.Some? && r.ram.Some? && r.storage.Some? && r.network.Some? && r.battery.Some?)
  {
    if conn.None? then AllNone
    else
      var c := conn.value;
      var cpu := QueryLast(c.processors, Always, CpuEntry);
      var gpu := QueryLast(c.videoControllers, Always, GpuEntry);
      var ram := QueryLast(c.physicalMemory, Always, RamEntry);
      var storage := QueryLast(c.diskDrives, Always, StorageEntry);
      var network := QueryLast(c.networkAdapters, IsActiveAdapter, NicEntry);
      var battery := QueryLast(c.batteries, Always, BatteryEntry);
      if cpu.None? || gpu.None? || ram.None? || storage.None? || network.None? || battery.None?
      then AllNone
      else Specs(cpu, gpu, ram, storage, network, battery)
  }

  /** The groups in the order the source reads them; the first exception ends the call. */
  method GetSpecs(conn: Option<Wmi>) returns (r: Specs)
    ensures r == SpecsOf(conn)
  {
    if conn.None? {
      return AllNone;
    }
    var c := conn.value;
    if c.processors.None? {
      return AllNone;
    }
    var cpu := KeepLast(c.processors.value, Always, CpuEntry);
    if cpu.None? {
      return AllNone;
    }
    if c.videoControllers.None? {
      return AllNone;
    }
    var gpu := KeepLast(c.videoControllers.value, Always, GpuEntry);
    if gpu.None? {
      return AllNone;
    }
    if c.physicalMemory.None? {
      return AllNone;
    }
    var ram := KeepLast(c.physicalMemory.value, Always, RamEntry);
    if ram.None? {
      return AllNone;
    }
    if c.diskDrives.None? {
      return AllNone;
    }
    var storage := KeepLast(c.diskDrives.value, Always, StorageEntry);
    if storage.None? {
      return AllNone;
    }
    if c.networkAdapters.None? {
      return AllNone;
    }
    var network := KeepLast(c.networkAdapters.value, IsActiveAdapter, NicEntry);
    if network.None? {
      return AllNone;
    }
    if c.batteries.None? {
      return AllNone;
    }
    var battery := KeepLast(c.batteries.value, Always, BatteryEntry);
    if battery.None? {
      return AllNone;
    }
    return Specs(cpu, gpu, ram, storage, network, battery);
  }

  /** The older variant fails exactly when some group of the newer one fails, and
      otherwise keeps, of each list the newer one builds, only its last element. */
  lemma AgreesWithCurrent(c: Wmi)
    ensures var cur := CurrentSpecs.SpecsOf(c);
            SpecsOf(Some(c)) == AllNone <==>
              cur.cpu.None? || cur.gpus.None? || cur.rams.None? || cur.storage.None?
              || cur.network.None? || cur.battery.None?
    ensures var cur := CurrentSpecs.SpecsOf(c);
            var legacy := SpecsOf(Some(c));
            legacy != AllNone ==>
              && legacy.cpu == cur.cpu && legacy.network == cur.network && legacy.battery == cur.battery
              && legacy.gpu == Some(LastOf(cur.gpus.value))
              && legacy.ram == Some(LastOf(cur.rams.value))
              && legacy.storage == Some(LastOf(cur.storage.value))
  {
    if c.videoControllers.Some? {
      LastOfCollected(c.videoControllers.value, Always, GpuEntry);
    }
    if c.physicalMemory.Some? {
      LastOfCollected(c.physicalMemory.value, Always, RamEntry);
    }
    if c.diskDrives.Some? {
      LastOfCollected(c.diskDrives.value, Always, StorageEntry);
    }
  }
}
