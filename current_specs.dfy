/** `get_specs` in src/stats.py: six groups, each read and converted under its own
    `try`, so that a failure turns only that group into `None`. The WMI connection
    itself is opened outside every `try`: when that fails, the exception reaches
    the caller and no result is returned. */
module CurrentSpecs {
  import opened Wrappers
  import opened Inventory
  import opened Collect

  /** The six-element list `[cpu, gpus, rams, storage, network, battery]`. */
  datatype Specs = Specs(
    cpu: Option<Slot<CpuInfo>>,
    gpus: Option<seq<GpuInfo>>,
    rams: Option<seq<RamInfo>>,
    storage: Option<seq<StorageInfo>>,
    network: Option<Slot<NicInfo>>,
    battery: Option<Slot<BatteryInfo>>)

  /** What each group is, given the connection's query results. Each group is
      `None` exactly when its own query raised or one of its own objects could not
      be converted; nothing in one group affects another. */
  function SpecsOf(c: Wmi): (r: Specs)
    ensures r.cpu.None? <==> c.processors.None?
    ensures r.gpus.None? <==>
              c.videoControllers.None? || exists g :: g in c.videoControllers.value && GpuEntry(g).None?
    ensures r.rams.None? <==>
              c.physicalMemory.None? || exists m :: m in c.physicalMemory.value && RamEntry(m).None?
    ensures r.storage.None? <==>
              c.diskDrives.None? || exists d :: d in c.diskDrives.value && StorageEntry(d).None?
    ensures r.network.None? <==>
              c.networkAdapters.None?
              || exists n :: n in c.networkAdapters.value && IsActiveAdapter(n) && NicEntry(n).None?
    ensures r.battery.None? <==>
              c.batteries.None? || exists b :: b in c.batteries.value && BatteryEntry(b).None?
  {
    Specs(
      QueryLast(c.processors, Always, CpuEntry),
      QueryAll(c.videoControllers, GpuEntry),
      QueryAll(c.physicalMemory, RamEntry),
      QueryAll(c.diskDrives, StorageEntry),
      QueryLast(c.networkAdapters, IsActiveAdapter, NicEntry),
      QueryLast(c.batteries, Always, BatteryEntry))
  }

  /** `conn` is `None` when `wmi.WMI()` raised. */
  method GetSpecs(conn: Option<Wmi>) returns (r: Option<Specs>)
    ensures r.None? <==> conn.None?
    ensures r.Some? ==> r.value == SpecsOf(conn.value)
  {
    if conn.None? {
      return None;
    }
    var c := conn.value;
    var cpu: Option<Slot<CpuInfo>> := None;
    if c.processors.Some? {
      cpu := KeepLast(c.processors.value, Always, CpuEntry);
    }
    var gpus: Option<seq<GpuInfo>> := None;
    if c.videoControllers.Some? {
      gpus := CollectAll(c.videoControllers.value, GpuEntry);
    }
    var rams: Option<seq<RamInfo>> := None;
    if c.physicalMemory.Some? {
      rams := CollectAll(c.physicalMemory.value, RamEntry);
    }
    var storage: Option<seq<StorageInfo>> := None;
    if c.diskDrives.Some? {
      storage := CollectAll(c.diskDrives.value, StorageEntry);
    }
    var network: Option<Slot<NicInfo>> := None;
    if c.networkAdapters.Some? {
      network := KeepLast(c.networkAdapters.value, IsActiveAdapter, NicEntry);
    }
    var battery: Option<Slot<BatteryInfo>> := None;
    if c.batteries.Some? {
      battery := KeepLast(c.batteries.value, Always, BatteryEntry);
    }
    return Some(Specs(cpu, gpus, rams, storage, network, battery));
  }

  /** The network group comes from the last adapter that is physical and enabled;
      inactive adapters never contribute, and without an active one it is `{}`. */
  lemma NetworkFromLastActiveAdapter(c: Wmi, adapters: seq<NetworkAdapter>)
    requires c.networkAdapters == Some(adapters)
    requires SpecsOf(c).network.Some?
    ensures (forall n :: n in adapters ==> !IsActiveAdapter(n)) <==> SpecsOf(c).network == Some(Empty)
    ensures SpecsOf(c).network.value.Holds? ==>
              exists k :: 0 <= k < |adapters| && IsActiveAdapter(adapters[k])
                          && NicEntry(adapters[k]) == Some(SpecsOf(c).network.value.item)
                          && forall j :: k < j < |adapters| ==> !IsActiveAdapter(adapters[j])
  {
    var k := LastIndex(adapters, IsActiveAdapter);
    if k >= 0 {
      assert adapters[k] in adapters;
    }
  }
}
