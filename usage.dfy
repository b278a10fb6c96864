/** One call of `get_usage` in src/stats.py: the five usage groups, each computed
    from the counters the OS reported (given here as inputs) and each replaced by
    `None` when reading or computing it raised. */
module Usage {
  import opened Wrappers
  import opened Text
  import opened Dict
  import opened Units

  /** psutil's `POWER_TIME_UNLIMITED`: the seconds-left value that means "on AC power". */
  const PowerTimeUnlimited: int := -2

  /** The minutes-left value that stands for "unlimited". */
  const UnlimitedMinutes: int := 2147483640

  // ---- what the OS reports -------------------------------------------------

  /** One device's cumulative entry of `disk_io_counters(perdisk=True)`. */
  datatype DiskIo = DiskIo(readBytes: int, writeBytes: int)

  /** The system-wide cumulative entry of `net_io_counters()`. */
  datatype NetIo = NetIo(bytesSent: int, bytesRecv: int)

  /** `virtual_memory()`. */
  datatype VirtualMemory = VirtualMemory(total: int, used: int, available: int, percent: real)

  /** `sensors_battery()`. */
  datatype SensorsBattery = SensorsBattery(percent: real, powerPlugged: Option<bool>, secsLeft: int)

  /** Everything one call reads. `None` marks a read that raised; for the battery
      it also marks `sensors_battery()` returning `None` (no battery), whose
      attribute access then raises. The disk and network counters are each read
      twice, one second apart. */
  datatype Readings = Readings(
    cpu: Option<seq<real>>,
    ram: Option<VirtualMemory>,
    disks1: Option<Dict<DiskIo>>,
    disks2: Option<Dict<DiskIo>>,
    net1: Option<NetIo>,
    net2: Option<NetIo>,
    battery: Option<SensorsBattery>)

  // ---- what get_usage returns ------------------------------------------------

  datatype RamUsage = RamUsage(total: real, used: real, free: real, percent: real)
  datatype DiskRate = DiskRate(device: string, readSpeed: real, writeSpeed: real)
  datatype NetworkRate = NetworkRate(up: real, down: real)
  datatype BatteryUsage = BatteryUsage(percent: real, pluggedIn: Option<bool>, timeLeftMins: int)

  /** The five-element list `[cpu, ram, disks, network, battery]`, in that order. */
  datatype UsageSnapshot = UsageSnapshot(
    cpu: Option<Dict<real>>,
    ram: Option<RamUsage>,
    disks: Option<seq<DiskRate>>,
    network: Option<NetworkRate>,
    battery: Option<BatteryUsage>)

  // ---- conversions -----------------------------------------------------------

  /** The growth of a byte counter between two reads, in MiB (before rounding). */
  function MiBDelta(before: int, after: int): (r: real)
    ensures r * (MiB as real) == (after - before) as real
    ensures r >= 0.0 <==> after >= before
  {
    (after - before) as real / (MiB as real)
  }

  /** Battery minutes left: whole minutes, rounded down, of the seconds left, or the
      sentinel when the OS reports unlimited time. */
  function TimeLeftMins(secsLeft: int): (mins: int)
    ensures secsLeft == PowerTimeUnlimited ==> mins == UnlimitedMinutes
    ensures secsLeft != PowerTimeUnlimited ==> mins * 60 <= secsLeft < mins * 60 + 60
  {
    if secsLeft != PowerTimeUnlimited then secsLeft / 60 else UnlimitedMinutes
  }

  /** The sentinel is not reserved: a real reading of about 4085 years also gives it. */
  lemma SentinelMeaning(secsLeft: int)
    ensures TimeLeftMins(secsLeft) == UnlimitedMinutes <==>
            secsLeft == PowerTimeUnlimited
            || UnlimitedMinutes * 60 <= secsLeft < UnlimitedMinutes * 60 + 60
  {
  }

  function RamUsageOf(m: VirtualMemory): (r: RamUsage)
    ensures r.total * (MiB as real) == m.total as real
    ensures r.used * (MiB as real) == m.used as real
    ensures r.free * (MiB as real) == m.available as real
    ensures r.percent == m.percent
  {
    RamUsage(m.total as real / MiB as real, m.used as real / MiB as real,
             m.available as real / MiB as real, m.percent)
  }

  function NetworkRateOf(net1: NetIo, net2: NetIo): (r: NetworkRate)
    ensures r.up == MiBDelta(net1.bytesSent, net2.bytesSent)
    ensures r.down == MiBDelta(net1.bytesRecv, net2.bytesRecv)
  {
    NetworkRate(MiBDelta(net1.bytesSent, net2.bytesSent), MiBDelta(net1.bytesRecv, net2.bytesRecv))
  }

  function BatteryUsageOf(b: SensorsBattery): (r: BatteryUsage)
    ensures r.percent == b.percent && r.pluggedIn == b.powerPlugged
    ensures r.timeLeftMins == TimeLeftMins(b.secsLeft)
  {
    BatteryUsage(b.percent, b.powerPlugged, TimeLeftMins(b.secsLeft))
  }

  // ---- the CPU map -------------------------------------------------------------

  /** The key `f"core{i}"`. */
  function CoreKey(i: nat): (k: string)
    ensures |k| > 4 && k[..4] == "core" && AllDigits(k[4..])
    ensures DigitsValue(k[4..]) == i
  {
    var k := "core" + NatToString(i);
    assert k[4..] == NatToString(i);
    DigitsValueOfNatToString(i);
    k
  }

  /** Different cores get different keys, since the number is read back from the key. */
  lemma CoreKeyInjective(i: nat, j: nat)
    ensures CoreKey(i) == CoreKey(j) ==> i == j
  {
  }

  /** The CPU map of a list of per-core readings: the i-th entry, in insertion
      order, is `core<i+1>` mapped to the i-th reading. */
  ghost predicate IsCoreMap(d: Dict<real>, readings: seq<real>)
  {
    |d| == |readings| && forall i :: 0 <= i < |d| ==> d[i] == (CoreKey(i + 1), readings[i])
  }

  /** Building the CPU map by assigning `core<i>` for each reading in turn. */
  method CpuUsage(readings: seq<real>) returns (d: Dict<real>)
    ensures IsCoreMap(d, readings)
  {
    d := [];
    var i := 0;
    while i < |readings|
      invariant 0 <= i <= |readings|
      invariant IsCoreMap(d, readings[..i])
    {
      assert !HasKey(d, CoreKey(i + 1)) by {
        forall j | 0 <= j < |d| ensures d[j].0 != CoreKey(i + 1) {
          CoreKeyInjective(j + 1, i + 1);
        }
      }
      AssignNewKey(d, CoreKey(i + 1), readings[i]);
      d := Assign(d, CoreKey(i + 1), readings[i]);
      i := i + 1;
    }
    assert readings[..i] == readings;
  }

  /** A CPU map has one distinct key per reading, `core1..coreN`, and `core<n>`
      reads the n-th reading; every other key is absent. */
  lemma CoreMapLookup(d: Dict<real>, readings: seq<real>, key: string)
    requires IsCoreMap(d, readings)
    ensures DistinctKeys(d)
    ensures forall n :: 1 <= n <= |readings| ==> Get(d, CoreKey(n)) == Some(readings[n - 1])
    ensures (forall n :: 1 <= n <= |readings| ==> key != CoreKey(n)) ==> Get(d, key).None?
  {
    forall i, j | 0 <= i < j < |d| ensures d[i].0 != d[j].0 {
      CoreKeyInjective(i + 1, j + 1);
    }
    forall n | 1 <= n <= |readings| ensures Get(d, CoreKey(n)) == Some(readings[n - 1]) {
      var r := Get(d, CoreKey(n));
      assert d[n - 1].0 == CoreKey(n);
      var i :| 0 <= i < |d| && d[i] == (CoreKey(n), r.value);
      CoreKeyInjective(i + 1, n);
    }
    if Get(d, key).Some? {
      var i :| 0 <= i < |d| && d[i].0 == key;
      assert key == CoreKey(i + 1);
    }
  }

  // ---- disk throughput -----------------------------------------------------

  /** The throughput of every device of the first read, in its order: MiB read and
      written between the reads. It is `None` exactly when a device of the first
      read is missing from the second (the lookup raises `KeyError`); such a device
      is not skipped. */
  ghost predicate DiskRatesFrom(r: Option<seq<DiskRate>>, first: Dict<DiskIo>, second: Dict<DiskIo>)
  {
    && (r.None? <==> exists i :: 0 <= i < |first| && !HasKey(second, first[i].0))
    && (r.Some? ==>
          && |r.value| == |first|
          && forall i :: 0 <= i < |first| ==>
               && Get(second, first[i].0).Some?
               && r.value[i].device == first[i].0
               && r.value[i].readSpeed == MiBDelta(first[i].1.readBytes, Get(second, first[i].0).value.readBytes)
               && r.value[i].writeSpeed == MiBDelta(first[i].1.writeBytes, Get(second, first[i].0).value.writeBytes))
  }

  method DiskUsages(first: Dict<DiskIo>, second: Dict<DiskIo>) returns (r: Option<seq<DiskRate>>)
    ensures DiskRatesFrom(r, first, second)
  {
    var rates: seq<DiskRate> := [];
    var i := 0;
    while i < |first|
      invariant 0 <= i <= |first|
      invariant |rates| == i
      invariant forall j :: 0 <= j < i ==>
                  && Get(second, first[j].0).Some?
                  && rates[j].device == first[j].0
                  && rates[j].readSpeed == MiBDelta(first[j].1.readBytes, Get(second, first[j].0).value.readBytes)
                  && rates[j].writeSpeed == MiBDelta(first[j].1.writeBytes, Get(second, first[j].0).value.writeBytes)
    {
      var (device, c1) := first[i];
      var found := Get(second, device);
      if found.None? {
        return None;
      }
      var c2 := found.value;
      rates := rates + [DiskRate(device, MiBDelta(c1.readBytes, c2.readBytes), MiBDelta(c1.writeBytes, c2.writeBytes))];
      i := i + 1;
    }
    return Some(rates);
  }

  // ---- the whole call ------------------------------------------------------

  /** Each group is computed from its own reads only, and a failure in one group
      makes that group `None` and leaves the others as they are. */
  method GetUsage(inp: Readings) returns (u: UsageSnapshot)
    ensures u.cpu.Some? <==> inp.cpu.Some?
    ensures inp.cpu.Some? ==> IsCoreMap(u.cpu.value, inp.cpu.value)
    ensures u.ram == if inp.ram.Some? then Some(RamUsageOf(inp.ram.value)) else None
    ensures inp.disks1.None? || inp.disks2.None? ==> u.disks.None?
    ensures inp.disks1.Some? && inp.disks2.Some? ==>
              DiskRatesFrom(u.disks, inp.disks1.value, inp.disks2.value)
    ensures u.network == if inp.net1.Some? && inp.net2.Some?
                         then Some(NetworkRateOf(inp.net1.value, inp.net2.value)) else None
    ensures u.battery == if inp.battery.Some? then Some(BatteryUsageOf(inp.battery.value)) else None
  {
    var cpu: Option<Dict<real>> := None;
    if inp.cpu.Some? {
      var d := CpuUsage(inp.cpu.value);
      cpu := Some(d);
    }
    var ram := if inp.ram.Some? then Some(RamUsageOf(inp.ram.value)) else None;
    var disks: Option<seq<DiskRate>> := None;
    if inp.disks1.Some? && inp.disks2.Some? {
      disks := DiskUsages(inp.disks1.value, inp.disks2.value);
    }
    var network := if inp.net1.Some? && inp.net2.Some?
                   then Some(NetworkRateOf(inp.net1.value, inp.net2.value)) else None;
    var battery := if inp.battery.Some? then Some(BatteryUsageOf(inp.battery.value)) else None;
    u := UsageSnapshot(cpu, ram, disks, network, battery);
  }
}
