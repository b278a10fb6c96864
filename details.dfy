/** The capacity line of the RAM detail label in the advanced-specifications window
    (src/ui_functions.py): the capacity `get_specs` reports, which is in MiB,
    followed by a unit. */
module DetailLabels {
  import opened Wrappers
  import opened Text
  import opened Inventory
  import opened Units

  /** An amount and the unit the label prints after it. */
  datatype Quantity = Quantity(amount: int, unit: string)

  /** The bytes one unit stands for; only the two units in question are known. */
  function UnitBytes(unit: string): Option<int>
  {
    if unit == "MB" then Some(MiB) else if unit == "GB" then Some(GiB) else None
  }

  /** A quantity denotes a byte count when it is that count in its unit, rounded down. */
  predicate Denotes(q: Quantity, bytes: int)
  {
    UnitBytes(q.unit).Some? &&
    q.amount * UnitBytes(q.unit).value <= bytes < (q.amount + 1) * UnitBytes(q.unit).value
  }

  /** As written: the MiB count labelled "GB". */
  function CapacityShownAsWritten(r: RamInfo): Quantity
  {
    Quantity(r.capacity, "GB")
  }

  /** A module whose `Capacity` is the decimal string of `bytes` converts, with
      `bytes` in whole MiB as its capacity. */
  lemma CapacityFromDecimal(bytes: int, m: PhysicalMemory)
    requires m.capacity == Str(IntToString(bytes)) && m.manufacturer.Str? && m.partNumber.Str?
    ensures RamEntry(m).Some? && RamEntry(m).value.capacity == bytes / MiB
  {
    IntToStringUnpadded(bytes);
    StripUnpadded(IntToString(bytes));
    ParseSignedOfIntToString(bytes);
    assert ToInt(m.capacity) == Some(bytes);
  }

  /** `gib` GiB are `1024 * gib` MiB exactly. */
  lemma GiBInMiB(gib: int)
    ensures (gib * GiB) / MiB == 1024 * gib
  {
    assert gib * GiB == (1024 * gib) * MiB;
  }

  /** A module of `gib` GiB (WMI reports `Capacity` as the decimal string of its
      bytes; 8 GiB is "8589934592") is shown as `1024 * gib` "GB", which does not
      denote its size. */
  lemma CapacityAsWrittenOverstates(gib: int)
    requires gib >= 1
    ensures var m := PhysicalMemory(Str(IntToString(gib * GiB)), Int(3200), Str("Maker"), Str("Part"));
            && RamEntry(m).Some?
            && CapacityShownAsWritten(RamEntry(m).value) == Quantity(1024 * gib, "GB")
            && !Denotes(CapacityShownAsWritten(RamEntry(m).value), gib * GiB)
  {
    var bytes := gib * GiB;
    var m := PhysicalMemory(Str(IntToString(bytes)), Int(3200), Str("Maker"), Str("Part"));
    CapacityFromDecimal(bytes, m);
    GiBInMiB(gib);
    assert bytes > 0;
    assert (1024 * gib) * GiB == 1024 * bytes;
  }

  /** Corrected: the MiB count labelled "MB". */
  function CapacityShown(r: RamInfo): (q: Quantity)
    ensures q.amount == r.capacity
  {
    Quantity(r.capacity, "MB")
  }

  /** The corrected label denotes the module's capacity for every module
      `get_specs` can convert. */
  lemma CapacityShownDenotesCapacity(m: PhysicalMemory)
    ensures RamEntry(m).Some? ==> Denotes(CapacityShown(RamEntry(m).value), ToInt(m.capacity).value)
  {
  }
}
