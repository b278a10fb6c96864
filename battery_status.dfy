/** The WMI `Win32_Battery.BatteryStatus` code and the name the inventory shows for it. */
module BatteryStatus {
  import opened Wrappers

  /** The named status of a `BatteryStatus` code; code 10 and every code outside
      1..11 read as "Unknown". */
  function StatusName(code: int): (name: string)
    ensures name == "Unknown" <==> !IsNamedCode(code)
  {
    match code
    case 1 => "Discharging"
    case 2 => "Plugged In, Fully Charged"
    case 3 => "Fully Charged"
    case 4 => "Low Battery"
    case 5 => "Critical Battery"
    case 6 => "Charging"
    case 7 => "Charging (High)"
    case 8 => "Charging (Low)"
    case 9 => "Charging (Critical)"
    case 10 => "Unknown"
    case 11 => "Partially Charged"
    case _ => "Unknown"
  }

  /** The codes that have a name of their own. */
  predicate IsNamedCode(code: int)
  {
    1 <= code <= 11 && code != 10
  }

  /** Reading a status name back to its code: the inverse of `StatusName` on the
      named codes. */
  function StatusCode(name: string): Option<int>
  {
    if name == "Discharging" then Some(1)
    else if name == "Plugged In, Fully Charged" then Some(2)
    else if name == "Fully Charged" then Some(3)
    else if name == "Low Battery" then Some(4)
    else if name == "Critical Battery" then Some(5)
    else if name == "Charging" then Some(6)
    else if name == "Charging (High)" then Some(7)
    else if name == "Charging (Low)" then Some(8)
    else if name == "Charging (Critical)" then Some(9)
    else if name == "Partially Charged" then Some(11)
    else None
  }

  /** Every named code is recovered from its name. */
  lemma StatusRoundTrip(code: int)
    requires IsNamedCode(code)
    ensures StatusCode(StatusName(code)) == Some(code)
  {
  }

  /** No two named codes share a name. */
  lemma NamedCodesDistinct(a: int, b: int)
    requires IsNamedCode(a) && IsNamedCode(b)
    ensures StatusName(a) == StatusName(b) ==> a == b
  {
    StatusRoundTrip(a);
    StatusRoundTrip(b);
  }
}
