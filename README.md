# WinStatz telemetry core, modelled in Dafny

WinStatz is a Windows desktop utility that samples live usage (per-core CPU
load, memory, per-disk read/write throughput, network throughput, battery) with
psutil, reads a hardware inventory (CPU, GPUs, RAM modules, disks, network
adapter, battery) through WMI, and shows both in a customtkinter window.

This project models the part of it that computes things:

- `get_usage` (src/stats.py): the `core1..coreN` CPU map, the per-device disk
  deltas in MiB between two counter reads, the network deltas, the battery's
  minutes left with the "unlimited" sentinel 2147483640, and one `try` per group,
  so a failing group becomes `None` on its own (module `Usage`).
- `get_specs` (src/stats.py): per-object conversions (VRAM and RAM capacity in
  whole MiB, disk size in whole GiB or `None`, stripped serial or "N/A", NIC speed
  in Mbps, battery status name) in `Inventory`; the two loop shapes (append a dict
  per object, or overwrite one dict so the last object wins) in `Collect`; the
  six independently contained groups in `CurrentSpecs`. Opening the WMI connection
  is outside every `try`, so its failure reaches the caller.
- `get_specs` (root stats.py), the older variant: one dict per group with the
  last object winning, and one `try` around everything, so any failure gives six
  `None`s (module `LegacySpecs`, with a lemma relating it to the newer variant).
- The battery status table shared by both variants (`BatteryStatus`).
- The GPU/RAM/disk pager of the advanced-specifications window
  (src/ui_functions.py) as a class with the index and the widget state it updates,
  plus a functional model of the presses (`Pager`), and the appearance-mode
  choice (`Appearance`).
- The Python behaviour this relies on: `str.strip()`, `str(n)`, `int(s)`
  (`Text`) and insertion-ordered dict assignment and lookup (`Dict`).

OS and WMI queries are inputs: each query result is a value, or `None` where the
query raised. Python's `None` (for a group replaced after an exception) is
`Option.None`; an empty group dict `{}` is `Slot.Empty`. A WMI property is a
`Value` (`Null`, string, integer or boolean) with Python's truthiness, and
`int()`/`.strip()` fail on the types for which Python raises.

Behaviour of the code that the model keeps:
- a disk present in the first read but missing from the second raises
  `KeyError`, and the whole disk group becomes `None`; the device is not skipped;
- deltas are not divided by the elapsed time (the wait is one second), and the
  network delta is in MiB, not megabits;
- the pager does not wrap around: `<` and `>` are disabled at the ends;
- the network inventory comes from the last physical, enabled adapter, not the
  first;
- in src/stats.py a failure to open the WMI connection is not contained.

## Model

| member | source | states |
|---|---|---|
| `Text.Strip` | src/stats.py:218-219 | `.strip()` result is no longer than its input and neither starts nor ends with whitespace |
| `Text.TrimStart` | src/stats.py:218 | the left half of `.strip()`: the longest suffix not starting with whitespace; everything dropped is whitespace |
| `Text.TrimEnd` | src/stats.py:219 | the right half of `.strip()`: the longest prefix not ending with whitespace; everything dropped is whitespace |
| `Text.StripOfPadded` | src/stats.py:236 | stripping removes exactly the whitespace padding around a string that has none at its ends, and nothing else |
| `Text.StripUnpadded` | src/stats.py:218-219 | `.strip()` leaves a string with no whitespace at its ends unchanged |
| `Text.StripIdempotent` | stats.py:118 | stripping a stripped value changes nothing |
| `Text.NatToString` | src/stats.py:40 | `str(n)` is a non-empty digit string with no leading zero |
| `Text.DigitsValueOfNatToString` | src/ui_functions.py:98 | reading back the digits of `str(n)` gives `n` |
| `Text.NatToStringInjective` | src/stats.py:39-40 | different numbers give different strings, so different `core<i>` keys |
| `Text.IntToString` | src/ui_functions.py:98 | `str(i)` is non-empty, starts with `-` exactly for negative `i`, and is digits after the sign |
| `Text.ParseSigned` | src/stats.py:203 | `int()` of an unpadded string succeeds iff it is an optional sign followed by at least one digit; a negative result has a `-` sign and a `-` sign gives no positive result |
| `Text.ParseInt` | src/stats.py:216 | `int(s)` succeeds iff `s` stripped of whitespace is an optional sign followed by at least one digit |
| `Text.IntToStringUnpadded` | src/stats.py:216 | `str(i)` is non-empty and neither starts nor ends with whitespace |
| `Text.ParseSignedOfIntToString` | src/stats.py:216 | `int()` of `str(i)` with no whitespace around it returns `i` |
| `Text.ParseIntOfIntToString` | src/stats.py:216 | `int()` of an integer's decimal string, with any surrounding whitespace, returns that integer |
| `Dict.Get` | src/stats.py:72-73 | the lookup finds a value exactly when the key is present, and the value found is that key's entry |
| `Dict.Assign` | src/stats.py:40 | after `d[k] = v` the key is present, and the dict grew by one entry iff the key was new |
| `Dict.AssignNewKey` | src/stats.py:40 | assigning a key not yet in the dict appends one entry at the end |
| `Dict.AssignExistingKey` | stats.py:79-83 | assigning an existing key keeps the dict's length and key order |
| `Dict.GetAfterAssign` | src/stats.py:249-253 | after `d[k] = v`, `d[k]` is `v` and every other key reads as before |
| `Dict.GetAt` | src/stats.py:72 | in a dict without repeated keys, each key reads its own entry |
| `Dict.AssignAllNewKeys` | src/stats.py:39-40 | assigning keys not yet present, one after another, appends their entries in order |
| `Dict.AssignAllExistingKeys` | stats.py:79-83 | assigning keys already present keeps the dict's length and key order |
| `Dict.GetAfterAssignAll` | src/stats.py:249-253 | after assigning a run of entries, each of their keys reads its value and every other key reads as before |
| `Dict.OverwriteLeavesLast` | src/stats.py:246-253 | when two objects assign the same keys in the same order to one dict, the dict ends up exactly the second object's |
| `BatteryStatus.StatusRoundTrip` | src/stats.py:268-292 | each of codes 1..9 and 11 has its own name, from which it is recovered |
| `BatteryStatus.StatusName` | src/stats.py:268-292 | the name is "Unknown" exactly for code 10 and every code outside 1..11 |
| `BatteryStatus.NamedCodesDistinct` | stats.py:143-167 | no two named codes share a name |
| `Usage.MiBDelta` | src/stats.py:75-76 | the delta is `(after - before) / 1024²` exactly, and is non-negative iff the counter did not decrease |
| `Usage.TimeLeftMins` | src/stats.py:115 | 2147483640 when seconds-left is psutil's unlimited constant; otherwise seconds-left divided by 60 rounded down (`mins*60 <= secs < mins*60+60`) |
| `Usage.SentinelMeaning` | src/stats.py:115 | the sentinel appears iff time is unlimited or a real reading falls in the one minute that rounds to 2147483640 |
| `Usage.RamUsageOf` | src/stats.py:50-55 | total, used and free are the byte counts in MiB (available memory as free); percent is passed through |
| `Usage.NetworkRateOf` | src/stats.py:92-102 | up and down are the MiB deltas of bytes sent and received |
| `Usage.BatteryUsageOf` | src/stats.py:111-116 | percent and plugged-in are passed through; minutes left follow `TimeLeftMins` |
| `Usage.CoreKey` | src/stats.py:40 | the key `core<i>` is "core" followed by digits that read back as `i` |
| `Usage.CoreKeyInjective` | src/stats.py:40 | `core<i>` and `core<j>` are the same key only when `i == j` |
| `Usage.CpuUsage` | src/stats.py:38-40 | the CPU map has one entry per reading, in reading order, `core<i+1>` mapped to the i-th reading |
| `Usage.CoreMapLookup` | src/stats.py:38-40 | the CPU map's keys are distinct, `core<n>` reads the n-th reading for n in 1..N, and every other key is absent |
| `Usage.DiskUsages` | src/stats.py:64-88 | one entry per device of the first read, in its order, with read/write MiB deltas; `None` exactly when a device is missing from the second read |
| `Usage.GetUsage` | src/stats.py:32-123 | five groups, each computed from its own reads only and `None` exactly when its own reads fail |
| `Inventory.ToInt` | src/stats.py:203 | `int(v)` fails iff `v` is `None` or a string `int()` rejects; an integer is itself and a boolean is 1 or 0 |
| `Inventory.CpuEntry` | src/stats.py:182-187 | the CPU dict never fails and holds name, manufacturer, description, core count and clock speed read as is |
| `Inventory.GpuEntry` | src/stats.py:198-204 | fails iff `int(AdapterRAM)` raises; VRAM is AdapterRAM in MiB rounded down; the other fields are passed through |
| `Inventory.RamEntry` | src/stats.py:215-220 | fails iff the capacity is no integer or a text field is no string; capacity in MiB rounded down; manufacturer and part number stripped |
| `Inventory.StorageEntry` | src/stats.py:231-237 | size in GiB rounded down iff `Size` is truthy, else `None`; serial stripped iff truthy, else "N/A"; media type "Unknown" when the attribute is missing, otherwise passed through; fails iff a conversion raises |
| `Inventory.BlankSerialIsEmpty` | src/stats.py:236 | a serial of whitespace only is truthy and is shown as "" rather than "N/A" |
| `Inventory.NicEntry` | src/stats.py:248-253 | fails iff `int(Speed)` raises; speed is `Speed / 1000000` exactly; the other fields are passed through |
| `Inventory.IsActiveAdapter` | src/stats.py:248 | an adapter whose `PhysicalAdapter` or `NetEnabled` is `None` or `False` is skipped, and one with both `True` is used |
| `Inventory.BatteryEntry` | src/stats.py:264-295 | fails iff `int(BatteryStatus)` raises; status is the code's name; missing capacities read "N/A" |
| `Collect.Collected` | src/stats.py:196-209 | the appended list has one converted dict per object, in order, and is `None` iff some conversion raises |
| `Collect.CollectAll` | src/stats.py:229-242 | the append loop, with the exception leaving it, yields exactly `Collected` |
| `Collect.LastIndex` | src/stats.py:247-248 | the index of the last object the `if` accepts, or -1 when none is |
| `Collect.LastKept` | src/stats.py:246-258 | the overwritten dict is `None` iff an accepted object fails to convert, else holds the last accepted object's keys, or is `{}` |
| `Collect.KeepLast` | src/stats.py:181-192 | the overwriting loop, with the exception leaving it, yields exactly `LastKept` |
| `Collect.LastOfCollected` | stats.py:89-95 | overwriting one dict per object gives the last element of the appended list, and fails exactly when appending does |
| `Collect.QueryAll` | src/stats.py:211-225 | a list group is `None` iff the query raises or some object fails to convert |
| `Collect.QueryLast` | src/stats.py:260-301 | a single-dict group is `None` iff the query raises or some accepted object fails to convert |
| `CurrentSpecs.GetSpecs` | src/stats.py:177-304 | no result iff opening WMI raises; otherwise the six groups in order, each from its own query |
| `CurrentSpecs.SpecsOf` | src/stats.py:179-301 | each group is `None` exactly when its own query or one of its own objects fails |
| `CurrentSpecs.NetworkFromLastActiveAdapter` | src/stats.py:244-258 | the network dict is `{}` iff no adapter is physical and enabled, else the last such adapter's |
| `LegacySpecs.GetSpecs` | stats.py:72-180 | the sequential reads under one `try` give exactly `SpecsOf`: six groups or six `None`s |
| `LegacySpecs.SpecsOf` | stats.py:72-180 | a failed connection gives six `None`s, and otherwise either all six groups are present or all are `None` |
| `LegacySpecs.AgreesWithCurrent` | stats.py:88-118 | the old variant fails iff some group of the new one fails; otherwise CPU, network and battery agree and GPU, RAM and disk keep the new list's last element |
| `Pager.Press` | src/ui_functions.py:99-110 | a press moves the index by at most one in the button's direction, moves it exactly when that button is enabled (`<` above 0, `>` below len-1), and keeps it within [0, len-1] |
| `Pager.Run` | src/ui_functions.py:99-110 | from index 0, any sequence of presses keeps the index within [0, len-1] |
| `Pager.NextReachesEveryItem` | src/ui_functions.py:109 | pressing `>` k times shows item k, for every k < len |
| `Pager.NoWrapAround` | src/ui_functions.py:99-100 | `>` on the last item and `<` on the first leave the index unchanged |
| `Pager.Title` | src/ui_functions.py:98 | the title is the heading plus 19 characters and the two numbers, and ends with `)` |
| `Pager.SplitAtSlash` | src/ui_functions.py:98 | in `digits/rest` the position of the slash determines both parts |
| `Pager.TitleSplits` | src/ui_functions.py:98 | the title is the heading, then `(`, the position, `/`, the length and `)` |
| `Pager.TitleDeterminesPosition` | src/ui_functions.py:98 | equal titles show equal positions and lengths |
| `Pager.Pager.constructor` | src/ui_functions.py:88-110 | index 0, title `(1/len)`, both buttons enabled, nothing shown yet |
| `Pager.Pager.Refresh` | src/ui_functions.py:91-100 | raises iff the index is outside [-len, len) and then leaves every widget as it was; otherwise shows the item (negative indices count from the end), the title `(index+1/len)`, `<` enabled iff index > 0, `>` iff index < len-1 |
| `Pager.Pager.PressPrev` | src/ui_functions.py:107 | when disabled nothing changes; when enabled the index drops by one and the refresh raises iff it leaves [-len, len), leaving the widgets, or else shows the new index; a consistent view stays consistent |
| `Pager.Pager.PressNext` | src/ui_functions.py:109 | when disabled nothing changes; when enabled the index rises by one and the refresh raises iff it leaves [-len, len), leaving the widgets, or else shows the new index; a consistent view stays consistent |
| `Pager.Open` | src/ui_functions.py:88-111 | the first refresh fails iff the list is empty, and then the widgets stay as created with both buttons enabled; otherwise the view is consistent at index 0 |
| `Pager.PressesOnEmpty` | src/ui_functions.py:92-111 | on an empty list the first refresh and a later `>` and `<` all raise, and no item is shown |
| `Appearance.ThemeFor` | src/ui_functions.py:43-56 | "Dark" selects ("#242424", "white"), "Light" ("#ebebeb", "black"), anything else no theme |
| `DetailLabels.CapacityFromDecimal` | src/stats.py:216 | a module whose `Capacity` is the decimal string of a byte count converts, with that count in whole MiB as its capacity |
| `DetailLabels.CapacityAsWrittenOverstates` | src/ui_functions.py:119 | a module of g GiB (g >= 1; 8 GiB for g = 8) is shown as "1024·g GB", which does not denote its size |
| `DetailLabels.CapacityShown` | src/ui_functions.py:119 | the corrected label shows the capacity amount get_specs computed |
| `DetailLabels.CapacityShownDenotesCapacity` | src/stats.py:216 | with the unit "MB", the shown amount denotes the module's bytes for every convertible module |

## Findings

| source | as written | input that shows it | evidently intended | confidence | as-written member | corrected member |
|---|---|---|---|---|---|---|
| src/ui_functions.py:119 | the RAM label prints the capacity, which src/stats.py:216 computes in MiB, followed by "GB" | a module whose `Capacity` is "8589934592" (8 GiB) is shown as "Capacity: 8192 GB" | the unit "MB", as the docstring of `get_specs` in stats.py:38 documents the capacity | high, not executed | `DetailLabels.CapacityAsWrittenOverstates` | `DetailLabels.CapacityShownDenotesCapacity` |

## Left out

- psutil and WMI calls (`cpu_percent`, `virtual_memory`, `disk_io_counters`, `net_io_counters`, `sensors_battery`, `wmi.WMI()`, `Win32_*`): foreign OS queries, modelled as inputs (`Usage.Readings`, `Inventory.Wmi`).
- `time.sleep` and every `print`: timing and output with no effect on the results.
- `Usage.RamUsageOf`: states the exact real quotient; `round(..., 1)` is floating point and not modelled.
- `Usage.DiskUsages`: states the exact real MiB deltas; `round(..., 2)` is not modelled.
- `Usage.NetworkRateOf`: states the exact real MiB deltas; `round(..., 2)` is not modelled.
- `Inventory.NicEntry`: the speed is the exact real quotient, not the float Python computes.
- `int()` on strings (`Text.ParseInt`): underscores between digits and non-ASCII digits are not accepted by the model; WMI reports neither.
- WMI property values of float type are not modelled; `Value` has no float case.
- The value of psutil's `POWER_TIME_UNLIMITED` (-2) is taken from psutil, which is not part of this model.
- The detail labels' text beyond the RAM capacity line (the CPU, GPU, disk, network and battery labels) is UI formatting; the pager models which item is shown, not its text. `len()` of a group that is `None` raises before a pager exists and is not modelled; nor is the rest of `open_3_dots_details` that an exception skips.
- Widget creation and placement, message boxes, `set_color_theme` (window restart), `open_settings` and src/ui.py: UI with no logic.
- `update_stats` in root stats.py: prints two library values.
- Concurrency: the code is single-threaded; overlapping calls are not modelled.
