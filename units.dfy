/** The binary units the telemetry code divides byte counts by. */
module Units {
  /** `1024 ** 2`, the divisor that turns bytes into MiB. */
  const MiB: int := 1048576

  /** `1024 ** 3`, the divisor that turns bytes into GiB. */
  const GiB: int := 1073741824
}
