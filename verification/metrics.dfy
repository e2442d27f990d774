/** Quantities and constants both producers share. */
module Metrics {
  import opened Optional

  /** A percentage as `psutil` reports it when it is well formed. */
  predicate ValidPercent(u: real) {
    0.0 <= u <= 100.0
  }

  /** The temperature both usage-based estimates start from, in degrees Celsius. */
  const BaseTemperature: real := 35.0

  /**
   * `(disk_info.used / disk_info.total) * 100` before rounding; `None` where
   * the division raises `ZeroDivisionError`.
   */
  function DiskPercent(used: nat, total: nat): (r: Option<real>)
    ensures r.None? <==> total == 0
    ensures r.Some? ==> r.value * total as real == 100.0 * used as real
    ensures r.Some? && used <= total ==> ValidPercent(r.value)
  {
    if total == 0 then None else Some(used as real / total as real * 100.0)
  }
}
