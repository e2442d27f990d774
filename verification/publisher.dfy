/**
 * One tick of the generic producer's loop: a usage-based temperature estimate
 * and the fixed six-key message it publishes.
 */
module Publisher {
  import opened Optional
  import opened Json
  import opened Metrics
  import opened Wire

  const GenericHeatCoefficient: real := 0.3

  /**
   * `get_cpu_temperature` before its rounding: a linear model of temperature
   * from a usage sample the estimate takes for itself.
   */
  function GenericEstimate(usage: real): (t: real)
    ensures ValidPercent(usage) ==> BaseTemperature <= t <= BaseTemperature + 30.0
    ensures usage == 0.0 ==> t == BaseTemperature
  {
    BaseTemperature + usage * GenericHeatCoefficient
  }

  /** The estimate orders processors as their usage does: a busier one is never estimated cooler. */
  lemma GenericEstimateMonotone(u1: real, u2: real)
    ensures GenericEstimate(u1) <= GenericEstimate(u2) <==> u1 <= u2
  {
  }

  /** Everything one tick reads from the operating system. */
  datatype GenericReadings = GenericReadings(
    usage: real,          // `psutil.cpu_percent(interval=1)` in the loop
    estimateUsage: real,  // the estimate's own `psutil.cpu_percent(interval=1)`
    memoryPercent: real,  // `psutil.virtual_memory().percent`
    diskUsed: nat,        // `psutil.disk_usage('/').used`
    diskTotal: nat,       // `psutil.disk_usage('/').total`
    time: real)           // `time.time()`

  /** The keys of every generic message. */
  const GenericKeys: set<string> :=
    {CpuUsageKey, CpuTemperatureKey, MemoryUsageKey, DiskUsageKey, TimestampKey, UnitKey}

  /**
   * The message of one tick, rounding left out. `None` when the disk's total
   * size is zero: the division raises and ends the loop.
   */
  function GenericMessage(r: GenericReadings): (m: Option<map<string, Value>>)
    ensures m.None? <==> r.diskTotal == 0
    ensures m.Some? ==> m.value.Keys == GenericKeys
    ensures m.Some? ==> m.value[UnitKey] == Str("celsius")
    ensures m.Some? ==> m.value[CpuUsageKey] == Float(r.usage) && m.value[MemoryUsageKey] == Float(r.memoryPercent)
    ensures m.Some? ==> m.value[TimestampKey] == Float(r.time)
    ensures m.Some? ==> m.value[CpuTemperatureKey] == Float(GenericEstimate(r.estimateUsage))
    ensures m.Some? ==> m.value[DiskUsageKey] == Float(DiskPercent(r.diskUsed, r.diskTotal).value)
    ensures m.Some? ==> m.value[CpuTemperatureKey].Float?
    ensures m.Some? && ValidPercent(r.estimateUsage)
            ==> BaseTemperature <= m.value[CpuTemperatureKey].f <= BaseTemperature + 30.0
    ensures m.Some? ==> m.value[DiskUsageKey].Float?
    ensures m.Some? && r.diskUsed <= r.diskTotal ==> ValidPercent(m.value[DiskUsageKey].f)
  {
    KeysDistinct();
    match DiskPercent(r.diskUsed, r.diskTotal)
    case None => None
    case Some(disk) =>
      Some(map[
        CpuUsageKey := Float(r.usage),
        CpuTemperatureKey := Float(GenericEstimate(r.estimateUsage)),
        MemoryUsageKey := Float(r.memoryPercent),
        DiskUsageKey := Float(disk),
        TimestampKey := Float(r.time),
        UnitKey := Str("celsius")])
  }
}
