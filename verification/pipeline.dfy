/**
 * The path a snapshot takes from either producer to the dashboard: a message
 * built by one tick, handled as a JSON object by the cache, read back by the
 * accessor.
 */
module Pipeline {
  import opened Optional
  import opened Json
  import opened Wire
  import opened Metrics
  import opened ThermalProbe
  import opened LinuxSender
  import opened Publisher
  import opened Dashboard

  /**
   * A generic message sets the cache to its temperature estimate, usage,
   * memory and timestamp, whatever the cache held before.
   */
  lemma GenericMessageUpdatesCache(c: Cache, r: GenericReadings, now: real)
    requires GenericMessage(r).Some?
    ensures OnMessage(c, Some(Object(GenericMessage(r).value)), now)
            == Cache(Float(GenericEstimate(r.estimateUsage)), Float(r.usage), Float(r.memoryPercent), Float(r.time))
  {
  }

  /**
   * A Linux message sets the cache to the probe's temperature, usage, memory
   * and timestamp; its extra keys leave no trace. With a well-formed usage
   * sample for the estimate the cached temperature is plausible.
   */
  lemma LinuxMessageUpdatesCache(c: Cache, r: LinuxReadings, now: real)
    requires r.diskTotal > 0
    ensures var t := CpuTemperatureLinux(r.sysThermal, r.sensorsReport, r.zoneThermal, r.chainUsage, r.fallbackUsage);
            OnMessage(c, Some(Object(LinuxTick(r).value)), now)
            == Cache(Float(t), Float(r.usage), Float(r.memoryPercent), Float(r.time))
    ensures ValidPercent(r.chainUsage) || ValidPercent(r.fallbackUsage) ==>
              var t := OnMessage(c, Some(Object(LinuxTick(r).value)), now).temperature;
              t.Float? && Plausible(t.f)
  {
  }

  /**
   * The dashboard's view after a generic message: its `temperature`, `usage`,
   * `memory` and `timestamp` are the message's `cpu_temperature`,
   * `cpu_usage`, `memory_usage` and `timestamp`.
   */
  lemma GenericMessageReachesView(c: Cache, r: GenericReadings, now: real)
    requires GenericMessage(r).Some?
    ensures var m := GenericMessage(r).value;
            var view := GetData(OnMessage(c, Some(Object(m)), now));
            && view["temperature"] == m[CpuTemperatureKey] && view["usage"] == m[CpuUsageKey]
            && view["memory"] == m[MemoryUsageKey] && view["timestamp"] == m[TimestampKey]
  {
  }

  /**
   * A published object with usage 42.0, temperature 47.6, memory 60.0 and
   * timestamp 1700000000.0 is what the dashboard then serves.
   */
  lemma EndToEndExample(start: real, now: real)
    ensures var payload := map[CpuUsageKey := Float(42.0), CpuTemperatureKey := Float(47.6),
                               MemoryUsageKey := Float(60.0), TimestampKey := Float(1700000000.0)];
            GetData(OnMessage(InitialCache(start), Some(Object(payload)), now))
            == map["temperature" := Float(47.6), "usage" := Float(42.0),
                   "memory" := Float(60.0), "timestamp" := Float(1700000000.0)]
  {
    KeysDistinct();
  }
}
