/** The key names of the published message, as they appear on the wire. */
module Wire {

  const CpuUsageKey: string := "cpu_usage"
  const CpuTemperatureKey: string := "cpu_temperature"
  const MemoryUsageKey: string := "memory_usage"
  const DiskUsageKey: string := "disk_usage"
  const CpuFrequencyKey: string := "cpu_frequency"
  const CpuCoresKey: string := "cpu_cores"
  const TimestampKey: string := "timestamp"
  const SystemKey: string := "system"
  const UnitKey: string := "unit"
  const CoresUsageKey: string := "cores_usage"

  /** No two message keys coincide, so writing one never overwrites another. */
  lemma KeysDistinct()
    ensures && CpuUsageKey != CpuTemperatureKey && CpuUsageKey != MemoryUsageKey && CpuUsageKey != DiskUsageKey
            && CpuUsageKey != CpuFrequencyKey && CpuUsageKey != CpuCoresKey && CpuUsageKey != TimestampKey
            && CpuUsageKey != SystemKey && CpuUsageKey != UnitKey && CpuUsageKey != CoresUsageKey
    ensures && CpuTemperatureKey != MemoryUsageKey && CpuTemperatureKey != DiskUsageKey
            && CpuTemperatureKey != CpuFrequencyKey && CpuTemperatureKey != CpuCoresKey
            && CpuTemperatureKey != TimestampKey && CpuTemperatureKey != SystemKey
            && CpuTemperatureKey != UnitKey && CpuTemperatureKey != CoresUsageKey
    ensures && MemoryUsageKey != DiskUsageKey && MemoryUsageKey != CpuFrequencyKey && MemoryUsageKey != CpuCoresKey
            && MemoryUsageKey != TimestampKey && MemoryUsageKey != SystemKey && MemoryUsageKey != UnitKey
            && MemoryUsageKey != CoresUsageKey
    ensures && DiskUsageKey != CpuFrequencyKey && DiskUsageKey != CpuCoresKey && DiskUsageKey != TimestampKey
            && DiskUsageKey != SystemKey && DiskUsageKey != UnitKey && DiskUsageKey != CoresUsageKey
    ensures && CpuFrequencyKey != CpuCoresKey && CpuFrequencyKey != TimestampKey && CpuFrequencyKey != SystemKey
            && CpuFrequencyKey != UnitKey && CpuFrequencyKey != CoresUsageKey
    ensures && CpuCoresKey != TimestampKey && CpuCoresKey != SystemKey && CpuCoresKey != UnitKey
            && CpuCoresKey != CoresUsageKey
    ensures TimestampKey != SystemKey && TimestampKey != UnitKey && TimestampKey != CoresUsageKey
    ensures SystemKey != UnitKey && SystemKey != CoresUsageKey && UnitKey != CoresUsageKey
  {
  }
}
