/**
 * One tick of the Linux producer's loop: sample every metric, then build the
 * message it publishes. The operating-system readings of the tick are inputs.
 */
module LinuxSender {
  import opened Optional
  import opened Json
  import opened Metrics
  import opened ThermalProbe
  import opened Wire

  /** Everything one tick reads from the operating system. */
  datatype LinuxReadings = LinuxReadings(
    usage: real,                   // `psutil.cpu_percent(interval=1)` for the message
    sysThermal: ThermalDir,        // the thermal directory as the labelled-zone scan reads it
    sensorsReport: Option<string>, // the sensor utility's output, `None` when it cannot be run
    zoneThermal: ThermalDir,       // the thermal directory as the indexed scan reads it, later
    chainUsage: real,              // the estimate's own usage sample inside the chain
    fallbackUsage: real,           // the estimate's usage sample after the chain
    memoryPercent: real,           // `psutil.virtual_memory().percent`
    diskUsed: nat,                 // `psutil.disk_usage('/').used`
    diskTotal: nat,                // `psutil.disk_usage('/').total`
    frequency: Option<real>,       // `psutil.cpu_freq().current`; `None` for no result or an error
    perCore: Option<seq<real>>,    // `psutil.cpu_percent(percpu=True)`; `None` when it raises
    cpuCount: Option<nat>,         // `psutil.cpu_count()`, which may be `None`
    time: real)                    // `time.time()`

  /** `get_cpu_frequency`: the current frequency, or `None` when it is missing or zero. */
  function CpuFrequency(reading: Option<real>): (r: Option<real>)
    ensures r.None? <==> reading.None? || reading.value == 0.0
    ensures r.Some? ==> r.value == reading.value && r.value != 0.0
  {
    if reading.Some? && reading.value != 0.0 then reading else None
  }

  /** `get_cpu_cores_usage`: the per-core list, empty when `psutil` raises. */
  function CoresUsage(perCore: Option<seq<real>>): seq<real> {
    perCore.GetOr([])
  }

  /**
   * What one tick samples, before it becomes a message: `frequency` is
   * `get_cpu_frequency`'s result and `cpuCores` the count the message carries.
   */
  datatype LinuxSnapshot = LinuxSnapshot(
    usage: real,
    temperature: real,
    memory: real,
    disk: real,
    frequency: Option<real>,
    cpuCores: Option<nat>,
    coresUsage: seq<real>,
    time: real)

  /**
   * The sampling half of one tick. `None` when the disk's total size is zero:
   * the division raises and ends the loop.
   */
  function SampleLinux(r: LinuxReadings): (s: Option<LinuxSnapshot>)
    ensures s.None? <==> r.diskTotal == 0
    ensures s.Some? ==> s.value.usage == r.usage && s.value.memory == r.memoryPercent && s.value.time == r.time
    ensures s.Some? ==> s.value.temperature
                        == CpuTemperatureLinux(r.sysThermal, r.sensorsReport, r.zoneThermal, r.chainUsage, r.fallbackUsage)
    ensures s.Some? ==> s.value.disk == DiskPercent(r.diskUsed, r.diskTotal).value
    ensures s.Some? && (ValidPercent(r.chainUsage) || ValidPercent(r.fallbackUsage)) ==> Plausible(s.value.temperature)
    ensures s.Some? && r.diskUsed <= r.diskTotal ==> ValidPercent(s.value.disk)
    ensures s.Some? ==> (s.value.frequency.None? <==> r.frequency.None? || r.frequency.value == 0.0)
    ensures s.Some? && s.value.frequency.Some? ==> s.value.frequency == r.frequency
    ensures s.Some? ==> s.value.coresUsage == (if r.perCore.Some? then r.perCore.value else [])
    ensures s.Some? && |s.value.coresUsage| > 0 ==> s.value.cpuCores == Some(|s.value.coresUsage|)
    ensures s.Some? && |s.value.coresUsage| == 0 ==> s.value.cpuCores == r.cpuCount
  {
    match DiskPercent(r.diskUsed, r.diskTotal)
    case None => None
    case Some(disk) =>
      var cores := CoresUsage(r.perCore);
      Some(LinuxSnapshot(
        r.usage,
        CpuTemperatureLinux(r.sysThermal, r.sensorsReport, r.zoneThermal, r.chainUsage, r.fallbackUsage),
        r.memoryPercent,
        disk,
        CpuFrequency(r.frequency),
        if |cores| > 0 then Some(|cores|) else r.cpuCount,
        cores,
        r.time))
  }

  /** The keys every Linux message has. */
  const LinuxKeys: set<string> :=
    {CpuUsageKey, CpuTemperatureKey, MemoryUsageKey, DiskUsageKey, CpuFrequencyKey,
     CpuCoresKey, TimestampKey, SystemKey, UnitKey}

  /** A JSON number for a count that may be unknown. */
  function CountValue(n: Option<nat>): Value {
    match n
    case Some(k) => Int(k)
    case None => Null
  }

  /** `[round(c, 1) for c in cores_usage]` without the rounding. */
  function FloatArray(xs: seq<real>): (v: Value)
    ensures v.Array? && |v.items| == |xs|
    ensures forall i :: 0 <= i < |xs| ==> v.items[i] == Float(xs[i])
  {
    Array(seq(|xs|, i requires 0 <= i < |xs| => Float(xs[i])))
  }

  /** The array keeps every per-core sample: equal arrays come from equal lists. */
  lemma FloatArrayInjective(xs: seq<real>, ys: seq<real>)
    requires FloatArray(xs) == FloatArray(ys)
    ensures xs == ys
  {
    assert forall i :: 0 <= i < |xs| ==> FloatArray(xs).items[i] == Float(xs[i]);
    assert forall i :: 0 <= i < |ys| ==> FloatArray(ys).items[i] == Float(ys[i]);
  }

  /**
   * The message dictionary of one tick. Rounding to one decimal is not
   * modelled, so the numbers are the sampled ones. `cores_usage` is added
   * only for a non-empty per-core list, and a missing frequency is sent as
   * the integer 0.
   */
  function EncodeLinux(s: LinuxSnapshot): (m: map<string, Value>)
    ensures m.Keys == LinuxKeys + (if |s.coresUsage| > 0 then {CoresUsageKey} else {})
    ensures m[SystemKey] == Str("linux") && m[UnitKey] == Str("celsius")
    ensures m[CpuUsageKey] == Float(s.usage) && m[CpuTemperatureKey] == Float(s.temperature)
    ensures m[MemoryUsageKey] == Float(s.memory) && m[TimestampKey] == Float(s.time)
    ensures m[DiskUsageKey] == Float(s.disk)
    ensures m[CpuFrequencyKey] == (if s.frequency.Some? then Float(s.frequency.value) else Int(0))
    ensures m[CpuCoresKey] == CountValue(s.cpuCores)
    ensures |s.coresUsage| > 0 ==> m[CoresUsageKey] == FloatArray(s.coresUsage)
  {
    KeysDistinct();
    var base := map[
      CpuUsageKey := Float(s.usage),
      CpuTemperatureKey := Float(s.temperature),
      MemoryUsageKey := Float(s.memory),
      DiskUsageKey := Float(s.disk),
      CpuFrequencyKey := (if s.frequency.Some? then Float(s.frequency.value) else Int(0)),
      CpuCoresKey := CountValue(s.cpuCores),
      TimestampKey := Float(s.time),
      SystemKey := Str("linux"),
      UnitKey := Str("celsius")];
    if |s.coresUsage| > 0 then base[CoresUsageKey := FloatArray(s.coresUsage)] else base
  }

  /** One tick: sample, then build the message; `None` when the tick raises. */
  function LinuxTick(r: LinuxReadings): (m: Option<map<string, Value>>)
    ensures m.Some? <==> r.diskTotal > 0
  {
    match SampleLinux(r)
    case None => None
    case Some(s) => Some(EncodeLinux(s))
  }

  /**
   * The frequency field of a tick's message is the integer 0 exactly when the
   * frequency reading is missing or zero, and the reading itself otherwise.
   */
  lemma LinuxFrequencyField(r: LinuxReadings)
    requires r.diskTotal > 0
    ensures LinuxTick(r).value[CpuFrequencyKey] == Int(0) <==> r.frequency.None? || r.frequency.value == 0.0
    ensures r.frequency.Some? && r.frequency.value != 0.0 ==> LinuxTick(r).value[CpuFrequencyKey] == Float(r.frequency.value)
  {
  }

  /**
   * `cores_usage` is in a tick's message exactly when the per-core list is
   * non-empty, and `cpu_cores` is then its length; otherwise `cpu_cores` is
   * the processor count (`null` when that is unknown).
   */
  lemma LinuxCoresFields(r: LinuxReadings)
    requires r.diskTotal > 0
    ensures CoresUsageKey in LinuxTick(r).value <==> r.perCore.Some? && |r.perCore.value| > 0
    ensures r.perCore.Some? && |r.perCore.value| > 0 ==>
              && LinuxTick(r).value[CpuCoresKey] == Int(|r.perCore.value|)
              && LinuxTick(r).value[CoresUsageKey] == FloatArray(r.perCore.value)
    ensures r.perCore.None? || |r.perCore.value| == 0 ==> LinuxTick(r).value[CpuCoresKey] == CountValue(r.cpuCount)
  {
    CoresUsageKeyIsExtra();
    var s := SampleLinux(r).value;
    var m := EncodeLinux(s);
    assert LinuxTick(r).value == m;
    assert s.coresUsage == CoresUsage(r.perCore);
  }

  /** `cores_usage` is not among the keys every Linux message has. */
  lemma CoresUsageKeyIsExtra()
    ensures CoresUsageKey !in LinuxKeys
  {
    KeysDistinct();
  }
}
