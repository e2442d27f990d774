/**
 * The Linux producer's CPU-temperature probe: three sensor strategies tried
 * in order, each giving a reading or nothing, then a usage-based estimate.
 * A reading is accepted only inside the plausibility window; the strategies
 * themselves never look at the window.
 *
 * The file system and the sensor utility are inputs: a `ThermalDir` is what
 * `/sys/class/thermal/` holds when one strategy reads it, and the utility's
 * run is its standard output or `None` when it could not be run. The
 * labelled-zone scan and the indexed scan read the directory at different
 * moments, with the utility's run between them, so each gets its own
 * `ThermalDir` and a file may read differently in the two.
 */
module ThermalProbe {
  import opened Optional
  import opened Search
  import opened Text
  import opened TempToken
  import opened Metrics

  /** What `os.path.exists` and then `open(...).read()` make of one file. */
  datatype FileState = Missing | Unreadable | Contents(text: string)

  /** The `type` and `temp` files of one entry of the thermal directory. */
  datatype Zone = Zone(typeFile: FileState, tempFile: FileState)

  /**
   * The thermal directory: its `os.listdir` result in listing order (`None`
   * when listing raises) and the files under each entry name.
   */
  datatype ThermalDir = ThermalDir(listing: Option<seq<string>>, entries: map<string, Zone>)

  /** The files under `name`; an entry that is not there has neither file. */
  function ZoneAt(d: ThermalDir, name: string): Zone {
    if name in d.entries then d.entries[name] else Zone(Missing, Missing)
  }

  const ZonePrefix: string := "thermal_zone"

  /** `name.startswith('thermal_zone')`. */
  predicate IsZoneName(name: string) {
    |ZonePrefix| <= |name| && name[..|ZonePrefix|] == ZonePrefix
  }

  /** The plausibility window the chain applies, in degrees Celsius. */
  const MinPlausible: real := 20.0
  const MaxPlausible: real := 120.0

  predicate Plausible(t: real) {
    MinPlausible <= t <= MaxPlausible
  }

  /**
   * `int(f.read().strip()) / 1000.0` on a `temp` file: millidegrees to
   * degrees. `None` where opening, reading or `int()` raises.
   */
  function ReadMillidegrees(f: FileState): (r: Option<real>)
    ensures r.Some? <==> f.Contents? && IsIntLiteral(Strip(f.text))
    ensures r.Some? ==> r.value * 1000.0 == ParseInt(Strip(f.text)).value as real
  {
    match f
    case Contents(text) =>
      (match ParseInt(Strip(text))
       case Some(n) => Some(n as real / 1000.0)
       case None => None)
    case _ => None
  }

  // ---------------------------------------------------------------------------
  // Strategy 1: labelled thermal zones
  // ---------------------------------------------------------------------------

  /**
   * Whether the scan over the listing stops at entry `name`: a `thermal_zone*`
   * entry with both files present whose type file either cannot be read (the
   * read raises and ends the strategy) or names a CPU. Entries the listing
   * comprehension filters out never stop the scan, so scanning the raw
   * listing with this test visits the filtered entries in the same order.
   */
  predicate SysStopsAt(d: ThermalDir, name: string) {
    var z := ZoneAt(d, name);
    && IsZoneName(name)
    && !z.typeFile.Missing? && !z.tempFile.Missing?
    && (z.typeFile.Unreadable? || MentionsCpu(Strip(z.typeFile.text)))
  }

  /** The outcome at the entry where the scan stops. */
  function SysReading(d: ThermalDir, name: string): Option<real> {
    var z := ZoneAt(d, name);
    if z.typeFile.Unreadable? then None else ReadMillidegrees(z.tempFile)
  }

  /**
   * `get_temp_from_sys`: the reading of the first listed zone with both files
   * whose type mentions "cpu" or "core" in any case. It does not go on past
   * that zone, whatever its value; an error there, or an unreadable type file
   * before it, gives `None`.
   */
  function TempFromSys(d: ThermalDir): (r: Option<real>)
    ensures d.listing.None? ==> r.None?
    ensures r.Some? ==> d.listing.Some? && |d.listing.value| > 0
  {
    match d.listing
    case None => None
    case Some(names) =>
      var k := FirstIndex(names, name => SysStopsAt(d, name));
      if k < |names| then SysReading(d, names[k]) else None
  }

  /**
   * `get_temp_from_sys` takes its outcome from the first listed entry where
   * the scan stops, and gives `None` when the scan never stops.
   */
  lemma {:induction false} TempFromSysFirstMatch(d: ThermalDir)
    ensures forall k ::
              && d.listing.Some? && 0 <= k < |d.listing.value|
              && SysStopsAt(d, d.listing.value[k])
              && (forall j :: 0 <= j < k ==> !SysStopsAt(d, d.listing.value[j]))
              ==> TempFromSys(d) == SysReading(d, d.listing.value[k])
    ensures d.listing.Some? && (forall k :: 0 <= k < |d.listing.value| ==> !SysStopsAt(d, d.listing.value[k]))
            ==> TempFromSys(d).None?
  {
    if d.listing.Some? {
      var names := d.listing.value;
      var stops := name => SysStopsAt(d, name);
      forall k | 0 <= k < |names| && SysStopsAt(d, names[k]) && (forall j :: 0 <= j < k ==> !SysStopsAt(d, names[j]))
        ensures TempFromSys(d) == SysReading(d, names[k])
      {
        FirstIndexIsFirst(names, stops, k);
      }
    }
  }

  // ---------------------------------------------------------------------------
  // Strategy 2: the sensor utility
  // ---------------------------------------------------------------------------

  /** A line the sensor strategy takes its value from: a CPU keyword and a temperature token. */
  predicate SensorLineMatches(line: string) {
    MentionsCpu(line) && FirstToken(line).Some?
  }

  /**
   * `get_temp_from_sensors`: the first temperature token on the first line of
   * the report that mentions "core" or "cpu" in any case and carries such a
   * token. Keyword lines without a token are passed over. `None` when the
   * utility could not be run or no line qualifies.
   */
  function TempFromSensors(report: Option<string>): (r: Option<real>)
    ensures report.None? ==> r.None?
    ensures r.Some? ==> exists k :: 0 <= k < |SplitLines(report.value)| && MentionsCpu(SplitLines(report.value)[k])
  {
    match report
    case None => None
    case Some(out) =>
      var lines := SplitLines(out);
      var k := FirstIndex(lines, SensorLineMatches);
      if k < |lines| then FirstToken(lines[k]) else None
  }

  /**
   * The sensor strategy's value is the first token of the first qualifying
   * line, and `None` when no line qualifies.
   */
  lemma {:induction false} TempFromSensorsFirstMatch(out: string)
    ensures var lines := SplitLines(out);
            forall k ::
              && 0 <= k < |lines| && SensorLineMatches(lines[k])
              && (forall j :: 0 <= j < k ==> !SensorLineMatches(lines[j]))
              ==> TempFromSensors(Some(out)) == FirstToken(lines[k])
    ensures var lines := SplitLines(out);
            (forall k :: 0 <= k < |lines| ==> !SensorLineMatches(lines[k])) ==> TempFromSensors(Some(out)).None?
  {
    var lines := SplitLines(out);
    forall k | 0 <= k < |lines| && SensorLineMatches(lines[k]) && (forall j :: 0 <= j < k ==> !SensorLineMatches(lines[j]))
      ensures TempFromSensors(Some(out)) == FirstToken(lines[k])
    {
      FirstIndexIsFirst(lines, SensorLineMatches, k);
    }
    if forall k :: 0 <= k < |lines| ==> !SensorLineMatches(lines[k]) {
      var k := FirstIndex(lines, SensorLineMatches);
      assert k == |lines|;
    }
  }

  // ---------------------------------------------------------------------------
  // Strategy 3: thermal zones by index
  // ---------------------------------------------------------------------------

  /** The zone indices probed are `range(0, 10)`. */
  const ZoneIndexLimit: nat := 10

  /** `f'thermal_zone{i}'`. */
  function IndexedZoneName(i: nat): (name: string)
    ensures IsZoneName(name)
  {
    assert (ZonePrefix + ShowNat(i))[..|ZonePrefix|] == ZonePrefix;
    ZonePrefix + ShowNat(i)
  }

  /** Distinct indices name distinct zones, so the ten probes read ten different files. */
  lemma {:induction false} ZoneNamesDistinct(i: nat, j: nat)
    requires i != j
    ensures IndexedZoneName(i) != IndexedZoneName(j)
  {
    if IndexedZoneName(i) == IndexedZoneName(j) {
      assert IndexedZoneName(i)[|ZonePrefix|..] == ShowNat(i);
      assert IndexedZoneName(j)[|ZonePrefix|..] == ShowNat(j);
      DigitsValueShowNat(i);
      DigitsValueShowNat(j);
    }
  }

  function IndexedTempFile(d: ThermalDir, i: nat): FileState {
    ZoneAt(d, IndexedZoneName(i)).tempFile
  }

  /**
   * `get_temp_from_thermal_zone`: the reading of the lowest-numbered zone
   * among `thermal_zone0` .. `thermal_zone9` whose `temp` file exists,
   * regardless of its type and of the listing. An error reading it gives
   * `None`, as does the absence of every such file.
   */
  function TempFromThermalZone(d: ThermalDir): (r: Option<real>)
    ensures r.Some? ==> exists i :: 0 <= i < ZoneIndexLimit && IndexedTempFile(d, i).Contents?
  {
    var files := IndexedTempFiles(d);
    var k := FirstIndex(files, Present);
    if k < |files| then ReadMillidegrees(files[k]) else None
  }

  /** The `temp` files of `thermal_zone0` .. `thermal_zone9`, in index order. */
  function IndexedTempFiles(d: ThermalDir): (files: seq<FileState>)
    ensures |files| == ZoneIndexLimit
    ensures forall i :: 0 <= i < ZoneIndexLimit ==> files[i] == IndexedTempFile(d, i)
  {
    seq(ZoneIndexLimit, i requires 0 <= i < ZoneIndexLimit => IndexedTempFile(d, i))
  }

  /** `os.path.exists(temp_file)`. */
  predicate Present(f: FileState) {
    !f.Missing?
  }

  /**
   * The indexed strategy reads the lowest-numbered existing `temp` file, and
   * gives `None` when none of the ten exists.
   */
  lemma {:induction false} TempFromThermalZoneFirstMatch(d: ThermalDir)
    ensures forall i ::
              && 0 <= i < ZoneIndexLimit && Present(IndexedTempFile(d, i))
              && (forall j :: 0 <= j < i ==> !Present(IndexedTempFile(d, j)))
              ==> TempFromThermalZone(d) == ReadMillidegrees(IndexedTempFile(d, i))
    ensures (forall i :: 0 <= i < ZoneIndexLimit ==> !Present(IndexedTempFile(d, i))) ==> TempFromThermalZone(d).None?
  {
    var files := IndexedTempFiles(d);
    forall i | 0 <= i < ZoneIndexLimit && Present(IndexedTempFile(d, i)) && (forall j :: 0 <= j < i ==> !Present(IndexedTempFile(d, j)))
      ensures TempFromThermalZone(d) == ReadMillidegrees(IndexedTempFile(d, i))
    {
      FirstIndexIsFirst(files, Present, i);
    }
  }

  /** The indexed strategy looks only at the ten `temp` files: not at type files, not at the listing. */
  lemma {:induction false} TempFromThermalZoneIgnoresLabels(d1: ThermalDir, d2: ThermalDir)
    requires forall i :: 0 <= i < ZoneIndexLimit ==> IndexedTempFile(d1, i) == IndexedTempFile(d2, i)
    ensures TempFromThermalZone(d1) == TempFromThermalZone(d2)
  {
    assert IndexedTempFiles(d1) == IndexedTempFiles(d2);
  }

  // ---------------------------------------------------------------------------
  // Strategy 4 and the chain
  // ---------------------------------------------------------------------------

  const LinuxHeatCoefficient: real := 0.25

  /**
   * `estimate_temp_from_usage`: a linear model of temperature from a CPU
   * usage sample taken for the estimate alone.
   */
  function EstimateLinux(usage: real): (t: real)
    ensures ValidPercent(usage) ==> BaseTemperature <= t <= BaseTemperature + 25.0
    ensures ValidPercent(usage) ==> Plausible(t)
  {
    BaseTemperature + usage * LinuxHeatCoefficient
  }

  /** The estimate orders processors as their usage does: a busier one is never estimated cooler. */
  lemma EstimateLinuxMonotone(u1: real, u2: real)
    ensures EstimateLinux(u1) <= EstimateLinux(u2) <==> u1 <= u2
  {
  }

  predicate Accepted(r: Option<real>) {
    r.Some? && Plausible(r.value)
  }

  /**
   * The loop of `get_cpu_temperature_linux`: the first reading that is present
   * and plausible, else `fallback`.
   */
  function Chain(readings: seq<Option<real>>, fallback: real): (t: real)
    ensures Plausible(t) || t == fallback
    ensures forall k ::
              && 0 <= k < |readings| && Accepted(readings[k])
              && (forall j :: 0 <= j < k ==> !Accepted(readings[j]))
              ==> t == readings[k].value
    ensures (forall k :: 0 <= k < |readings| ==> !Accepted(readings[k])) ==> t == fallback
  {
    var k := FirstIndex(readings, Accepted);
    if k < |readings| then readings[k].value else fallback
  }

  /**
   * The chain over the outcomes of its four strategies: the labelled zones,
   * the sensor utility, the indexed zones and the in-chain estimate, with the
   * estimate called after the loop as the fallback.
   */
  function ProbeCascade(sys: Option<real>, sensors: Option<real>, zone: Option<real>, estimate: real, fallback: real): (t: real)
    ensures Accepted(sys) ==> t == sys.value
    ensures !Accepted(sys) && Accepted(sensors) ==> t == sensors.value
    ensures !Accepted(sys) && !Accepted(sensors) && Accepted(zone) ==> t == zone.value
    ensures !Accepted(sys) && !Accepted(sensors) && !Accepted(zone)
            ==> t == (if Plausible(estimate) then estimate else fallback)
    ensures Plausible(t) || t == fallback
  {
    var readings := [sys, sensors, zone, Some(estimate)];
    assert readings[0] == sys && readings[1] == sensors;
    assert readings[2] == zone && readings[3] == Some(estimate);
    Chain(readings, fallback)
  }

  /**
   * `get_cpu_temperature_linux`. `sysDir` is the thermal directory as the
   * labelled-zone scan reads it and `zoneDir` as the indexed scan reads it
   * after the sensor utility has run. `chainUsage` is the usage sample the
   * estimate takes as the chain's last strategy; `fallbackUsage` is the
   * fresh sample of the estimate called after the loop.
   */
  function CpuTemperatureLinux(sysDir: ThermalDir, report: Option<string>, zoneDir: ThermalDir,
                               chainUsage: real, fallbackUsage: real): (t: real)
    ensures Accepted(TempFromSys(sysDir)) ==> t == TempFromSys(sysDir).value
    ensures !Accepted(TempFromSys(sysDir)) && Accepted(TempFromSensors(report))
            ==> t == TempFromSensors(report).value
    ensures !Accepted(TempFromSys(sysDir)) && !Accepted(TempFromSensors(report)) && Accepted(TempFromThermalZone(zoneDir))
            ==> t == TempFromThermalZone(zoneDir).value
    ensures !Accepted(TempFromSys(sysDir)) && !Accepted(TempFromSensors(report)) && !Accepted(TempFromThermalZone(zoneDir))
            ==> t == (if Plausible(EstimateLinux(chainUsage)) then EstimateLinux(chainUsage)
                      else EstimateLinux(fallbackUsage))
    ensures ValidPercent(chainUsage) || ValidPercent(fallbackUsage) ==> Plausible(t)
  {
    ProbeCascade(TempFromSys(sysDir), TempFromSensors(report), TempFromThermalZone(zoneDir),
                 EstimateLinux(chainUsage), EstimateLinux(fallbackUsage))
  }

  /** A usable chain sample settles the result: the estimate after the loop is never taken. */
  lemma FallbackUnusedForValidUsage(sysDir: ThermalDir, report: Option<string>, zoneDir: ThermalDir,
                                    chainUsage: real, u1: real, u2: real)
    requires ValidPercent(chainUsage)
    ensures CpuTemperatureLinux(sysDir, report, zoneDir, chainUsage, u1)
            == CpuTemperatureLinux(sysDir, report, zoneDir, chainUsage, u2)
  {
  }

  /** Boundary case: a raw reading of 45000 millidegrees is exactly 45.0 degrees. */
  lemma MillidegreesExample()
    ensures ReadMillidegrees(Contents("45000\n")) == Some(45.0)
  {
    StripExample();
    DigitsExample();
  }

  lemma StripExample()
    ensures Strip("45000\n") == "45000"
  {
    TrimExample();
  }

  lemma TrimExample()
    ensures TrimStart("45000\n") == "45000\n"
    ensures TrimEnd("45000\n") == "45000"
  {
    assert "45000\n"[..5] == "45000";
  }

  lemma DigitsExample()
    ensures IsDigits("45000") && DigitsValue("45000") == 45000
  {
    assert "45000"[..4] == "4500" && "4500"[..3] == "450" && "450"[..2] == "45" && "45"[..1] == "4";
  }
}
