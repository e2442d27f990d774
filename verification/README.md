# CPU monitor: metric acquisition and propagation, modelled in Dafny

The system measures host metrics on a producer and publishes them as JSON over
a publish/subscribe channel. A web dashboard caches the latest snapshot and
serves it. This project models three parts of it.

- **The Linux producer** (`sender_linux.py`). Its CPU-temperature probe tries
  four strategies in order: labelled thermal zones, the `sensors` utility,
  thermal zones by index, and a usage-based estimate. A reading is accepted
  only if it lies in the plausibility window of 20 to 120 °C. If every
  strategy fails, the probe calls the estimate once more. Around the probe
  sits the per-tick snapshot: frequency, per-core usage, disk percentage, and
  the nine- or ten-key message.
- **The generic producer** (`publisher.py`). It has a linear temperature
  estimate and a fixed six-key message.
- **The dashboard cache** (`app.py`). It has its start-up value, the
  `on_message` handler that overwrites the four cached fields, and the
  `/data` accessor.

The operating system is given to the model as inputs:

- `ThermalDir` holds the listing and the files of `/sys/class/thermal/`.
  Each file is missing, unreadable, or has text. The labelled-zone scan and
  the indexed scan read the directory at different moments, with the
  `sensors` run in between, so each gets its own `ThermalDir`.
- The `sensors` utility's output is an `Option<string>`.
- Every `psutil` reading and every `time.time()` value is a field of a readings
  record. Each separate call to `psutil.cpu_percent` is its own field, because
  the producer samples usage several times per tick.

Python's string operations are written out on `seq<char>` in module `Text`:
`strip`, `lower`, `in`, `split('\n')` and `int()`. The temperature regular
expression `([+-]?\d+\.\d+)°C` is written out in `TempToken`. Its matcher is
proved sound and complete at each start position. `FirstTokenLeftmost` proves
that `FirstToken`, the model of `re.findall(...)[0]`, gives the value of a
match that no other match starts to the left of.

Modules, one per file:

- `Optional`, `Search` and `Json` hold the shared vocabulary. `Search` is the
  first-match search that every "first entry that qualifies" loop uses.
- `Text` and `TempToken` hold the string operations and the regex matcher.
- `Metrics` and `Wire` hold the shared quantities and the message keys.
- `ThermalProbe` is the temperature probe.
- `LinuxSender` and `Publisher` are one tick of each producer.
- `Dashboard` is the cache and its accessor.
- `Pipeline` holds the lemmas that follow a message from a producer to the
  dashboard's view.

Behaviours of the code that the model keeps:

- The labelled-zone strategy stops at the first listed zone whose type names
  a CPU. It does not fall through to later zones, even when that zone's
  reading is unusable.
- An unreadable type file before that zone ends the labelled-zone strategy.
- The indexed strategy returns the first existing `temp` file's value even
  when the value is out of range. Only the chain discards it.
- The dashboard cache has no disk field. A published `disk_usage` never
  reaches the view.
- The handler writes the four fields one by one rather than replacing a whole
  snapshot.
- A missing key takes its default. The message is not treated as malformed.
  A payload that is JSON but not an object raises on `.get` before any write,
  so the cache is left unchanged.
- A sample is not total. A disk whose total size is zero makes the division
  raise, and that ends the producer's loop. The model returns `None` for
  that tick.

## Model

| member | source | states |
|---|---|---|
| Search.FirstIndex | sender_linux.py:21-25 | Nothing before the returned index qualifies, and the element at the index qualifies unless the index is the length. |
| Search.FirstIndexIsFirst | sender_linux.py:21-25 | Any index that qualifies with nothing qualifying before it is the index the search returns, so the first match is unique. |
| Text.TrimStart | sender_linux.py:43 | The result is a suffix of the input. Everything removed is whitespace, and the result does not start with whitespace. |
| Text.TrimEnd | sender_linux.py:43 | The result is a prefix of the input. Everything removed is whitespace, and the result does not end with whitespace. |
| Text.Strip | sender_linux.py:43 | The result occurs in the input with only whitespace before and after it, and neither of its ends is whitespace. |
| Text.LowerIsLower | sender_linux.py:45 | The lower-cased text has no ASCII capital letter, and lower-casing it again changes nothing. |
| Text.MentionsCpuIgnoresCase | sender_linux.py:45 | The keyword test on the lower-cased text holds exactly when "cpu" or "core" occurs in the original text up to ASCII case. |
| Text.HasSubstring | sender_linux.py:45 | True exactly when some position of the text starts a copy of the keyword. |
| Text.SplitLines | sender_linux.py:59 | At least one piece, no piece contains a newline, and joining the pieces with newlines gives back the input. |
| Text.SplitJoin | sender_linux.py:59 | Splitting newline-free lines joined by newlines recovers exactly those lines. |
| Text.ParseInt | sender_linux.py:47 | Gives a value exactly for an optionally signed non-empty run of ASCII digits; every other text is the ValueError case. |
| Text.ParseShowInt | sender_linux.py:47 | Parsing the decimal rendering of any integer gives that integer back. |
| Text.ShowNat | sender_linux.py:73 | The rendering of a zone index is a non-empty run of digits. |
| Text.DigitsValueShowNat | sender_linux.py:73 | The digits rendered for an index denote that index. |
| TempToken.MatchAt | sender_linux.py:62 | A match found at a position ends after it and within the line. |
| TempToken.MatchAtSound | sender_linux.py:62 | What the matcher finds at a position is a whole match of the pattern: sign, digits, dot, digits, degree sign, C. |
| TempToken.MatchAtComplete | sender_linux.py:62 | Every match of the pattern that starts at a position is the one the matcher finds there, so each start has at most one match. |
| TempToken.FirstMatchStart | sender_linux.py:62 | The returned start has a match and no earlier start does; when nothing is returned, no position has a match. |
| TempToken.FirstTokenLeftmost | sender_linux.py:62-64 | The line's value is absent exactly when no substring matches. Otherwise it is the value of a match that no other match starts to the left of. |
| Metrics.DiskPercent | sender_linux.py:138 | No value exactly when the total is zero, which is the ZeroDivisionError. Otherwise the value times the total is 100 times the used bytes, and it is a valid percentage when used does not exceed the total. publisher.py:45 computes the same. |
| Wire.KeysDistinct | sender_linux.py:134-147 | The ten message keys are pairwise distinct, so no field of the message overwrites another. |
| ThermalProbe.ReadMillidegrees | sender_linux.py:46-48 | A value exactly when the file is readable and its stripped text is an integer literal; the value times 1000 is that integer. |
| ThermalProbe.TempFromSys | sender_linux.py:31-51 | An unlistable directory gives nothing, and a reading implies a non-empty listing. |
| ThermalProbe.TempFromSysFirstMatch | sender_linux.py:34-48 | The outcome is decided at the first listed zone entry with both files whose type is unreadable or names a CPU. A readable type there gives that zone's millidegree reading, an unreadable one gives nothing, and with no such entry there is no reading. |
| ThermalProbe.TempFromSensors | sender_linux.py:53-67 | No run of the utility gives nothing, and a reading implies some line of the report mentions a CPU. |
| ThermalProbe.TempFromSensorsFirstMatch | sender_linux.py:59-64 | The value is the first token of the first line that both mentions "core" or "cpu" in any case and carries a token. Lines with the keyword and no token are skipped, and without a qualifying line there is no reading. |
| ThermalProbe.ZoneNamesDistinct | sender_linux.py:72-73 | Distinct indices give distinct zone names, so the ten probes look at ten different files. |
| ThermalProbe.TempFromThermalZone | sender_linux.py:69-80 | A reading implies one of the ten indexed temp files is readable. |
| ThermalProbe.TempFromThermalZoneFirstMatch | sender_linux.py:72-77 | The reading is that of the lowest-numbered existing temp file, whatever its value, and nothing when none of the ten exists. |
| ThermalProbe.TempFromThermalZoneIgnoresLabels | sender_linux.py:72-77 | Two directories with the same ten indexed temp files give the same reading, whatever their type files and listings. |
| ThermalProbe.EstimateLinux | sender_linux.py:82-87 | For a usage between 0 and 100 the estimate lies between 35 and 60 °C, so it is always plausible. |
| ThermalProbe.EstimateLinuxMonotone | sender_linux.py:84-87 | One estimate is at most another exactly when its usage is at most the other's. |
| ThermalProbe.Chain | sender_linux.py:21-29 | The result is the first reading that is present and plausible. If there is none, it is the fallback, and every result is plausible or the fallback. |
| ThermalProbe.ProbeCascade | sender_linux.py:14-29 | Given the four strategies' outcomes, the result is the first accepted one in order: labelled zones, sensors, indexed zones, then the in-chain estimate if plausible. Otherwise it is the fallback estimate, and every result is plausible or the fallback. |
| ThermalProbe.CpuTemperatureLinux | sender_linux.py:13-29 | Strategy by strategy, the first accepted reading is the result: labelled zones on the first directory snapshot, then sensors, then indexed zones on the second snapshot. Then comes the in-chain estimate if plausible, else the fresh estimate. With a well-formed usage sample the result is plausible. |
| ThermalProbe.FallbackUnusedForValidUsage | sender_linux.py:24-29 | When the in-chain usage sample is well formed, the result does not depend on the second estimate's sample. |
| ThermalProbe.MillidegreesExample | sender_linux.py:75-77 | A temp file holding "45000\n" reads as exactly 45.0 °C. |
| LinuxSender.CpuFrequency | sender_linux.py:89-97 | Nothing exactly when the reading is missing or zero; otherwise the reading itself. |
| LinuxSender.SampleLinux | sender_linux.py:126-140 | The tick fails exactly when the disk total is zero. Usage, memory and time pass through. The temperature is the probe's result on the tick's directory snapshots, report and usage samples, and it is plausible given a well-formed usage sample. Disk is the used-over-total percentage, a valid percentage. The frequency follows `get_cpu_frequency`. Cores is the per-core list's length when that list is non-empty, and the processor count otherwise. |
| LinuxSender.FloatArrayInjective | sender_linux.py:147 | Equal `cores_usage` arrays come only from equal per-core lists, so the array keeps every sample in order. |
| LinuxSender.EncodeLinux | sender_linux.py:134-147 | Exactly the nine fixed keys, plus `cores_usage` exactly when the per-core list is non-empty. `system` is "linux" and `unit` is "celsius". Each metric is under its key, and a missing frequency is the integer 0. |
| LinuxSender.LinuxTick | sender_linux.py:126-149 | A tick produces a message exactly when the disk's total size is non-zero. |
| LinuxSender.LinuxFrequencyField | sender_linux.py:139 | A tick's `cpu_frequency` is the integer 0 exactly when the frequency reading is missing or zero, and the reading otherwise. |
| LinuxSender.LinuxCoresFields | sender_linux.py:140-147 | A tick's message has `cores_usage` exactly when the per-core list is non-empty, with `cpu_cores` its length; otherwise `cpu_cores` is the processor count or null. |
| Dashboard.InitialCache | app.py:9-14 | The start-up cache holds 35.0, 10.0, 50.0 and the start time. It equals the cache that any prior state reaches on an empty JSON object at that time. |
| Dashboard.OnMessage | app.py:26-37 | A payload that fails to parse or is not a JSON object leaves the cache unchanged. An object sets every field to its key's value, or to that field's default, with the clock as the timestamp's default. |
| Dashboard.OnMessageForgetsPrevious | app.py:30-33 | After an object payload, the cache does not depend on what it held before. |
| Dashboard.OnMessageIdempotent | app.py:30-33 | Handling the same payload twice at the same clock is the same as handling it once. |
| Dashboard.OnMessageReadsOnlyFourKeys | app.py:30-33 | Objects that agree on the four read keys leave the same cache, whatever else they carry. |
| Dashboard.GetData | app.py:55-57 | The view has exactly the keys temperature, usage, memory and timestamp, each holding the cached field. |
| Dashboard.GetDataInjective | app.py:55-57 | Equal views come only from equal caches; reading loses nothing. |
| Publisher.GenericEstimate | publisher.py:10-15 | For a usage between 0 and 100 the estimate lies between 35 and 65 °C; zero usage gives exactly 35. |
| Publisher.GenericEstimateMonotone | publisher.py:11-14 | One estimate is at most another exactly when its usage is at most the other's. |
| Publisher.GenericMessage | publisher.py:35-48 | The tick fails exactly when the disk total is zero. Otherwise the message has exactly the six keys, with `unit` "celsius". Usage, memory and time pass through. The temperature is the usage-based estimate, within 35 to 65 °C for a well-formed usage, and disk is the used-over-total percentage, a valid percentage. |
| Pipeline.GenericMessageUpdatesCache | publisher.py:41-48 | A generic message leaves the cache holding its estimate, usage, memory and timestamp, whatever the cache held before. |
| Pipeline.LinuxMessageUpdatesCache | sender_linux.py:134-149 | A Linux message leaves the cache holding the probe's temperature, the usage, memory and timestamp. Its extra keys leave no trace, and the cached temperature is plausible given a well-formed usage sample. |
| Pipeline.GenericMessageReachesView | app.py:55-57 | After a generic message, the view's four entries are the message's `cpu_temperature`, `cpu_usage`, `memory_usage` and `timestamp`. |
| Pipeline.EndToEndExample | app.py:30-33 | Publishing usage 42.0, temperature 47.6, memory 60.0 and timestamp 1700000000.0 makes the view serve exactly those four values. |

## Left out

- The MQTT transport: connecting, publishing, subscribing, the callbacks' registration and the broker constants. These are I/O. The model hands a message map to the handler directly.
- The producers' infinite loops, the five-second sleep, and `KeyboardInterrupt` handling. Each loop is modelled as one tick.
- The Flask application, the `/` route and its template, and the dashboard's thread start-up. These are I/O. The `/data` route is modelled as `GetData`.
- `psutil`, `os.listdir`, `os.path.exists`, `open().read()`, `subprocess.run` and `time.time()` are not modelled as calls. Their results are inputs: readings records, `ThermalDir`, and the report string.
- `round(x, 1)` on the message fields. Decimal rounding of binary floats is not modelled, and the messages carry the unrounded values. Temperatures and percentages are Dafny reals, not IEEE doubles.
- JSON text. `json.dumps`, `msg.payload.decode()` and `json.loads` are left out, and the handler receives the decoded value, or `None` where decoding or parsing raises.
- Python's `int()` and the regex `\d` also accept non-ASCII decimal digits, and `int()` accepts underscores between digits. The model accepts ASCII digits only.
- Text.Lower: lower-cases ASCII letters only. The only non-ASCII characters whose lower case is ASCII are KELVIN SIGN and LATIN CAPITAL LETTER I WITH DOT ABOVE. They lower-case to `k` and `i`, neither of which occurs in "cpu" or "core", so the keyword tests are unaffected.
- The `sensors` utility's two-second timeout and its decoding of output as text. A run that fails or times out is the `None` report.
- An exception raised by the estimate that the chain calls after its loop (sender_linux.py line 29) is not caught by the chain. It reaches the `except Exception` at sender_linux.py line 167, which ends the producer's loop, as a zero disk total does. The model assumes `psutil.cpu_percent` returns a number, so this path is absent.
- `get_cpu_cores_usage` samples per-core usage over half a second, and `get_cpu_frequency` swallows errors. Both are single inputs: an optional list and an optional number.
- Concurrency in the dashboard. The handler runs on the transport thread while `/data` reads from Flask's threads, and the four field writes are not locked, so a reader can see a mix of old and new fields. The model treats each handler call as one step.
- `subscriber.py` and the console output (`print`) of every component are outside the modelled core.
- ThermalProbe.TempFromSys: its own contract states only the unlistable and empty-listing cases. The first-match behaviour is proved in `TempFromSysFirstMatch`.
- ThermalProbe.TempFromSensors: its own contract states only the no-report case and that a reading comes from a CPU line. The first-qualifying-line behaviour is proved in `TempFromSensorsFirstMatch`.
- ThermalProbe.TempFromThermalZone: its own contract states only that a reading comes from an existing indexed file. The lowest-index behaviour is proved in `TempFromThermalZoneFirstMatch`.
