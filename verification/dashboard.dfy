/**
 * The web dashboard's latest-snapshot cache: a four-field record that every
 * message on the subscribed topic overwrites, and the read accessor behind
 * the `/data` route. The message handler is one atomic transition from
 * (cache, decoded payload, clock) to the next cache.
 */
module Dashboard {
  import opened Optional
  import opened Json
  import opened Wire

  /** The cache's four fields, each holding whatever JSON value the payload carried. */
  datatype Cache = Cache(temperature: Value, usage: Value, memory: Value, timestamp: Value)

  const DefaultTemperature: Value := Float(35.0)
  const DefaultUsage: Value := Float(10.0)
  const DefaultMemory: Value := Float(50.0)

  /**
   * The cache a message's JSON object leaves behind: each field the payload
   * value under its key, or the field's default (the clock for the timestamp).
   */
  ghost predicate Overwritten(c: Cache, m: map<string, Value>, now: real) {
    && c.temperature == (if CpuTemperatureKey in m then m[CpuTemperatureKey] else DefaultTemperature)
    && c.usage == (if CpuUsageKey in m then m[CpuUsageKey] else DefaultUsage)
    && c.memory == (if MemoryUsageKey in m then m[MemoryUsageKey] else DefaultMemory)
    && c.timestamp == (if TimestampKey in m then m[TimestampKey] else Float(now))
  }

  /**
   * `on_message`. `payload` is the result of decoding the bytes and parsing
   * them as JSON, `None` when either raises; `now` is `time.time()` at the
   * call. A payload that is not a JSON object has no `.get`, so the first
   * write raises and nothing changes; an object overwrites all four fields.
   */
  function OnMessage(c: Cache, payload: Option<Value>, now: real): (c': Cache)
    ensures !(payload.Some? && payload.value.Object?) ==> c' == c
    ensures payload.Some? && payload.value.Object? ==> Overwritten(c', payload.value.members, now)
  {
    match payload
    case Some(Object(data)) =>
      Cache(
        Get(data, CpuTemperatureKey, DefaultTemperature),
        Get(data, CpuUsageKey, DefaultUsage),
        Get(data, MemoryUsageKey, DefaultMemory),
        Get(data, TimestampKey, Float(now)))
    case _ => c
  }

  /**
   * The module-level `cpu_data` at start-up. It is exactly the cache an empty
   * JSON object produces at the start time: the start-up values and the
   * handler's defaults are the same.
   */
  function InitialCache(start: real): (c: Cache)
    ensures c.temperature == Float(35.0) && c.usage == Float(10.0) && c.memory == Float(50.0)
    ensures c.timestamp == Float(start)
    ensures forall c0 :: OnMessage(c0, Some(Object(map[])), start) == c
  {
    Cache(DefaultTemperature, DefaultUsage, DefaultMemory, Float(start))
  }

  /** The cache's keys as `jsonify(cpu_data)` exposes them. */
  const ViewKeys: set<string> := {"temperature", "usage", "memory", "timestamp"}

  /** `get_data`: the cache as a JSON object with exactly its four keys. */
  function GetData(c: Cache): (view: map<string, Value>)
    ensures view.Keys == ViewKeys
    ensures view["temperature"] == c.temperature && view["usage"] == c.usage
    ensures view["memory"] == c.memory && view["timestamp"] == c.timestamp
  {
    map["temperature" := c.temperature, "usage" := c.usage, "memory" := c.memory, "timestamp" := c.timestamp]
  }

  /** The view determines the cache: reading it loses nothing. */
  lemma GetDataInjective(c1: Cache, c2: Cache)
    requires GetData(c1) == GetData(c2)
    ensures c1 == c2
  {
    assert GetData(c1)["temperature"] == GetData(c2)["temperature"];
    assert GetData(c1)["usage"] == GetData(c2)["usage"];
    assert GetData(c1)["memory"] == GetData(c2)["memory"];
    assert GetData(c1)["timestamp"] == GetData(c2)["timestamp"];
  }

  /** After an object payload nothing of the previous cache survives. */
  lemma OnMessageForgetsPrevious(c1: Cache, c2: Cache, m: map<string, Value>, now: real)
    ensures OnMessage(c1, Some(Object(m)), now) == OnMessage(c2, Some(Object(m)), now)
  {
  }

  /** With the clock fixed, handling the same payload twice is handling it once. */
  lemma OnMessageIdempotent(c: Cache, payload: Option<Value>, now: real)
    ensures OnMessage(OnMessage(c, payload, now), payload, now) == OnMessage(c, payload, now)
  {
  }

  /** `m1` and `m2` agree on whether they hold `key` and on its value. */
  ghost predicate AgreeOn(m1: map<string, Value>, m2: map<string, Value>, key: string) {
    (key in m1 <==> key in m2) && (key in m1 ==> m1[key] == m2[key])
  }

  /**
   * Only the four payload keys are read: objects that agree on them leave the
   * same cache, whatever other keys (`disk_usage`, `system`, `cores_usage`,
   * ...) they carry.
   */
  lemma OnMessageReadsOnlyFourKeys(c: Cache, m1: map<string, Value>, m2: map<string, Value>, now: real)
    requires AgreeOn(m1, m2, CpuTemperatureKey) && AgreeOn(m1, m2, CpuUsageKey)
    requires AgreeOn(m1, m2, MemoryUsageKey) && AgreeOn(m1, m2, TimestampKey)
    ensures OnMessage(c, Some(Object(m1)), now) == OnMessage(c, Some(Object(m2)), now)
  {
  }
}
