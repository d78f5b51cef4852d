/** How the E2B API turns request timeouts in seconds into durations in 64-bit nanoseconds
    (internal/e2bapi/server.go, timeout.go). */
module TtlApi {
  import opened Domain
  import opened Lifecycle
  import opened Manager

  const SECOND: Int64 := 1_000_000_000
  const MAX_TTL_SECONDS: Int64 := MAX_INT64 / 1_000_000_000
  const REFRESH_MIN_SECONDS: Int64 := 15
  const DEFAULT_SECONDS: Int64 := 300

  /** Multiplication of 64-bit integers, which wraps around. */
  function Times(a: Int64, b: Int64): Int64 { (a * b + MAX_INT64 + 1) % (2 * (MAX_INT64 + 1)) - MAX_INT64 - 1 }

  lemma NoWrap(seconds: Int64)
    requires 0 <= seconds <= MAX_TTL_SECONDS
    ensures Times(seconds, SECOND) == seconds * SECOND
  {
  }

  /** Create accepts a timeout of at least a second and at most the configured maximum. */
  method CreateTimeout(timeout: Option<Int64>, max: Int64) returns (r: Option<Int64>)
    requires max >= SECOND
    ensures var asked := if timeout.Some? then timeout.value else DEFAULT_SECONDS;
            && (r.Some? <==> SECOND <= asked * SECOND <= max)
            && (r.Some? ==> r.value == asked * SECOND)
  {
    var ttl := DEFAULT_SECONDS;
    if timeout.Some? { ttl := timeout.value; }
    if ttl < 1 || ttl > max / SECOND { return None; }
    NoWrap(ttl);
    r := Some(Times(ttl, SECOND));
  }

  /** Connect: what to extend a running sandbox by (0 leaves it alone) and the lifetime of a resumed
      run. Only a timeout above the maximum is refused; an absent or non-positive one is not. */
  method ConnectTimeouts(timeout: Option<Int64>, max: Int64) returns (r: Option<(Int64, Int64)>)
    requires max >= SECOND
    ensures var asked := if timeout.Some? && timeout.value > 0 then timeout.value else 0;
            && (r.Some? <==> asked * SECOND <= max)
            && (r.Some? ==> r.value.0 == asked * SECOND && 0 < r.value.1 <= max)
            && (r.Some? ==> r.value.1 == if asked > 0 then asked * SECOND
                                         else if max < DEFAULT_SECONDS * SECOND then max
                                         else DEFAULT_SECONDS * SECOND)
  {
    var ttl: Int64 := 0;
    if timeout.Some? { ttl := timeout.value; }
    if ttl > max / SECOND { return None; }
    if ttl < 0 { ttl := 0; }
    if ttl > MAX_TTL_SECONDS { ttl := MAX_TTL_SECONDS; }
    NoWrap(ttl);
    var run := Times(ttl, SECOND);
    if run <= 0 { run := if max < 300 * SECOND then max else 300 * SECOND; }
    r := Some((Times(ttl, SECOND), run));
  }

  /** The lifetime of a run restored by traffic. */
  method WakeTimeout(max: Int64) returns (r: Int64)
    requires max >= SECOND
    ensures 0 < r <= max && r <= 300 * SECOND && (r == max || r == 300 * SECOND)
  {
    r := 300 * SECOND;
    if max < r { r := max; }
  }

  /** setTimeout may shorten a lifetime; a negative value expires the sandbox now, and one beyond the
      range of a duration asks for the longest whole second in range. */
  method SetTimeout(seconds: Int64, max: Int64) returns (q: TtlRequest)
    requires max >= SECOND
    ensures !q.extendOnly && q.maxLifetime == max && 0 <= q.ttl <= MAX_INT64
    ensures q.ttl == if seconds <= 0 then 0
                     else if seconds * SECOND <= MAX_INT64 then seconds * SECOND
                     else MAX_TTL_SECONDS * SECOND
    ensures Capped(OpTtl(q, false, false, 0, 0), max)
  {
    var s := seconds;
    if s < 0 { s := 0; }
    if s > MAX_TTL_SECONDS { s := MAX_TTL_SECONDS; }
    NoWrap(s);
    q := TtlRequest(Times(s, SECOND), false, max);
  }

  /** refresh never shortens a lifetime and asks for at least fifteen seconds. */
  method Refresh(duration: Int64, max: Int64) returns (q: TtlRequest)
    requires max >= SECOND
    ensures q.extendOnly && q.maxLifetime == max && REFRESH_MIN_SECONDS * SECOND <= q.ttl <= MAX_INT64
    ensures duration >= REFRESH_MIN_SECONDS && duration * SECOND <= MAX_INT64 ==> q.ttl == duration * SECOND
    ensures Capped(OpTtl(q, false, false, 0, 0), max)
  {
    var d := duration;
    if d < REFRESH_MIN_SECONDS { d := REFRESH_MIN_SECONDS; }
    if d > MAX_TTL_SECONDS { d := MAX_TTL_SECONDS; }
    NoWrap(d);
    q := TtlRequest(Times(d, SECOND), true, max);
  }
}
