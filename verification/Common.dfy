/** Values shared by the monitors: optional results, accepted time ranges and the
    millisecond clock that every monitor derives from one nanosecond instant. */
module Common {

  datatype Option<+T> = None | Some(value: T)

  datatype Result<+T, +E> = Ok(value: T) | Err(error: E)

  /** Range of accepted times `<min; max>`, in whole milliseconds. */
  datatype TimeRange = TimeRange(min: nat, max: nat) {
    predicate Valid() {
      min <= max
    }
  }

  /** `is_multiple_of`: only zero is a multiple of zero. */
  predicate IsMultipleOf(a: nat, b: nat) {
    if b == 0 then a == 0 else a % b == 0
  }

  /** Some order in which a hash map with these keys can be iterated. */
  ghost predicate IterationOrder<V>(order: seq<string>, m: map<string, V>) {
    && (forall t :: t in m <==> t in order)
    && (forall i, j :: 0 <= i < j < |order| ==> order[i] != order[j])
  }

  const NANOS_PER_MILLI: nat := 1_000_000

  /** `Duration::as_millis`: the fraction of a millisecond is dropped. */
  function Millis(nanos: nat): nat {
    nanos / NANOS_PER_MILLI
  }

  /** The clock a monitor created at `start` reads at instant `now`. */
  function ElapsedMillis(start: nat, now: nat): nat
    requires start <= now
  {
    Millis(now - start)
  }

  /** The worker's clock for a heartbeat monitor: the offset between the two starting points
      and the time since the health monitor started, each truncated on its own. */
  function TwoPartMillis(monitorStart: nat, hmonStart: nat, now: nat): nat
    requires monitorStart <= hmonStart <= now
  {
    Millis(hmonStart - monitorStart) + Millis(now - hmonStart)
  }

  /** The worker's two-part clock never runs ahead of the clock a beat would read at the same
      instant, and lags it by at most one millisecond. */
  lemma TwoPartClockWithinOneMilli(monitorStart: nat, hmonStart: nat, now: nat)
    requires monitorStart <= hmonStart <= now
    ensures TwoPartMillis(monitorStart, hmonStart, now) <= ElapsedMillis(monitorStart, now)
    ensures ElapsedMillis(monitorStart, now) <= TwoPartMillis(monitorStart, hmonStart, now) + 1
  {
  }

  lemma ElapsedMillisMonotone(start: nat, earlier: nat, later: nat)
    requires start <= earlier <= later
    ensures ElapsedMillis(start, earlier) <= ElapsedMillis(start, later)
  {
  }
}
