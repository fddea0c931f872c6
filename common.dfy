/** Shared vocabulary: optional values, results and wall-clock time. */
module Common {
  datatype Option<+T> = None | Some(value: T)

  datatype Result<+T, +E> = Ok(value: T) | Err(error: E)

  /** A point in time, in whole seconds since the epoch, UTC. */
  type Time = int

  const SecondsPerDay := 86400
  const SecondsPerMinute := 60

  /** The calendar day (days since the epoch) of a point in time. */
  function DateOf(t: Time): (day: int)
    ensures day * SecondsPerDay <= t < (day + 1) * SecondsPerDay
  {
    t / SecondsPerDay
  }

  /** The seconds elapsed since midnight of the day of `t`. */
  function TimeOfDay(t: Time): (s: int)
    ensures 0 <= s < SecondsPerDay
    ensures DateOf(t) * SecondsPerDay + s == t
  {
    t % SecondsPerDay
  }

  /** `datetime.combine(day, time, tzinfo=utc)`. */
  function Combine(day: int, timeOfDay: int): Time
  {
    day * SecondsPerDay + timeOfDay
  }

  function Min(a: real, b: real): (m: real)
    ensures m <= a && m <= b && (m == a || m == b)
  {
    if a <= b then a else b
  }

  /** Sequence concatenation is associative. */
  lemma ConcatAssoc<T>(a: seq<T>, b: seq<T>, c: seq<T>)
    ensures a + (b + c) == (a + b) + c
  {
  }
}
