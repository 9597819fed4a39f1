/** UTC days of the millisecond time line, as used by the quota keys. */
module UtcDay {

  /** The index of the UTC day an instant lies in; day 0 starts at the epoch. */
  function DayOf(t: int): int {
    t / 86_400_000
  }

  function DayStart(day: int): int {
    day * 86_400_000
  }

  function Midnight(day: int): int {
    DayStart(day + 1)
  }

  /** Seconds from an instant to the end of its day, rounded up. */
  function TtlSeconds(now: int): (ttl: nat)
    ensures 1 <= ttl <= 86_400
  {
    (Midnight(DayOf(now)) - now + 999) / 1000
  }

  /** A TTL taken earlier the same day still reaches midnight. */
  lemma TtlReachesMidnight(now: int, clock: int)
    requires now <= clock && DayOf(now) == DayOf(clock)
    ensures clock < Midnight(DayOf(now)) <= clock + TtlSeconds(now) * 1000
    ensures now + TtlSeconds(now) * 1000 < Midnight(DayOf(now)) + 1000
  {
  }

  lemma DayBounds(t: int)
    ensures DayStart(DayOf(t)) <= t < Midnight(DayOf(t)) == DayStart(DayOf(t)) + 86_400_000
    ensures DayOf(DayStart(DayOf(t))) == DayOf(t)
  {
  }
}
