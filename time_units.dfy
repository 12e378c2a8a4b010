/** The `Int` extension (Utils.swift lines 291-307): a count of seconds,
    minutes, hours, days or weeks, expressed in seconds. Swift's `Int` is
    64 bits wide on the platforms the source targets, and its `*` traps on
    overflow; each conversion therefore requires that the product it
    computes, and every intermediate product, fits. */
module TimeUnits {
  import opened SwiftInt

  const SecondsPerMinute: int := 60
  const SecondsPerHour: int := 60 * 60
  const SecondsPerDay: int := 24 * 60 * 60
  const SecondsPerWeek: int := 7 * 24 * 60 * 60

  /** `n.seconds` is n itself. */
  function Seconds(n: int): (r: int)
    requires IsInt(n)
    ensures IsInt(r)
    ensures r == n
  {
    n
  }

  /** `n.minutes` is `n * 60`. */
  function Minutes(n: int): (r: int)
    requires IsInt(n * SecondsPerMinute)
    ensures IsInt(r)
    ensures r == n * SecondsPerMinute
  {
    n * 60
  }

  /** `n.hours` is `n.minutes * 60`. */
  function Hours(n: int): (r: int)
    requires IsInt(n * SecondsPerHour)
    ensures IsInt(r)
    ensures r == n * SecondsPerHour
    ensures r == Minutes(n * 60)
  {
    Minutes(n) * 60
  }

  /** `n.days` is `n.hours * 24`. */
  function Days(n: int): (r: int)
    requires IsInt(n * SecondsPerDay)
    ensures IsInt(r)
    ensures r == n * SecondsPerDay
    ensures r == Hours(n * 24)
  {
    Hours(n) * 24
  }

  /** `n.weeks` is `n.days * 7`. */
  function Weeks(n: int): (r: int)
    requires IsInt(n * SecondsPerWeek)
    ensures IsInt(r)
    ensures r == n * SecondsPerWeek
    ensures r == Days(n * 7)
  {
    Days(n) * 7
  }

  /** Each conversion is monotone on its own domain: more units never mean
      fewer seconds. */
  lemma UnitsMonotone(m: int, n: int)
    requires m <= n
    ensures IsInt(m) && IsInt(n) ==> Seconds(m) <= Seconds(n)
    ensures IsInt(m * SecondsPerMinute) && IsInt(n * SecondsPerMinute) ==> Minutes(m) <= Minutes(n)
    ensures IsInt(m * SecondsPerHour) && IsInt(n * SecondsPerHour) ==> Hours(m) <= Hours(n)
    ensures IsInt(m * SecondsPerDay) && IsInt(n * SecondsPerDay) ==> Days(m) <= Days(n)
    ensures IsInt(m * SecondsPerWeek) && IsInt(n * SecondsPerWeek) ==> Weeks(m) <= Weeks(n)
  {
  }
}
