/** Date helpers with the current time an explicit argument: before/after
    tests and the "days remaining" label. Dates are epoch milliseconds. */
module DateUtils {
  import opened Text

  /** Milliseconds in a day: `1000 * 60 * 60 * 24`. */
  const DayMs: nat := 86400000

  function Abs(x: int): (r: nat)
    ensures r == x || r == -x
  {
    if x < 0 then -x else x
  }

  /** `Math.ceil(ms / DayMs)`: the fewest whole days that cover `ms`. */
  function CeilDays(ms: nat): (r: nat)
    ensures ms <= r * DayMs
    ensures r == 0 || (r - 1) * DayMs < ms
    ensures r == 0 <==> ms == 0
  {
    var q := (ms + DayMs - 1) / DayMs;
    assert q * DayMs <= ms + DayMs - 1 < q * DayMs + DayMs;
    q
  }

  /** `Math.floor(ms / DayMs)`: the whole days contained in `ms`. */
  function FloorDays(ms: nat): (r: nat)
    ensures r * DayMs <= ms < r * DayMs + DayMs
  {
    ms / DayMs
  }

  /** `isFutureDate`. */
  predicate IsFutureDate(date: int, now: int)
  {
    date > now
  }

  /** `isPastDate`. */
  predicate IsPastDate(date: int, now: int)
  {
    date < now
  }

  /** Never both; neither exactly at the current instant. */
  lemma FutureOrPast(date: int, now: int)
    ensures !(IsFutureDate(date, now) && IsPastDate(date, now))
    ensures !IsFutureDate(date, now) && !IsPastDate(date, now) <==> date == now
  {
  }

  const PassedLabel := "Event has passed"
  const TodayLabel := "Today"
  const TomorrowLabel := "Tomorrow"

  /** The label for a number of days of at least 2. */
  function DaysLabel(n: nat): (r: string)
    ensures |r| > 5 && '0' <= r[0] <= '9'
    ensures r[|r| - 5..] == " days"
    ensures DigitsValue(r[..|r| - 5]) == n
    ensures forall i :: 0 <= i < |r| - 5 ==> '0' <= r[i] <= '9'
  {
    var digits := NatToString(n);
    var r := digits + " days";
    assert r[..|r| - 5] == digits && r[|r| - 5..] == " days";
    r
  }

  /** `getDaysRemaining` as written: the day count is the ceiling of the
      distance in days. */
  function DaysRemaining(date: int, now: int): (r: string)
  {
    var diffDays := CeilDays(Abs(date - now));
    if date < now then PassedLabel
    else if diffDays == 0 then TodayLabel
    else if diffDays == 1 then TomorrowLabel
    else DaysLabel(diffDays)
  }

  /** A date before now, and only such a date, is reported as passed; an
      event still ahead gets "Today", "Tomorrow" or the count of days that
      covers the distance. */
  lemma DaysRemainingMeaning(date: int, now: int)
    ensures DaysRemaining(date, now) == PassedLabel <==> date < now
    ensures date >= now && DaysRemaining(date, now) == TomorrowLabel <==>
      now < date <= now + DayMs
    ensures date > now + DayMs ==>
      exists n: nat :: n >= 2 && DaysRemaining(date, now) == DaysLabel(n) &&
        (n - 1) * DayMs < date - now <= n * DayMs
  {
    var r := DaysRemaining(date, now);
    if date >= now {
      var n := CeilDays(date - now);
      if n >= 2 {
        assert r == DaysLabel(n);
        assert r[0] != PassedLabel[0] && r[0] != TomorrowLabel[0];
      }
    }
  }

  /** As written, "Today" appears only at the very instant of the event: one
      millisecond before it the label is already "Tomorrow". */
  lemma TodayOnlyAtNow(date: int, now: int)
    requires date >= now
    ensures DaysRemaining(date, now) == TodayLabel <==> date == now
    ensures DaysRemaining(now + 1, now) == TomorrowLabel
  {
    if date > now {
      var n := CeilDays(date - now);
      if n >= 2 {
        assert DaysRemaining(date, now)[0] != TodayLabel[0];
      }
    }
  }

  /** The days-remaining label counting whole days left: "Today" while less
      than a day remains, "Tomorrow" while less than two. */
  function DaysRemainingByWholeDays(date: int, now: int): (r: string)
  {
    if date < now then PassedLabel
    else
      var days := FloorDays(date - now);
      if days == 0 then TodayLabel
      else if days == 1 then TomorrowLabel
      else DaysLabel(days)
  }

  /** With whole days counted, an event later today is labelled "Today" and
      one between one and two days ahead "Tomorrow". */
  lemma TodayWithinADay(date: int, now: int)
    ensures DaysRemainingByWholeDays(date, now) == PassedLabel <==> date < now
    ensures date >= now ==> (DaysRemainingByWholeDays(date, now) == TodayLabel <==> date - now < DayMs)
    ensures date >= now ==>
      (DaysRemainingByWholeDays(date, now) == TomorrowLabel <==> DayMs <= date - now < 2 * DayMs)
  {
    if date >= now {
      var n := FloorDays(date - now);
      if n >= 2 {
        var r := DaysRemainingByWholeDays(date, now);
        assert r == DaysLabel(n);
        assert r[0] != PassedLabel[0] && r[0] != TodayLabel[0] && r[0] != TomorrowLabel[0];
      }
    }
  }
}
