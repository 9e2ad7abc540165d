/** The event detail page's two derived texts: the duration between the
    start and end dates, bucketed into days, weeks or months, and the
    location line with its fallbacks. */
module EventDetail {
  import opened Types
  import opened Text
  import opened DateUtils

  /** The duration label for a day count. */
  function DurationLabel(days: nat): string
  {
    if days == 0 then "Same day event"
    else if days == 1 then "1 day"
    else if days < 7 then NatToString(days) + " days"
    else if days < 30 then
      var weeks := days / 7;
      NatToString(weeks) + (if weeks == 1 then " week" else " weeks")
    else
      var months := days / 30;
      NatToString(months) + (if months == 1 then " month" else " months")
  }

  /** `calculateDuration`: the label for the ceiling of the distance in days. */
  function CalculateDuration(start: int, end: int): string
  {
    DurationLabel(CeilDays(Abs(end - start)))
  }

  /** What each bucket says: days below a week, whole weeks below thirty
      days (singular for 7 to 13 days), whole thirty-day months from then on
      (singular for 30 to 59 days). */
  lemma DurationBuckets(days: nat)
    ensures days == 0 ==> DurationLabel(days) == "Same day event"
    ensures days == 1 ==> DurationLabel(days) == "1 day"
    ensures 2 <= days < 7 ==> DurationLabel(days) == NatToString(days) + " days"
    ensures 7 <= days < 14 ==> DurationLabel(days) == "1 week"
    ensures 14 <= days < 30 ==>
      exists w: nat :: 2 <= w <= 4 && 7 * w <= days < 7 * w + 7 && DurationLabel(days) == NatToString(w) + " weeks"
    ensures 30 <= days < 60 ==> DurationLabel(days) == "1 month"
    ensures 60 <= days ==>
      exists m: nat :: 2 <= m && 30 * m <= days < 30 * m + 30 && DurationLabel(days) == NatToString(m) + " months"
  {
    if 14 <= days < 30 {
      var w: nat := days / 7;
      assert 2 <= w <= 4 && 7 * w <= days < 7 * w + 7;
    }
    if 60 <= days {
      var m: nat := days / 30;
      assert 2 <= m && 30 * m <= days < 30 * m + 30;
    }
  }

  /** The duration does not depend on which date is the start. */
  lemma DurationSymmetric(a: int, b: int)
    ensures CalculateDuration(a, b) == CalculateDuration(b, a)
  {
    assert Abs(b - a) == Abs(a - b);
  }

  /** End dates within the same instant, within one day, and within one
      week of the start, read as such. */
  lemma DurationFromDates(start: int, end: int)
    ensures CalculateDuration(start, end) == "Same day event" <==> start == end
    ensures start != end && Abs(end - start) <= DayMs ==> CalculateDuration(start, end) == "1 day"
    ensures 6 * DayMs < Abs(end - start) <= 13 * DayMs ==> CalculateDuration(start, end) == "1 week"
  {
    var n := CeilDays(Abs(end - start));
    DurationBuckets(n);
    if n >= 2 {
      var r := DurationLabel(n);
      assert r != "Same day event" by {
        if n < 30 {
          assert '0' <= r[0] <= '9';
        } else {
          assert '0' <= r[0] <= '9';
        }
      }
    }
    if 6 * DayMs < Abs(end - start) <= 13 * DayMs {
      assert 7 <= n < 14;
    }
  }

  /** The detail page's duration line: the computed duration when an end
      date is set, and the single-day text otherwise. */
  function DurationLine(e: Event): (r: string)
    ensures e.endDate.None? ==> r == "Single day event"
    ensures e.endDate.Some? ==> r == CalculateDuration(e.eventDate, e.endDate.value)
  {
    if e.endDate.Some? then CalculateDuration(e.eventDate, e.endDate.value) else "Single day event"
  }

  /** `event.location || (event.mode === 'online' ? 'Online Event' : 'TBA')`. */
  function LocationLine(location: Option<string>, mode: EventMode): (r: string)
    ensures r != ""
    ensures location.Some? && location.value != "" ==> r == location.value
    ensures (location.None? || location.value == "") && mode == Online ==> r == "Online Event"
    ensures (location.None? || location.value == "") && mode != Online ==> r == "TBA"
  {
    if location.Some? && location.value != "" then location.value
    else if mode == Online then "Online Event"
    else "TBA"
  }
}
