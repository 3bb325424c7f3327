/** The date arithmetic of the bot: the weekday arithmetic behind "next
    Monday", and the `.seconds` of a difference of two date-times. Days are
    numbered from 1 January 1970, which was a Thursday; weekdays are numbered
    as Python's datetime.weekday() numbers them, Monday 0 to Sunday 6. */
module Calendar {

  const SecondsPerDay: int := 86400

  /** `(later - earlier).seconds` for date-times given in whole seconds: a
      timedelta keeps whole days apart, and `.seconds` is what is left, always
      in 0..86399 (a negative difference is normalised to negative days plus
      a non-negative remainder). */
  function TimedeltaSeconds(later: int, earlier: int): (s: int)
    ensures 0 <= s < SecondsPerDay
    ensures 0 <= later - earlier < SecondsPerDay ==> s == later - earlier
    ensures (later - earlier - s) % SecondsPerDay == 0
  {
    (later - earlier) % SecondsPerDay
  }

  /** Whole days make no difference to `.seconds`. */
  lemma TimedeltaDropsDays(later: int, earlier: int, days: int)
    ensures TimedeltaSeconds(later + days * SecondsPerDay, earlier) == TimedeltaSeconds(later, earlier)
  {
    var x := later - earlier;
    var q, r := x / SecondsPerDay, x % SecondsPerDay;
    assert later + days * SecondsPerDay - earlier == (q + days) * SecondsPerDay + r;
    DivisionUnique(later + days * SecondsPerDay - earlier, q + days, r);
  }

  /** Euclidean division by a day has one quotient and one remainder. */
  lemma DivisionUnique(x: int, q: int, r: int)
    requires 0 <= r < SecondsPerDay
    requires x == q * SecondsPerDay + r
    ensures x % SecondsPerDay == r
  {
    var q', r' := x / SecondsPerDay, x % SecondsPerDay;
    assert (q - q') * SecondsPerDay == r' - r;
  }

  function Weekday(day: int): (w: int)
    ensures 0 <= w < 7
  {
    (day + 3) % 7
  }

  /** The offset the bot adds to today: 0 - weekday, plus 7 when that is not positive. */
  function DaysAhead(weekday: int): (d: int)
    requires 0 <= weekday < 7
    ensures 1 <= d <= 7
    ensures d == 7 <==> weekday == 0
    ensures (weekday + d) % 7 == 0
  {
    var d := 0 - weekday;
    if d <= 0 then d + 7 else d
  }

  /** The day the bot announces as the next Monday. */
  function NextMonday(today: int): int {
    today + DaysAhead(Weekday(today))
  }

  /** It is a Monday, strictly after today and at most a week ahead, and no
      Monday lies between: on a Monday it is the Monday a week later. */
  lemma NextMondayIsFirst(today: int)
    ensures var r := NextMonday(today);
            && today < r <= today + 7
            && Weekday(r) == 0
            && (Weekday(today) == 0 ==> r == today + 7)
            && forall d :: today < d < r ==> Weekday(d) != 0
  {
    var w := Weekday(today);
    var r := NextMonday(today);
    forall d | today < d < r
      ensures Weekday(d) != 0
    {
      var j := d - today;
      assert 0 < j < 7 - w;
      assert (today + 3) % 7 == w;
      assert Weekday(d) == (w + j) % 7;
    }
  }
}
