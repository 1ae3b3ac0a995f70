/** The template filter that shows how long ago a timestamp was: under a
    minute, whole minutes, hours or days, and after a week, as intended, the
    calendar date (as written, the date branch raises AttributeError). */
module TimeBuckets {
  import opened Text

  const Minute := 60
  const Hour := 3600
  const Day := 86400
  const Week := 604800

  /** `int(x)` on a float: drops the fraction, toward zero. */
  function Truncate(x: real): (n: int)
    ensures x >= 0.0 ==> n as real <= x < n as real + 1.0
    ensures x < 0.0 ==> n as real - 1.0 < x <= n as real
  {
    if x >= 0.0 then x.Floor else -((-x).Floor)
  }

  /** How an elapsed number of seconds is shown. */
  datatype Age = JustNow | Minutes(n: int) | Hours(n: int) | Days(n: int) | Dated

  /** The bucket for `delta` seconds, with the count of whole units. A
      negative delta (a timestamp in the future) counts as just now. */
  function Classify(delta: int): (a: Age)
    ensures a == JustNow <==> delta < Minute
    ensures a.Minutes? <==> Minute <= delta < Hour
    ensures a.Hours? <==> Hour <= delta < Day
    ensures a.Days? <==> Day <= delta < Week
    ensures a == Dated <==> Week <= delta
    ensures a.Minutes? ==> 1 <= a.n <= 59 && a.n * Minute <= delta < (a.n + 1) * Minute
    ensures a.Hours? ==> 1 <= a.n <= 23 && a.n * Hour <= delta < (a.n + 1) * Hour
    ensures a.Days? ==> 1 <= a.n <= 6 && a.n * Day <= delta < (a.n + 1) * Day
  {
    if delta < Minute then JustNow
    else if delta < Hour then Minutes(delta / Minute)
    else if delta < Day then Hours(delta / Hour)
    else if delta < Week then Days(delta / Day)
    else Dated
  }

  /** The buckets in increasing age. */
  function Rank(a: Age): nat {
    match a
    case JustNow => 0
    case Minutes(_) => 1
    case Hours(_) => 2
    case Days(_) => 3
    case Dated => 4
  }

  /** More elapsed time never shows as younger: the bucket does not go
      down, and within a bucket the count does not go down. */
  lemma ClassifyMonotone(d1: int, d2: int)
    requires d1 <= d2
    ensures Rank(Classify(d1)) <= Rank(Classify(d2))
    ensures Rank(Classify(d1)) == Rank(Classify(d2)) && Classify(d1) != JustNow && Classify(d1) != Dated ==>
              Classify(d1).n <= Classify(d2).n
  {
    var a1, a2 := Classify(d1), Classify(d2);
    if a1.Minutes? && a2.Minutes? {
      assert d1 / Minute <= d2 / Minute;
    } else if a1.Hours? && a2.Hours? {
      assert d1 / Hour <= d2 / Hour;
    } else if a1.Days? && a2.Days? {
      assert d1 / Day <= d2 / Day;
    }
  }

  /** A calendar date in local time. */
  datatype Date = Date(year: int, month: int, day: int)

  /** The text for a bucket; a dated timestamp shows its local date. */
  function Render(a: Age, date: Date): string {
    match a
    case JustNow => "1分钟前"
    case Minutes(n) => IntText(n) + "分钟前"
    case Hours(n) => IntText(n) + "小时前"
    case Days(n) => IntText(n) + "天前"
    case Dated => IntText(date.year) + "年" + IntText(date.month) + "月" + IntText(date.day) + "日"
  }

  /** The filter's answer: the text, or the message of the exception it
      raised. */
  datatype Shown = Text(s: string) | Raised(message: string)

  /** The AttributeError raised by `datetime.fromtimestamp` when the name
      `datetime` is bound to the module rather than to its class. */
  const NoFromTimestamp := "'module' object has no attribute 'fromtimestamp'"

  /** `datetime_filter(t)` at clock reading `now`; `localDate` stands for
      converting a timestamp to the local calendar, and `resolved` tells
      whether that conversion can be reached at all. */
  function DatetimeFilterWith(now: real, t: real, localDate: real -> Date, resolved: bool): Shown {
    var a := Classify(Truncate(now - t));
    if a == Dated && !resolved then Raised(NoFromTimestamp)
    else Text(Render(a, localDate(t)))
  }

  /** `datetime_filter` as intended: after a week the local date is shown.
      Every timestamp is shown; under a minute (a future one included) as the
      fixed text, within the week as a count of units ago, after that as a
      date. */
  function DatetimeFilter(now: real, t: real, localDate: real -> Date): (r: Shown)
    ensures r.Text? && |r.s| > 0
    ensures Truncate(now - t) < Minute ==> r.s == "1分钟前"
    ensures Truncate(now - t) < Week ==> r.s[|r.s| - 1] == '前'
    ensures Truncate(now - t) >= Week ==> r.s[|r.s| - 1] == '日'
    ensures var d := Truncate(now - t);
            Minute <= d < Hour ==> r.s == IntText(d / Minute) + "分钟前"
    ensures var d := Truncate(now - t);
            Hour <= d < Day ==> r.s == IntText(d / Hour) + "小时前"
    ensures var d := Truncate(now - t);
            Day <= d < Week ==> r.s == IntText(d / Day) + "天前"
    ensures Truncate(now - t) >= Week ==>
              var date := localDate(t);
              r.s == IntText(date.year) + "年" + IntText(date.month) + "月" + IntText(date.day) + "日"
  {
    DatetimeFilterWith(now, t, localDate, true)
  }

  /** `datetime_filter` as written: the module imports `datetime` as a
      module, so the date branch calls a function the module does not have. */
  function DatetimeFilterAsWritten(now: real, t: real, localDate: real -> Date): Shown {
    DatetimeFilterWith(now, t, localDate, false)
  }

  /** As written, the filter raises exactly for timestamps a week or more in
      the past, and agrees with the intended filter everywhere else. */
  lemma AsWrittenFailsAfterAWeek(now: real, t: real, localDate: real -> Date)
    ensures DatetimeFilterAsWritten(now, t, localDate).Raised? <==> Truncate(now - t) >= Week
    ensures Truncate(now - t) >= Week ==> DatetimeFilterAsWritten(now, t, localDate) == Raised(NoFromTimestamp)
    ensures Truncate(now - t) < Week ==> DatetimeFilterAsWritten(now, t, localDate) == DatetimeFilter(now, t, localDate)
  {
  }

  /** The discrepancy on one input: a timestamp exactly one week old. */
  lemma DateBranchCounterexample(localDate: real -> Date)
    ensures DatetimeFilterAsWritten(Week as real, 0.0, localDate) == Raised(NoFromTimestamp)
    ensures DatetimeFilter(Week as real, 0.0, localDate).Text?
  {
    assert Truncate(Week as real - 0.0) == Week;
  }

  /** Within the first week the count can be read back from the text: the
      digits before the unit denote it. */
  lemma RenderReadsBack(delta: int, date: Date)
    requires Minute <= delta < Week
    ensures var a := Classify(delta);
            var s := Render(a, date);
            var digits := s[..|Digits(a.n)|];
            && AllDigits(digits) && DecimalValue(digits) == a.n
            && !IsDigit(s[|Digits(a.n)|])
  {
    var a := Classify(delta);
    DigitsRoundTrip(a.n);
    assert IntText(a.n) == Digits(a.n);
  }
}
