/**
 * Relative review timestamps (src/features/map/utils/TimeDiff.ts).
 *
 * An instant is its epoch milliseconds together with the index of the local
 * calendar day it falls on and the text `toLocaleDateString('ko-KR')` gives for
 * it: the time zone and the locale are not modelled, so the day index and the
 * locale text are inputs. `now` is a parameter, not a clock read.
 */
module TimeDiff {
  import JsText

  const MinuteMs: int := 60000
  const HourMs: int := 3600000
  const DayMs: int := 86400000

  datatype Instant = Instant(ms: int, day: int, localeDate: string)

  /** The label buckets of `formatTimeDiff`. */
  datatype RelTime =
    | JustNow
    | MinutesAgo(minutes: int)
    | HoursAgo(hours: int)
    | Today
    | Yesterday
    | DaysAgo(days: int)
    | WeeksAgo(weeks: int)
    | LocaleDate(text: string)

  /** `getTimeDiff`: milliseconds from the instant to now (negative for the future). */
  function GetTimeDiff(date: Instant, now: Instant): (d: int)
    ensures date.ms + d == now.ms
  {
    now.ms - date.ms
  }

  /** Whole calendar days between the two local midnights. */
  function DiffDays(date: Instant, now: Instant): int {
    now.day - date.day
  }

  /** `formatTimeDiff`: calendar-day distance first; on the same day, floors of the
      elapsed minutes and hours; weeks are whole weeks of days. Dafny's `/` by a positive
      divisor is the floor `Math.floor` takes. */
  function FormatTimeDiff(date: Instant, now: Instant): (r: RelTime)
    ensures r.JustNow? <==> DiffDays(date, now) == 0 && GetTimeDiff(date, now) < MinuteMs
    ensures r.MinutesAgo? <==>
      DiffDays(date, now) == 0 && MinuteMs <= GetTimeDiff(date, now) < HourMs
    ensures r.MinutesAgo? ==>
      1 <= r.minutes < 60 && r.minutes * MinuteMs <= GetTimeDiff(date, now) < (r.minutes + 1) * MinuteMs
    ensures r.HoursAgo? <==> DiffDays(date, now) == 0 && HourMs <= GetTimeDiff(date, now) < DayMs
    ensures r.HoursAgo? ==>
      1 <= r.hours < 24 && r.hours * HourMs <= GetTimeDiff(date, now) < (r.hours + 1) * HourMs
    ensures r.Today? <==> DiffDays(date, now) == 0 && DayMs <= GetTimeDiff(date, now)
    ensures r.Yesterday? <==> DiffDays(date, now) == 1
    ensures r.DaysAgo? <==> DiffDays(date, now) < 7 && DiffDays(date, now) != 0 && DiffDays(date, now) != 1
    ensures r.DaysAgo? ==> r.days == DiffDays(date, now)
    ensures r.WeeksAgo? <==> 7 <= DiffDays(date, now) < 30
    ensures r.WeeksAgo? ==>
      1 <= r.weeks <= 4 && 7 * r.weeks <= DiffDays(date, now) < 7 * (r.weeks + 1)
    ensures r.LocaleDate? <==> 30 <= DiffDays(date, now)
    ensures r.LocaleDate? ==> r.text == date.localeDate
  {
    var diffDays := DiffDays(date, now);
    var elapsed := GetTimeDiff(date, now);
    var diffHours := elapsed / HourMs;
    var diffMinutes := elapsed / MinuteMs;
    if diffDays == 0 then
      if diffHours < 1 then
        if diffMinutes < 1 then JustNow else MinutesAgo(diffMinutes)
      else if diffHours < 24 then HoursAgo(diffHours)
      else Today
    else if diffDays == 1 then Yesterday
    else if diffDays < 7 then DaysAgo(diffDays)
    else if diffDays < 30 then WeeksAgo(diffDays / 7)
    else LocaleDate(date.localeDate)
  }

  /** `isToday`: both instants fall on the same local day. */
  predicate IsToday(date: Instant, now: Instant) {
    date.day == now.day
  }

  /** `isYesterday`: the instant falls on the local day before today. */
  predicate IsYesterday(date: Instant, now: Instant) {
    date.day == now.day - 1
  }

  /** The two predicates agree with the labeller: a same-day label exactly when
      `isToday`, the yesterday label exactly when `isYesterday`. */
  lemma PredicatesAgreeWithLabels(date: Instant, now: Instant)
    ensures IsToday(date, now) <==>
      (FormatTimeDiff(date, now) in {JustNow, Today} ||
       FormatTimeDiff(date, now).MinutesAgo? || FormatTimeDiff(date, now).HoursAgo?)
    ensures IsYesterday(date, now) <==> FormatTimeDiff(date, now) == Yesterday
  {
  }

  /** Day and millisecond readings of one clock: instants on the same local day are
      less than a day apart. */
  predicate Coherent(date: Instant, now: Instant) {
    date.day == now.day ==> -DayMs < now.ms - date.ms < DayMs
  }

  /** For coherent readings the '오늘' label is never produced. */
  lemma TodayLabelUnreachable(date: Instant, now: Instant)
    requires Coherent(date, now)
    ensures FormatTimeDiff(date, now) != Today
  {
  }

  /** How old a label says the review is; larger is older. */
  function Age(r: RelTime): nat {
    match r
    case JustNow => 0
    case MinutesAgo(_) => 1
    case HoursAgo(_) => 2
    case Today => 3
    case Yesterday => 4
    case DaysAgo(_) => 5
    case WeeksAgo(_) => 6
    case LocaleDate(_) => 7
  }

  /** For past days, an earlier day never gets a younger label, and within the same
      bucket the count does not decrease. */
  lemma OlderDaysNeverLookNewer(a: Instant, b: Instant, now: Instant)
    requires 1 <= DiffDays(a, now) <= DiffDays(b, now)
    ensures Age(FormatTimeDiff(a, now)) <= Age(FormatTimeDiff(b, now))
    ensures FormatTimeDiff(a, now).DaysAgo? && FormatTimeDiff(b, now).DaysAgo? ==>
      FormatTimeDiff(a, now).days <= FormatTimeDiff(b, now).days
    ensures FormatTimeDiff(a, now).WeeksAgo? && FormatTimeDiff(b, now).WeeksAgo? ==>
      FormatTimeDiff(a, now).weeks <= FormatTimeDiff(b, now).weeks
  {
  }

  /** The Korean text of a label. */
  function Render(r: RelTime): string {
    match r
    case JustNow => "방금 전"
    case MinutesAgo(n) => JsText.IntText(n) + "분 전"
    case HoursAgo(n) => JsText.IntText(n) + "시간 전"
    case Today => "오늘"
    case Yesterday => "어제"
    case DaysAgo(n) => JsText.IntText(n) + "일 전"
    case WeeksAgo(n) => JsText.IntText(n) + "주 전"
    case LocaleDate(t) => t
  }

  /** Which bucket a rendered label came from: its last character, and the one two
      before it, tell the buckets apart. */
  function Marker(r: RelTime): char
    requires !r.LocaleDate?
  {
    match r
    case JustNow => '금'
    case MinutesAgo(_) => '분'
    case HoursAgo(_) => '간'
    case Today => '늘'
    case Yesterday => '제'
    case DaysAgo(_) => '일'
    case WeeksAgo(_) => '주'
  }

  lemma RenderMarker(r: RelTime)
    requires !r.LocaleDate?
    ensures var s := Render(r);
      |s| >= 2 &&
      (if r.Today? || r.Yesterday? then s[|s| - 1] == Marker(r)
       else |s| >= 3 && s[|s| - 1] == '전' && s[|s| - 3] == Marker(r))
  {
  }

  lemma IntTextInjective(m: int, n: int)
    requires JsText.IntText(m) == JsText.IntText(n)
    ensures m == n
  {
    JsText.ParseIntText(m);
    JsText.ParseIntText(n);
  }

  lemma CancelSuffix(a: string, b: string, suffix: string)
    requires a + suffix == b + suffix
    ensures a == b
  {
    assert a == (a + suffix)[..|a|];
    assert b == (b + suffix)[..|b|];
  }

  /** Distinct labels render to distinct texts (the locale-date label aside). */
  lemma RenderUnambiguous(a: RelTime, b: RelTime)
    requires !a.LocaleDate? && !b.LocaleDate?
    requires Render(a) == Render(b)
    ensures a == b
  {
    RenderMarker(a);
    RenderMarker(b);
    assert Marker(a) == Marker(b);
    match a {
      case MinutesAgo(m) =>
        CancelSuffix(JsText.IntText(m), JsText.IntText(b.minutes), "분 전");
        IntTextInjective(m, b.minutes);
      case HoursAgo(m) =>
        CancelSuffix(JsText.IntText(m), JsText.IntText(b.hours), "시간 전");
        IntTextInjective(m, b.hours);
      case DaysAgo(m) =>
        CancelSuffix(JsText.IntText(m), JsText.IntText(b.days), "일 전");
        IntTextInjective(m, b.days);
      case WeeksAgo(m) =>
        CancelSuffix(JsText.IntText(m), JsText.IntText(b.weeks), "주 전");
        IntTextInjective(m, b.weeks);
      case _ =>
    }
  }
}
