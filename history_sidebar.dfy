/** The two text helpers of the history sidebar: the relative time label of
    an entry (`formatTimestamp`) and the default one-line preview of its data
    (`defaultRenderEntry`). */
module HistorySidebar {
  import Text

  const MinuteMs: int := 60000
  const HourMs: int := 3600000
  const DayMs: int := 86400000

  /** Which label `formatTimestamp` picks, by the age `now - timestamp` in ms. */
  datatype Age = JustNow | MinutesAgo(minutes: nat) | HoursAgo(hours: nat) | OlderThanADay

  function AgeOf(diff: int): (a: Age)
    ensures a == JustNow <==> diff < MinuteMs
    ensures a.MinutesAgo? <==> MinuteMs <= diff < HourMs
    ensures a.HoursAgo? <==> HourMs <= diff < DayMs
    ensures a == OlderThanADay <==> diff >= DayMs
    ensures a.MinutesAgo? ==> 1 <= a.minutes <= 59
                              && a.minutes * MinuteMs <= diff < (a.minutes + 1) * MinuteMs
    ensures a.HoursAgo? ==> 1 <= a.hours <= 23
                            && a.hours * HourMs <= diff < (a.hours + 1) * HourMs
  {
    if diff < MinuteMs then JustNow
    else if diff < HourMs then MinutesAgo(diff / MinuteMs)
    else if diff < DayMs then HoursAgo(diff / HourMs)
    else OlderThanADay
  }

  /** `formatTimestamp(timestamp)` read at clock time `now`; `localeDate` is
      what `toLocaleDateString()` gives for the entry's date. */
  function FormatTimestamp(timestamp: int, now: int, localeDate: string): (r: string)
    ensures now - timestamp < MinuteMs ==> r == "Just now"
    ensures MinuteMs <= now - timestamp < HourMs ==>
              r == Text.Decimal((now - timestamp) / MinuteMs) + "m ago"
    ensures HourMs <= now - timestamp < DayMs ==>
              r == Text.Decimal((now - timestamp) / HourMs) + "h ago"
    ensures now - timestamp >= DayMs ==> r == localeDate
  {
    match AgeOf(now - timestamp)
    case JustNow => "Just now"
    case MinutesAgo(m) => Text.Decimal(m) + "m ago"
    case HoursAgo(h) => Text.Decimal(h) + "h ago"
    case OlderThanADay => localeDate
  }

  /** Entries from the future, and those under a minute old, read "Just now";
      a minute-old entry reads "1m ago". */
  lemma FormatTimestampExamples(t: int, localeDate: string)
    ensures forall now :: now < t + MinuteMs ==> FormatTimestamp(t, now, localeDate) == "Just now"
    ensures FormatTimestamp(t, t + MinuteMs, localeDate) == "1m ago"
    ensures FormatTimestamp(t, t + 5 * HourMs + 1, localeDate) == "5h ago"
    ensures FormatTimestamp(t, t + DayMs, localeDate) == localeDate
    ensures forall now :: now >= t + DayMs ==> FormatTimestamp(t, now, localeDate) == localeDate
  {
    assert AgeOf(MinuteMs) == MinutesAgo(1);
    assert Text.Decimal(1) == "1";
    assert AgeOf(5 * HourMs + 1) == HoursAgo(5);
    assert Text.Decimal(5) == "5";
  }

  /** The data of an entry as the preview sees it: an object with an
      `input` field (as a string), or anything else, given by its JSON text. */
  datatype PreviewData = WithInput(input: string) | OtherData(json: string)

  /** `defaultRenderEntry`: the input when it has at most 50 characters,
      and its first 50 followed by "..." otherwise, so never more than 53;
      other data shows the first 50 characters of its JSON text. */
  function DefaultPreview(d: PreviewData): (r: string)
    ensures |r| <= 53
    ensures d.WithInput? && |d.input| <= 50 ==> r == d.input
    ensures d.WithInput? && |d.input| > 50 ==> r == d.input[..50] + "..." && r[..50] <= d.input
    ensures d.OtherData? ==> |r| == (if |d.json| < 50 then |d.json| else 50) && r <= d.json
  {
    match d
    case WithInput(input) =>
      var preview := input[..if |input| < 50 then |input| else 50];
      if |preview| < |input| then preview + "..." else preview
    case OtherData(json) => json[..if |json| < 50 then |json| else 50]
  }
}
