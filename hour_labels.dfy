/**
 * The hour-of-day label "HH:00" under which the time series groups readings,
 * and the lexical order in which the store sorts those labels.
 */
module HourLabels {

  /** Minutes in an hour and hours in a day, for timestamps counted in minutes. */
  const MINUTES_PER_HOUR: int := 60
  const HOURS_PER_DAY: int := 24

  /** The hour of day of a timestamp; the calendar date is dropped. */
  function HourOf(t: int): (h: nat)
    ensures h < HOURS_PER_DAY
  {
    (t / MINUTES_PER_HOUR) % HOURS_PER_DAY
  }

  /** Minutes in one day. */
  const MINUTES_PER_DAY: int := HOURS_PER_DAY * MINUTES_PER_HOUR

  /** Readings whole days apart get the same hour, so they share a label. */
  lemma SameHourDaysApart(t: int, days: int)
    ensures HourOf(t + days * MINUTES_PER_DAY) == HourOf(t)
  {
    var q, r := t / MINUTES_PER_HOUR, t % MINUTES_PER_HOUR;
    assert t + days * MINUTES_PER_DAY == MINUTES_PER_HOUR * (q + HOURS_PER_DAY * days) + r;
    assert (t + days * MINUTES_PER_DAY) / MINUTES_PER_HOUR == q + HOURS_PER_DAY * days;
    assert (q + HOURS_PER_DAY * days) % HOURS_PER_DAY == q % HOURS_PER_DAY;
  }

  function Digit(d: nat): (c: char)
    requires d < 10
    ensures '0' <= c <= '9' && c as int - '0' as int == d
  {
    ('0' as int + d) as char
  }

  /** The zero-padded label of an hour, as the store formats it. */
  function HourLabel(h: nat): (s: string)
    requires h < HOURS_PER_DAY
    ensures |s| == 5 && s[2..] == ":00"
  {
    [Digit(h / 10), Digit(h % 10), ':', '0', '0']
  }

  /** Reads the hour back out of a label. */
  function ParseHour(s: string): int
    requires |s| >= 2
  {
    10 * (s[0] as int - '0' as int) + (s[1] as int - '0' as int)
  }

  /** Labels lose nothing: the hour can be read back, so distinct hours have distinct labels. */
  lemma LabelRoundTrip(h: nat)
    requires h < HOURS_PER_DAY
    ensures ParseHour(HourLabel(h)) == h
  {
  }

  /** Strict lexical (dictionary) order on strings, the order of ORDER BY on text. */
  predicate LexLess(a: string, b: string)
    decreases |a|
  {
    if |b| == 0 then false
    else if |a| == 0 then true
    else a[0] < b[0] || (a[0] == b[0] && LexLess(a[1..], b[1..]))
  }

  lemma {:induction false} LexLessIrreflexive(s: string)
    ensures !LexLess(s, s)
    decreases |s|
  {
    if |s| > 0 {
      LexLessIrreflexive(s[1..]);
    }
  }

  /**
   * Because the labels are zero-padded to two digits, sorting them as text
   * sorts them by hour.
   */
  lemma {:induction false} LabelOrder(h: nat, k: nat)
    requires h < HOURS_PER_DAY && k < HOURS_PER_DAY
    ensures LexLess(HourLabel(h), HourLabel(k)) <==> h < k
  {
    var a, b := HourLabel(h), HourLabel(k);
    assert a[1..][1..] == a[2..] == ":00" == b[2..] == b[1..][1..];
    LexLessIrreflexive(":00");
    assert h == 10 * (h / 10) + h % 10 && k == 10 * (k / 10) + k % 10;
    assert LexLess(a, b) <==> a[0] < b[0] || (a[0] == b[0] && a[1] < b[1]);
  }
}
