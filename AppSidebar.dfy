/** The relative time the application sidebar shows next to a chat: whole
    minutes below an hour, whole hours below a day, whole days otherwise, each
    rendered as `${n}` followed by a one-letter unit. Times are milliseconds
    since the epoch; the current time is an input. */
module AppSidebar {
  import opened Relational
  import opened Text

  const MinuteMs := 1000 * 60
  const HourMs := 1000 * 60 * 60
  const DayMs := 1000 * 60 * 60 * 24

  datatype Unit = Minutes | Hours | Days

  function UnitLetter(u: Unit): char
  {
    match u
    case Minutes => 'm'
    case Hours => 'h'
    case Days => 'd'
  }

  /** An amount of whole units. */
  datatype Relative = Relative(amount: int, unit: Unit)

  /** `n * size <= diff < (n + 1) * size`: n is `Math.floor(diff / size)`. */
  predicate IsFloorOf(n: int, diff: int, size: int)
  {
    n * size <= diff < (n + 1) * size
  }

  lemma FloorBelow(diff: int, size: int, bound: int)
    requires size > 0
    ensures diff / size < bound <==> diff < bound * size
  {
    var q := diff / size;
    assert q * size <= diff < q * size + size;
    MulMonotone(q + 1, bound, size);
    MulMonotone(bound, q, size);
  }

  lemma MulMonotone(a: int, b: int, size: int)
    requires size > 0
    ensures a <= b ==> a * size <= b * size
  {
    if a <= b {
      var k := b - a;
      assert b * size == a * size + k * size;
    }
  }

  /** The unit and amount for a difference `now - date`: the minutes test
      takes every negative difference too. */
  function RelativeTime(diff: int): (r: Relative)
    ensures r.unit == Minutes <==> diff < HourMs
    ensures r.unit == Hours <==> HourMs <= diff < DayMs
    ensures r.unit == Days <==> DayMs <= diff
    ensures r.unit == Minutes ==> IsFloorOf(r.amount, diff, MinuteMs) && r.amount < 60
    ensures r.unit == Hours ==> IsFloorOf(r.amount, diff, HourMs) && 1 <= r.amount <= 23
    ensures r.unit == Days ==> IsFloorOf(r.amount, diff, DayMs) && r.amount >= 1
  {
    var minutes := diff / MinuteMs;
    var hours := diff / HourMs;
    var days := diff / DayMs;
    FloorBelow(diff, MinuteMs, 60);
    FloorBelow(diff, HourMs, 24);
    FloorBelow(diff, HourMs, 1);
    FloorBelow(diff, DayMs, 1);
    if minutes < 60 then Relative(minutes, Minutes)
    else if hours < 24 then Relative(hours, Hours)
    else Relative(days, Days)
  }

  function Render(r: Relative): string
  {
    IntToDecimal(r.amount) + [UnitLetter(r.unit)]
  }

  /** `formatTimestamp(date)` with the clock reading `now`. */
  function FormatTimestamp(now: int, date: int): string
  {
    Render(RelativeTime(now - date))
  }

  function UnitOf(c: char): Option<Unit>
  {
    if c == 'm' then Some(Minutes)
    else if c == 'h' then Some(Hours)
    else if c == 'd' then Some(Days)
    else None
  }

  /** Reads a rendered relative time back: a decimal amount and one unit letter. */
  function ParseRelative(s: string): Option<Relative>
  {
    if |s| == 0 then None
    else
      match (ParseDecimal(s[..|s| - 1]), UnitOf(s[|s| - 1]))
      case (Some(n), Some(u)) => Some(Relative(n, u))
      case _ => None
  }

  lemma RenderRoundTrip(r: Relative)
    ensures ParseRelative(Render(r)) == Some(r)
  {
    var s := Render(r);
    assert s[..|s| - 1] == IntToDecimal(r.amount);
    DecimalRoundTrip(r.amount);
  }

  /** The text is the decimal amount followed by exactly one unit letter; the
      amount and unit are those of the difference. */
  lemma FormatMeaning(now: int, date: int)
    ensures var s := FormatTimestamp(now, date);
            && |s| >= 2
            && ParseRelative(s) == Some(RelativeTime(now - date))
            && s[|s| - 1] in {'m', 'h', 'd'}
            && forall i | 0 <= i < |s| - 1 :: UnitOf(s[i]).None?
  {
    var r := RelativeTime(now - date);
    var s := Render(r);
    RenderRoundTrip(r);
    var digits := NatToDecimal(if r.amount < 0 then -r.amount else r.amount);
    assert s[..|s| - 1] == IntToDecimal(r.amount);
    forall i | 0 <= i < |s| - 1 ensures UnitOf(s[i]).None? {
      assert s[i] == IntToDecimal(r.amount)[i];
      if r.amount < 0 && i > 0 {
        assert IntToDecimal(r.amount)[i] == digits[i - 1];
      }
    }
  }

  /** The three branches, stated on the difference. */
  lemma FormatCases(now: int, date: int)
    ensures var diff := now - date;
            && (diff < HourMs ==> FormatTimestamp(now, date) == IntToDecimal(diff / MinuteMs) + "m")
            && (HourMs <= diff < DayMs ==>
                  FormatTimestamp(now, date) == IntToDecimal(diff / HourMs) + "h"
                  && 1 <= diff / HourMs <= 23)
            && (DayMs <= diff ==>
                  FormatTimestamp(now, date) == IntToDecimal(diff / DayMs) + "d" && diff / DayMs >= 1)
  {
    var diff := now - date;
    var r := RelativeTime(diff);
    assert IsFloorOf(diff / MinuteMs, diff, MinuteMs);
    assert IsFloorOf(diff / HourMs, diff, HourMs);
    assert IsFloorOf(diff / DayMs, diff, DayMs);
    FloorUnique(r.amount, diff / MinuteMs, diff, MinuteMs);
    FloorUnique(r.amount, diff / HourMs, diff, HourMs);
    FloorUnique(r.amount, diff / DayMs, diff, DayMs);
  }

  lemma FloorUnique(a: int, b: int, diff: int, size: int)
    requires size > 0
    requires IsFloorOf(b, diff, size)
    ensures IsFloorOf(a, diff, size) ==> a == b
  {
    assert a < b ==> (a + 1) * size <= b * size;
    assert b < a ==> (b + 1) * size <= a * size;
  }
}
