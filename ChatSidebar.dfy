/** The chat sidebar carries its own copy of the relative-time formatter. It
    is written here as the component writes it, and proved to be the
    application sidebar's formatter. */
module ChatSidebar {
  import opened Relational
  import opened Text
  import AppSidebar

  /** `formatTimestamp(date)` of the chat sidebar, with the clock reading `now`. */
  function FormatTimestamp(now: int, date: int): string
  {
    var diff := now - date;
    var minutes := diff / (1000 * 60);
    var hours := diff / (1000 * 60 * 60);
    var days := diff / (1000 * 60 * 60 * 24);
    if minutes < 60 then IntToDecimal(minutes) + "m"
    else if hours < 24 then IntToDecimal(hours) + "h"
    else IntToDecimal(days) + "d"
  }

  /** Both sidebars show the same text for every pair of times. */
  lemma SameAsAppSidebar(now: int, date: int)
    ensures FormatTimestamp(now, date) == AppSidebar.FormatTimestamp(now, date)
  {
    var diff := now - date;
    AppSidebar.FormatCases(now, date);
    AppSidebar.FloorBelow(diff, 1000 * 60, 60);
    AppSidebar.FloorBelow(diff, 1000 * 60 * 60, 24);
  }

  /** Hence the branches and bounds of the application sidebar hold here too:
      every difference gets one unit, negative ones in minutes. */
  lemma FormatCases(now: int, date: int)
    ensures var diff := now - date;
            var s := FormatTimestamp(now, date);
            && (diff < 0 ==> s[|s| - 1] == 'm')
            && (diff < AppSidebar.HourMs ==> s == IntToDecimal(diff / AppSidebar.MinuteMs) + "m")
            && (AppSidebar.HourMs <= diff < AppSidebar.DayMs ==>
                  s == IntToDecimal(diff / AppSidebar.HourMs) + "h" && 1 <= diff / AppSidebar.HourMs <= 23)
            && (AppSidebar.DayMs <= diff ==>
                  s == IntToDecimal(diff / AppSidebar.DayMs) + "d" && diff / AppSidebar.DayMs >= 1)
            && AppSidebar.ParseRelative(s) == Some(AppSidebar.RelativeTime(diff))
  {
    SameAsAppSidebar(now, date);
    AppSidebar.FormatCases(now, date);
    AppSidebar.FormatMeaning(now, date);
  }
}
