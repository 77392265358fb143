/**
 * The English ordinal suffix the blog cards print after the day of the month
 * (`1st`, `2nd`, `3rd`, `4th`, ..., `11th`, `12th`, `13th`, ..., `31st`).
 * The day is what `Date.prototype.getDate` returns for a valid date: 1 to 31.
 */
module DayOrdinal {

  /**
   * The English rule: every number in its teens takes "th"; otherwise a last
   * digit of 1, 2 or 3 takes "st", "nd" or "rd", and any other "th".
   */
  function EnglishOrdinalSuffix(n: nat): string
  {
    if n % 100 / 10 == 1 then "th"
    else if n % 10 == 1 then "st"
    else if n % 10 == 2 then "nd"
    else if n % 10 == 3 then "rd"
    else "th"
  }

  /**
   * The suffix, chosen by the page's chain of conditions on the last digit;
   * for every day of a month it is the English ordinal suffix.
   */
  function DaySuffix(day: int): (r: string)
    requires 1 <= day <= 31
    ensures r == EnglishOrdinalSuffix(day)
  {
    if day % 10 == 1 && day != 11 then "st"
    else if day % 10 == 2 && day != 12 then "nd"
    else if day % 10 == 3 && day != 13 then "rd"
    else "th"
  }

  /** The decimal digits of a day, as `getDate()` prints them. */
  function DayDigits(day: int): (r: string)
    requires 1 <= day <= 31
    ensures 1 <= |r| <= 2 && r[0] != '0'
    ensures forall i :: 0 <= i < |r| ==> '0' <= r[i] <= '9'
    ensures |r| == 1 ==> r[0] as int - '0' as int == day
    ensures |r| == 2 ==> (r[0] as int - '0' as int) * 10 + (r[1] as int - '0' as int) == day
  {
    if day < 10 then [Digit(day)] else [Digit(day / 10), Digit(day % 10)]
  }

  function Digit(d: int): (c: char)
    requires 0 <= d <= 9
    ensures '0' <= c <= '9' && c as int - '0' as int == d
  {
    ('0' as int + d) as char
  }

  /** The day as printed on a card: its digits followed by its suffix. */
  function FormatDay(day: int): (r: string)
    requires 1 <= day <= 31
    ensures r == DayDigits(day) + EnglishOrdinalSuffix(day)
  {
    DayDigits(day) + DaySuffix(day)
  }

  /** The cases the page must get right, the teen exceptions among them. */
  lemma FormatDayExamples()
    ensures FormatDay(1) == "1st" && FormatDay(2) == "2nd" && FormatDay(3) == "3rd"
    ensures FormatDay(4) == "4th" && FormatDay(11) == "11th" && FormatDay(12) == "12th"
    ensures FormatDay(13) == "13th" && FormatDay(21) == "21st" && FormatDay(22) == "22nd"
    ensures FormatDay(23) == "23rd" && FormatDay(31) == "31st"
  {
  }
}
