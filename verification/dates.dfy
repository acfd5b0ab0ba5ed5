/**
 * `humanDate`: the short label of an ISO date in the income and expense
 * lists. A first of January shows as the year, any other first of a month
 * as "MM YYYY", and every other text as it is.
 */
module Dates {
  import opened Wrappers
  import opened Records
  import opened Text

  /** The `i`-th piece of a split, or nothing when there are fewer pieces (JavaScript's `undefined`). */
  function Piece(parts: seq<string>, i: nat): Option<string> {
    if i < |parts| then Some(parts[i]) else None
  }

  function HumanDate(date: Option<string>): (r: Option<string>)
    ensures !HasText(date) ==> r.None?
    ensures HasText(date) && Piece(Split(date.value, '-'), 2) != Some("01") ==> r == date
    ensures HasText(date) ==> r.Some?
  {
    if !HasText(date) then None
    else
      var parts := Split(date.value, '-');
      var year := parts[0];
      if Piece(parts, 2) == Some("01") then
        if Piece(parts, 1) == Some("01") then Some(year) else Some(parts[1] + " " + year)
      else date
  }

  /** Joining three parts puts the separator between each neighbouring pair. */
  lemma Join3(a: string, b: string, c: string, sep: char)
    ensures Join([a, b, c], sep) == a + [sep] + b + [sep] + c
  {
    assert [a, b, c][1..] == [b, c];
    assert [b, c][1..] == [c];
    assert Join([b, c], sep) == b + [sep] + c;
    assert Join([a, b, c], sep) == a + [sep] + (b + [sep] + c);
  }

  /** The first of January of a year is shown as the year alone. */
  lemma {:induction false} NewYearShowsYear(year: string)
    requires '-' !in year
    ensures HumanDate(Some(year + "-01-01")) == Some(year)
  {
    var date := year + "-01-01";
    Join3(year, "01", "01", '-');
    assert date == year + ['-'] + "01" + ['-'] + "01";
    SplitJoin([year, "01", "01"], '-');
  }

  /** The first of any other month is shown as "MM YYYY". */
  lemma {:induction false} FirstOfMonthShowsMonth(year: string, month: string)
    requires '-' !in year && '-' !in month && month != "01"
    ensures HumanDate(Some(year + "-" + month + "-01")) == Some(month + " " + year)
  {
    var date := year + "-" + month + "-01";
    Join3(year, month, "01", '-');
    assert date == year + ['-'] + month + ['-'] + "01";
    SplitJoin([year, month, "01"], '-');
  }

  /** A date that is not the first of a month is shown unchanged. */
  lemma {:induction false} OtherDayUnchanged(year: string, month: string, day: string)
    requires '-' !in year && '-' !in month && '-' !in day && day != "01"
    ensures HumanDate(Some(year + "-" + month + "-" + day)) == Some(year + "-" + month + "-" + day)
  {
    var date := year + "-" + month + "-" + day;
    Join3(year, month, day, '-');
    SplitJoin([year, month, day], '-');
  }
}
