/** `generate_timesheet` (Timesheet.py:9-27): one header of day columns and one row
    that marks every day of the month as weekend ("WO"), holiday ("H"), leave ("L")
    or worked (the number 1), and the worked-day count of Timesheet.py:119. */
module Timesheet {
  import opened Calendar
  import opened Text
  import opened Values

  /** A one-row pandas DataFrame: column names and the values of row 0, column by column. */
  datatype Frame = Frame(columns: seq<string>, row: seq<Value>)

  /** `calendar.monthrange` raises `IllegalMonthError` for a month outside 1..12. */
  datatype CalendarError = IllegalMonth(month: int)

  datatype Result<T> = Success(value: T) | Failure(error: CalendarError)

  /** `calendar.day_name[i][:3]` in the English (C) locale. */
  const Abbreviations: seq<string> := ["Mon", "Tue", "Wed", "Thu", "Fri", "Sat", "Sun"]

  const NameColumn: string := "Emp Name"

  function DayAbbrev(year: int, month: int, day: int): (w: string)
    requires ValidDate(year, month, day)
    ensures |w| == 3
  {
    Abbreviations[Weekday(year, month, day)]
  }

  /** The header of a day column, `f"{d} {w}"`. */
  function DayLabel(day: nat, abbrev: string): string {
    NatToString(day) + " " + abbrev
  }

  /** The `Sat`/`Sun` test of Timesheet.py:18. */
  predicate IsWeekendAbbrev(abbrev: string) {
    abbrev in ["Sat", "Sun"]
  }

  /** The marker of one day, by the precedence weekend, holiday, leave, worked. */
  function DayMark(day: int, abbrev: string, leaves: seq<int>, holidays: seq<int>): Value {
    if IsWeekendAbbrev(abbrev) then Str("WO")
    else if day in holidays then Str("H")
    else if day in leaves then Str("L")
    else Number(1)
  }

  /** The day columns of the header, day 1 first. */
  function DayColumns(year: int, month: int): (cols: seq<string>)
    requires ValidMonth(month)
    ensures |cols| == DaysInMonth(year, month)
  {
    var n := DaysInMonth(year, month);
    seq(n, i requires 0 <= i < n => DayLabel(i + 1, DayAbbrev(year, month, i + 1)))
  }

  function Header(year: int, month: int): seq<string>
    requires ValidMonth(month)
  {
    [NameColumn] + DayColumns(year, month)
  }

  /** The markers of days 1..N, in day order. */
  function DayCells(year: int, month: int, leaves: seq<int>, holidays: seq<int>): (cells: seq<Value>)
    requires ValidMonth(month)
    ensures |cells| == DaysInMonth(year, month)
  {
    var n := DaysInMonth(year, month);
    seq(n, i requires 0 <= i < n => DayMark(i + 1, DayAbbrev(year, month, i + 1), leaves, holidays))
  }

  /** `df.loc[0] = row`: pandas aligns the dict with the columns; a missing key is NaN. */
  function Lookup(row: map<string, Value>, column: string): Value {
    if column in row then row[column] else Empty
  }

  /** The frame `generate_timesheet` returns for a valid month: "Emp Name" and the day
      labels, over the employee's name and the day markers. */
  function GeneratedFrame(empName: string, year: int, month: int, leaves: seq<int>, holidays: seq<int>): (frame: Frame)
    requires ValidMonth(month)
    ensures |frame.columns| == |frame.row| == DaysInMonth(year, month) + 1
    ensures frame.columns[0] == NameColumn && frame.row[0] == Str(empName)
    ensures forall i :: 1 <= i < |frame.row| ==> IsMarker(frame.row[i])
    ensures forall i :: 0 <= i < |frame.row| ==> frame.row[i] != Empty
  {
    EveryDayMarked(year, month, leaves, holidays);
    Frame(Header(year, month), [Str(empName)] + DayCells(year, month, leaves, holidays))
  }

  /** `generate_timesheet(emp_name, month, year, leaves, holidays)`. The dict `row`
      is filled day by day; `df.loc[0] = row` then reads it back in column order. */
  method GenerateTimesheet(empName: string, month: int, year: int, leaves: seq<int>, holidays: seq<int>)
    returns (r: Result<Frame>)
    ensures !ValidMonth(month) ==> r == Failure(IllegalMonth(month))
    ensures ValidMonth(month) ==> r == Success(GeneratedFrame(empName, year, month, leaves, holidays))
  {
    if !ValidMonth(month) {
      return Failure(IllegalMonth(month));
    }
    var n := DaysInMonth(year, month);
    var columns := Header(year, month);
    var row: map<string, Value> := map[NameColumn := Str(empName)];
    var d := 1;
    while d <= n
      invariant 1 <= d <= n + 1
      invariant NameColumn in row && row[NameColumn] == Str(empName)
      invariant Filled(row, year, month, leaves, holidays, d)
    {
      var w := DayAbbrev(year, month, d);
      var key := DayLabel(d, w);
      ghost var before := row;
      if w in ["Sat", "Sun"] {
        row := row[key := Str("WO")];
      } else if d in holidays {
        row := row[key := Str("H")];
      } else if d in leaves {
        row := row[key := Str("L")];
      } else {
        row := row[key := Number(1)];
      }
      assert row == before[key := DayMark(d, w, leaves, holidays)];
      FilledStep(before, empName, year, month, leaves, holidays, d);
      d := d + 1;
    }
    var values := seq(|columns|, i requires 0 <= i < |columns| => Lookup(row, columns[i]));
    FilledRowAligned(row, empName, year, month, leaves, holidays);
    r := Success(Frame(columns, values));
  }

  /** The dict holds the marker of every day before d under that day's label. */
  ghost predicate Filled(row: map<string, Value>, year: int, month: int, leaves: seq<int>, holidays: seq<int>, d: int)
    requires ValidMonth(month) && d <= DaysInMonth(year, month) + 1
  {
    forall k :: 1 <= k < d ==>
      var key := DayLabel(k, DayAbbrev(year, month, k));
      key in row && row[key] == DayMark(k, DayAbbrev(year, month, k), leaves, holidays)
  }

  /** Storing day d's marker under its label keeps the name entry and the earlier days. */
  lemma FilledStep(row: map<string, Value>, empName: string, year: int, month: int,
                   leaves: seq<int>, holidays: seq<int>, d: int)
    requires ValidDate(year, month, d)
    requires NameColumn in row && row[NameColumn] == Str(empName)
    requires Filled(row, year, month, leaves, holidays, d)
    ensures var w := DayAbbrev(year, month, d);
      var row' := row[DayLabel(d, w) := DayMark(d, w, leaves, holidays)];
      && NameColumn in row' && row'[NameColumn] == Str(empName)
      && Filled(row', year, month, leaves, holidays, d + 1)
  {
    var w := DayAbbrev(year, month, d);
    var key := DayLabel(d, w);
    forall k | 1 <= k < d
      ensures key != DayLabel(k, DayAbbrev(year, month, k))
    {
      DayLabelInjective(d, w, k, DayAbbrev(year, month, k));
    }
    DayLabelStartsWithDigit(d, w);
  }

  /** Once every day is filled in, aligning the dict with the header (`df.loc[0] = row`)
      gives the name and then the markers of days 1..N, with no NaN left. */
  lemma FilledRowAligned(row: map<string, Value>, empName: string, year: int, month: int,
                         leaves: seq<int>, holidays: seq<int>)
    requires ValidMonth(month)
    requires NameColumn in row && row[NameColumn] == Str(empName)
    requires Filled(row, year, month, leaves, holidays, DaysInMonth(year, month) + 1)
    ensures var columns := Header(year, month);
      seq(|columns|, i requires 0 <= i < |columns| => Lookup(row, columns[i]))
        == [Str(empName)] + DayCells(year, month, leaves, holidays)
  {
    var columns := Header(year, month);
    var values := seq(|columns|, i requires 0 <= i < |columns| => Lookup(row, columns[i]));
    var expected := [Str(empName)] + DayCells(year, month, leaves, holidays);
    assert |values| == |expected|;
    forall i | 0 <= i < |values|
      ensures values[i] == expected[i]
    {
      if i > 0 {
        assert columns[i] == DayLabel(i, DayAbbrev(year, month, i));
      }
    }
  }

  lemma DayLabelStartsWithDigit(day: nat, abbrev: string)
    ensures IsDigit(DayLabel(day, abbrev)[0])
  {
    assert DayLabel(day, abbrev)[0] == NatToString(day)[0];
  }

  /** Two day labels with three-letter weekday names are equal only for the same day,
      so no two day columns share a name and no dict entry overwrites another. */
  lemma DayLabelInjective(a: nat, wa: string, b: nat, wb: string)
    requires |wa| == 3 && |wb| == 3
    ensures DayLabel(a, wa) == DayLabel(b, wb) ==> a == b
  {
    if DayLabel(a, wa) == DayLabel(b, wb) {
      var s := DayLabel(a, wa);
      assert NatToString(a) == s[..|s| - 4];
      assert NatToString(b) == s[..|s| - 4];
      NatToStringInjective(a, b);
    }
  }

  /** The header has the name column and then one column per day 1..N, in increasing
      day order: every label reads back as its own day number, and all labels differ. */
  lemma HeaderColumns(year: int, month: int)
    requires ValidMonth(month)
    ensures var h := Header(year, month);
      && |h| == DaysInMonth(year, month) + 1
      && h[0] == "Emp Name"
      && (forall d :: 1 <= d < |h| ==>
            && |h[d]| > 4 && IsDigits(h[d][..|h[d]| - 4])
            && DigitsValue(h[d][..|h[d]| - 4]) == d
            && h[d][|h[d]| - 4..] == " " + DayAbbrev(year, month, d))
      && (forall i, j :: 0 <= i < j < |h| ==> h[i] != h[j])
  {
    var h := Header(year, month);
    forall d | 1 <= d < |h|
      ensures |h[d]| > 4 && IsDigits(h[d][..|h[d]| - 4]) && DigitsValue(h[d][..|h[d]| - 4]) == d
      ensures h[d][|h[d]| - 4..] == " " + DayAbbrev(year, month, d)
    {
      HeaderLabel(year, month, d);
    }
    forall i, j | 0 <= i < j < |h|
      ensures h[i] != h[j]
    {
      HeaderDistinct(year, month, i, j);
    }
  }

  /** Column d of the header is day d's number followed by its weekday. */
  lemma HeaderLabel(year: int, month: int, d: int)
    requires ValidMonth(month) && 1 <= d <= DaysInMonth(year, month)
    ensures var l := Header(year, month)[d];
      && |l| > 4 && IsDigits(l[..|l| - 4]) && DigitsValue(l[..|l| - 4]) == d
      && l[|l| - 4..] == " " + DayAbbrev(year, month, d)
  {
    var w := DayAbbrev(year, month, d);
    assert Header(year, month)[d] == DayLabel(d, w);
    DayLabelParts(d, w);
    DigitsValueOfNatToString(d);
  }

  /** A label splits back into the day's digits and the space plus abbreviation. */
  lemma DayLabelParts(day: nat, abbrev: string)
    requires |abbrev| == 3
    ensures var l := DayLabel(day, abbrev);
      && |l| > 4 && l[..|l| - 4] == NatToString(day) && l[|l| - 4..] == " " + abbrev
  {
    var l := DayLabel(day, abbrev);
    assert l == NatToString(day) + (" " + abbrev);
  }

  /** Two header columns at different positions have different names. */
  lemma HeaderDistinct(year: int, month: int, i: int, j: int)
    requires ValidMonth(month) && 0 <= i < j <= DaysInMonth(year, month)
    ensures Header(year, month)[i] != Header(year, month)[j]
  {
    var h := Header(year, month);
    assert h[j] == DayLabel(j, DayAbbrev(year, month, j));
    if i == 0 {
      DayLabelStartsWithDigit(j, DayAbbrev(year, month, j));
    } else {
      assert h[i] == DayLabel(i, DayAbbrev(year, month, i));
      DayLabelInjective(i, DayAbbrev(year, month, i), j, DayAbbrev(year, month, j));
    }
  }


  /** The abbreviation is `Sat` or `Sun` exactly for weekdays 5 and 6. */
  lemma WeekendAbbrev(w: int)
    requires 0 <= w < 7
    ensures IsWeekendAbbrev(Abbreviations[w]) <==> w >= 5
  {
    assert Abbreviations[w][0] == 'S' <==> w >= 5;
  }

  /** A Saturday or Sunday is "WO" whatever the holiday and leave lists hold. */
  lemma WeekendWins(year: int, month: int, leaves: seq<int>, holidays: seq<int>, day: int)
    requires ValidDate(year, month, day) && Weekday(year, month, day) >= 5
    ensures DayCells(year, month, leaves, holidays)[day - 1] == Str("WO")
  {
    WeekendAbbrev(Weekday(year, month, day));
  }

  /** A weekday that is a holiday is "H", even when it is also a leave day. */
  lemma HolidayBeatsLeave(year: int, month: int, leaves: seq<int>, holidays: seq<int>, day: int)
    requires ValidDate(year, month, day) && Weekday(year, month, day) < 5 && day in holidays
    ensures DayCells(year, month, leaves, holidays)[day - 1] == Str("H")
  {
    WeekendAbbrev(Weekday(year, month, day));
  }

  /** A weekday that is a leave day and not a holiday is "L". */
  lemma LeaveOnWeekday(year: int, month: int, leaves: seq<int>, holidays: seq<int>, day: int)
    requires ValidDate(year, month, day) && Weekday(year, month, day) < 5
    requires day !in holidays && day in leaves
    ensures DayCells(year, month, leaves, holidays)[day - 1] == Str("L")
  {
    WeekendAbbrev(Weekday(year, month, day));
  }

  /** A day is worked exactly when it is a weekday in neither list. */
  predicate IsWorkedDay(year: int, month: int, leaves: seq<int>, holidays: seq<int>, day: int)
    requires ValidDate(year, month, day)
  {
    Weekday(year, month, day) < 5 && day !in holidays && day !in leaves
  }

  lemma WorkedExactlyWhenFree(year: int, month: int, leaves: seq<int>, holidays: seq<int>, day: int)
    requires ValidDate(year, month, day)
    ensures DayCells(year, month, leaves, holidays)[day - 1] == Number(1)
      <==> IsWorkedDay(year, month, leaves, holidays, day)
  {
    WeekendAbbrev(Weekday(year, month, day));
  }

  /** Every day cell holds exactly one of the four markers. */
  predicate IsMarker(v: Value) {
    v == Str("WO") || v == Str("H") || v == Str("L") || v == Number(1)
  }

  lemma EveryDayMarked(year: int, month: int, leaves: seq<int>, holidays: seq<int>)
    requires ValidMonth(month)
    ensures forall i :: 0 <= i < DaysInMonth(year, month) ==> IsMarker(DayCells(year, month, leaves, holidays)[i])
  {
  }

  /** The values of a list that fall in 1..n, in order. */
  function WithinMonth(xs: seq<int>, n: int): (r: seq<int>)
    ensures forall k :: 0 <= k < |r| ==> 1 <= r[k] <= n
  {
    if xs == [] then []
    else (if 1 <= xs[0] <= n then [xs[0]] else []) + WithinMonth(xs[1..], n)
  }

  lemma {:induction false} WithinMonthMembers(xs: seq<int>, n: int, d: int)
    requires 1 <= d <= n
    ensures d in WithinMonth(xs, n) <==> d in xs
  {
    if xs != [] {
      WithinMonthMembers(xs[1..], n, d);
      assert xs == [xs[0]] + xs[1..];
    }
  }

  /** Listed days outside 1..N change no cell (and raise nothing). */
  lemma OutOfMonthDaysIgnored(year: int, month: int, leaves: seq<int>, holidays: seq<int>)
    requires ValidMonth(month)
    ensures var n := DaysInMonth(year, month);
      DayCells(year, month, leaves, holidays)
        == DayCells(year, month, WithinMonth(leaves, n), WithinMonth(holidays, n))
  {
    var n := DaysInMonth(year, month);
    forall d | 1 <= d <= n
      ensures (d in leaves <==> d in WithinMonth(leaves, n)) && (d in holidays <==> d in WithinMonth(holidays, n))
    {
      WithinMonthMembers(leaves, n, d);
      WithinMonthMembers(holidays, n, d);
    }
  }

  /** The number of cells equal to v. */
  function Count(values: seq<Value>, v: Value): (n: nat)
    ensures n <= |values|
  {
    if values == [] then 0
    else Count(values[..|values| - 1], v) + if values[|values| - 1] == v then 1 else 0
  }

  /** `worked_days` (Timesheet.py:119): the cells of row 0 after the name column equal to 1. */
  function WorkedDays(row: seq<Value>): nat {
    if row == [] then 0 else Count(row[1..], Number(1))
  }

  lemma {:induction false} CountPartition(values: seq<Value>)
    requires forall i :: 0 <= i < |values| ==> IsMarker(values[i])
    ensures Count(values, Number(1)) + Count(values, Str("WO")) + Count(values, Str("H"))
      + Count(values, Str("L")) == |values|
  {
    if values != [] {
      CountPartition(values[..|values| - 1]);
    }
  }

  /** Worked, weekend, holiday and leave days add up to the month length,
      so `worked_days` never exceeds it. */
  lemma MarkersAddUp(year: int, month: int, leaves: seq<int>, holidays: seq<int>)
    requires ValidMonth(month)
    ensures var cells := DayCells(year, month, leaves, holidays);
      && Count(cells, Number(1)) + Count(cells, Str("WO")) + Count(cells, Str("H")) + Count(cells, Str("L"))
         == DaysInMonth(year, month)
      && Count(cells, Number(1)) <= DaysInMonth(year, month)
  {
    EveryDayMarked(year, month, leaves, holidays);
    CountPartition(DayCells(year, month, leaves, holidays));
  }

  /** The count of a non-empty sequence is that of all but its last element, plus that element's share. */
  lemma CountLast(values: seq<Value>, v: Value)
    requires values != []
    ensures Count(values, v) == Count(values[..|values| - 1], v) + if values[|values| - 1] == v then 1 else 0
  {
  }

  /** The worked days among days 1..k. */
  ghost function WorkedSet(year: int, month: int, leaves: seq<int>, holidays: seq<int>, k: int): set<int>
    requires ValidMonth(month) && k <= DaysInMonth(year, month)
  {
    set d | 1 <= d <= k && IsWorkedDay(year, month, leaves, holidays, d)
  }

  lemma CountWorkedPrefix(year: int, month: int, leaves: seq<int>, holidays: seq<int>, k: nat)
    requires ValidMonth(month) && k <= DaysInMonth(year, month)
    ensures Count(DayCells(year, month, leaves, holidays)[..k], Number(1))
      == |WorkedSet(year, month, leaves, holidays, k)|
  {
    var cells := DayCells(year, month, leaves, holidays);
    var worked := WorkedSet(year, month, leaves, holidays, |cells|);
    forall i | 0 <= i < |cells|
      ensures cells[i] == Number(1) <==> i + 1 in worked
    {
      WorkedExactlyWhenFree(year, month, leaves, holidays, i + 1);
    }
    CountOnes(cells, worked, k);
    assert UpTo(worked, k) == WorkedSet(year, month, leaves, holidays, k);
  }

  /** The members of a set of days that are at most k. */
  ghost function UpTo(days: set<int>, k: int): set<int> {
    set d | d in days && 1 <= d <= k
  }

  /** When the 1s of a row sit exactly at the days of a set, the 1s among days
      1..k are as many as the members of the set up to k. */
  lemma {:induction false} CountOnes(cells: seq<Value>, worked: set<int>, k: nat)
    requires k <= |cells|
    requires forall i :: 0 <= i < |cells| ==> (cells[i] == Number(1) <==> i + 1 in worked)
    ensures Count(cells[..k], Number(1)) == |UpTo(worked, k)|
  {
    if k > 0 {
      CountOnes(cells, worked, k - 1);
      var prefix := cells[..k];
      assert prefix[..k - 1] == cells[..k - 1];
      assert prefix[k - 1] == cells[k - 1];
      assert cells[k - 1] == Number(1) <==> k in worked;
      CountLast(prefix, Number(1));
      var before := UpTo(worked, k - 1);
      if k in worked {
        assert UpTo(worked, k) == before + {k};
        assert k !in before;
        assert |before + {k}| == |before| + 1;
      } else {
        assert UpTo(worked, k) == before;
      }
    } else {
      assert UpTo(worked, k) == {};
    }
  }

  /** `worked_days` of a generated timesheet is the number of weekdays of the month
      that are neither holidays nor leave days. */
  lemma WorkedDaysOfTimesheet(empName: string, year: int, month: int, leaves: seq<int>, holidays: seq<int>)
    requires ValidMonth(month)
    ensures WorkedDays([Str(empName)] + DayCells(year, month, leaves, holidays))
      == |WorkedSet(year, month, leaves, holidays, DaysInMonth(year, month))|
  {
    var cells := DayCells(year, month, leaves, holidays);
    assert ([Str(empName)] + cells)[1..] == cells[..DaysInMonth(year, month)];
    CountWorkedPrefix(year, month, leaves, holidays, DaysInMonth(year, month));
  }
}
