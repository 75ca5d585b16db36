/** The date handling of the advanced search form
    (search/controllers/advanced/forms.py): `MultiFormatDateField`, which
    tries its formats in order and can round a partial date up to the end
    of its period, the `yearInBounds` validator and `DateForm`'s check of
    the filter choice. `strptime` and `strftime` are modelled for the three
    formats the form uses, over ASCII digits. The current date is passed in. */
module AdvancedForms {
  import opened Wrappers
  import opened Strings

  datatype Date = Date(year: int, month: int, day: int)

  /** Date order, as Python compares `date`s. */
  predicate Before(a: Date, b: Date)
  {
    a.year < b.year || (a.year == b.year && (a.month < b.month || (a.month == b.month && a.day < b.day)))
  }

  predicate IsLeap(year: int)
  {
    year % 4 == 0 && (year % 100 != 0 || year % 400 == 0)
  }

  /** `calendar.monthrange(year, month)[1]`. */
  function DaysInMonth(year: int, month: int): (n: int)
    requires 1 <= month <= 12
    ensures 28 <= n <= 31
  {
    if month == 2 then (if IsLeap(year) then 29 else 28)
    else if month == 4 || month == 6 || month == 9 || month == 11 then 30
    else 31
  }

  /** The dates `datetime.date` can represent. */
  predicate ValidDate(d: Date)
  {
    1 <= d.year <= 9999 && 1 <= d.month <= 12 && 1 <= d.day <= DaysInMonth(d.year, d.month)
  }

  /** The formats the date fields use: `%Y-%m-%d`, `%Y-%m` and `%Y`. */
  datatype Format = YearMonthDay | YearMonth | Year

  function FormatText(f: Format): string
  {
    match f
    case YearMonthDay => "%Y-%m-%d"
    case YearMonth => "%Y-%m"
    case Year => "%Y"
  }

  /** `re.search(r"%[Bbm]", fmt)`. */
  predicate HasMonth(f: Format)
  {
    f != Year
  }

  /** `re.search("%d", fmt)`. */
  predicate HasDay(f: Format)
  {
    f == YearMonthDay
  }

  function DigitAt(s: string, i: nat): int
    requires i < |s|
  {
    s[i] as int - '0' as int
  }

  /** `%Y` in `strptime`: exactly four digits. */
  function YearAt(s: string): (r: Option<int>)
    ensures r.Some? ==> 0 <= r.value <= 9999 && |s| >= 4
  {
    if |s| >= 4 && IsDigit(s[0]) && IsDigit(s[1]) && IsDigit(s[2]) && IsDigit(s[3]) then
      Some(1000 * DigitAt(s, 0) + 100 * DigitAt(s, 1) + 10 * DigitAt(s, 2) + DigitAt(s, 3))
    else None
  }

  /** `%m` in `strptime`: the first of `1[0-2]`, `0[1-9]`, `[1-9]` that
      matches at `i`, with the month and the offset after it. */
  function MonthAt(s: string, i: nat): (r: Option<(int, nat)>)
    ensures r.Some? ==> 1 <= r.value.0 <= 12 && i < r.value.1 <= |s|
  {
    if i + 1 < |s| && s[i] == '1' && '0' <= s[i + 1] <= '2' then Some((10 + DigitAt(s, i + 1), i + 2))
    else if i + 1 < |s| && s[i] == '0' && '1' <= s[i + 1] <= '9' then Some((DigitAt(s, i + 1), i + 2))
    else if i < |s| && '1' <= s[i] <= '9' then Some((DigitAt(s, i), i + 1))
    else None
  }

  /** `%d` in `strptime`: the first of `3[01]`, `[12]\d`, `0[1-9]`,
      `[1-9]`, ` [1-9]` that matches at `i`. */
  function DayAt(s: string, i: nat): (r: Option<(int, nat)>)
    ensures r.Some? ==> 1 <= r.value.0 <= 31 && i < r.value.1 <= |s|
  {
    if i + 1 < |s| && s[i] == '3' && '0' <= s[i + 1] <= '1' then Some((30 + DigitAt(s, i + 1), i + 2))
    else if i + 1 < |s| && '1' <= s[i] <= '2' && IsDigit(s[i + 1]) then Some((10 * DigitAt(s, i) + DigitAt(s, i + 1), i + 2))
    else if i + 1 < |s| && s[i] == '0' && '1' <= s[i + 1] <= '9' then Some((DigitAt(s, i + 1), i + 2))
    else if i < |s| && '1' <= s[i] <= '9' then Some((DigitAt(s, i), i + 1))
    else if i + 1 < |s| && s[i] == ' ' && '1' <= s[i + 1] <= '9' then Some((DigitAt(s, i + 1), i + 2))
    else None
  }

  /** `datetime.strptime(s, fmt).date()`: the format's fields must match
      and leave nothing unconverted, missing fields default to 1, and the
      result must be a real date. */
  function Strptime(s: string, f: Format): (r: Option<Date>)
    ensures r.Some? ==> ValidDate(r.value)
    ensures r.Some? && !HasMonth(f) ==> r.value.month == 1 && r.value.day == 1
    ensures r.Some? && !HasDay(f) ==> r.value.day == 1
  {
    match YearAt(s)
    case None => None
    case Some(y) =>
      var parsed :=
        match f
        case Year => if |s| == 4 then Some(Date(y, 1, 1)) else None
        case YearMonth =>
          if |s| > 4 && s[4] == '-' then
            match MonthAt(s, 5)
            case Some((m, j)) => if j == |s| then Some(Date(y, m, 1)) else None
            case None => None
          else None
        case YearMonthDay =>
          if |s| > 4 && s[4] == '-' then
            match MonthAt(s, 5)
            case Some((m, j)) =>
              if j < |s| && s[j] == '-' then
                match DayAt(s, j + 1)
                case Some((d, k)) => if k == |s| then Some(Date(y, m, d)) else None
                case None => None
              else None
            case None => None
          else None;
      if parsed.Some? && ValidDate(parsed.value) then parsed else None
  }

  function DigitChar(n: int): char
    requires 0 <= n <= 9
  {
    ('0' as int + n) as char
  }

  function Pad2(n: int): string
    requires 0 <= n <= 99
  {
    [DigitChar(n / 10), DigitChar(n % 10)]
  }

  function Pad4(n: int): string
    requires 0 <= n <= 9999
  {
    Pad2(n / 100) + Pad2(n % 100)
  }

  /** `date.strftime(fmt)`, zero-padded. */
  function Strftime(d: Date, f: Format): string
    requires ValidDate(d)
  {
    match f
    case Year => Pad4(d.year)
    case YearMonth => Pad4(d.year) + "-" + Pad2(d.month)
    case YearMonthDay => Pad4(d.year) + "-" + Pad2(d.month) + "-" + Pad2(d.day)
  }

  /** The part of a date a format keeps, missing fields set to 1. */
  function Truncated(d: Date, f: Format): Date
  {
    match f
    case Year => Date(d.year, 1, 1)
    case YearMonth => Date(d.year, d.month, 1)
    case YearMonthDay => d
  }

  /** Rendering a date and parsing it back with the same format gives the
      date, cut to the fields the format keeps. */
  lemma StrptimeStrftime(d: Date, f: Format)
    requires ValidDate(d)
    ensures Strptime(Strftime(d, f), f) == Some(Truncated(d, f))
  {
    var s := Strftime(d, f);
    YearAtPad4(s, d.year);
    if f == YearMonth {
      assert s == Pad4(d.year) + "-" + Pad2(d.month);
      assert s[4] == '-' && |s| == 7;
      MonthAtPad2(s, 5, d.month);
    } else if f == YearMonthDay {
      assert s == Pad4(d.year) + "-" + Pad2(d.month) + "-" + Pad2(d.day);
      assert s[4] == '-' && s[7] == '-' && |s| == 10;
      MonthAtPad2(s, 5, d.month);
      DayAtPad2(s, 8, d.day);
    }
  }

  lemma YearAtPad4(s: string, year: int)
    requires 0 <= year <= 9999 && |s| >= 4 && s[..4] == Pad4(year)
    ensures YearAt(s) == Some(year)
  {
    var hi, lo := year / 100, year % 100;
    assert s[..4] == Pad2(hi) + Pad2(lo);
    assert s[0] == DigitChar(hi / 10) && s[1] == DigitChar(hi % 10);
    assert s[2] == DigitChar(lo / 10) && s[3] == DigitChar(lo % 10);
    assert 10 * (hi / 10) + hi % 10 == hi;
    assert 10 * (lo / 10) + lo % 10 == lo;
    assert 100 * hi + lo == year;
  }

  lemma MonthAtPad2(s: string, i: nat, month: int)
    requires 1 <= month <= 12 && i + 2 <= |s| && s[i..i + 2] == Pad2(month)
    ensures MonthAt(s, i) == Some((month, i + 2))
  {
    assert s[i] == Pad2(month)[0] && s[i + 1] == Pad2(month)[1];
  }

  lemma DayAtPad2(s: string, i: nat, day: int)
    requires 1 <= day <= 31 && i + 2 <= |s| && s[i..i + 2] == Pad2(day)
    ensures DayAt(s, i) == Some((day, i + 2))
  {
    assert s[i] == Pad2(day)[0] && s[i + 1] == Pad2(day)[1];
  }

  /** The rounding up of `default_upper_bound`: without a month, the last
      day of the year; with a month but no day, the last day of the month. */
  function UpperBound(d: Date, f: Format): (r: Date)
    requires ValidDate(d)
    ensures ValidDate(r)
  {
    if !HasMonth(f) then Date(d.year, 12, 31)
    else if !HasDay(f) then Date(d.year, d.month, DaysInMonth(d.year, d.month))
    else d
  }

  /** The rounded date is the last date of the period the format names:
      every date of that period is on or before it. */
  lemma UpperBoundIsLast(d: Date, f: Format, e: Date)
    requires ValidDate(d) && ValidDate(e)
    requires e.year == d.year
    requires HasMonth(f) ==> e.month == d.month
    requires HasDay(f) ==> e.day == d.day
    ensures !Before(UpperBound(d, f), e)
  {
  }

  /** The first format that parses the text, with the date it gives. */
  function FirstParse(s: string, formats: seq<Format>): (r: Option<(Date, Format)>)
    ensures r.Some? ==> r.value.1 in formats && Strptime(s, r.value.1) == Some(r.value.0)
    ensures r.None? <==> forall i :: 0 <= i < |formats| ==> Strptime(s, formats[i]).None?
  {
    if formats == [] then None
    else
      match Strptime(s, formats[0])
      case Some(d) => Some((d, formats[0]))
      case None =>
        var rest := FirstParse(s, formats[1..]);
        assert forall i :: 1 <= i < |formats| ==> formats[i] == formats[1..][i - 1];
        rest
  }

  /** The date a field keeps for a parse: rounded up when the field asks. */
  function Adjusted(p: (Date, Format), upper: bool): Date
    requires ValidDate(p.0)
  {
    if upper then UpperBound(p.0, p.1) else p.0
  }

  const NOT_A_VALID_DATE: string := "Not a valid date value"

  /** `MultiFormatDateField`: a date field that accepts several formats. */
  class MultiFormatDateField {
    var data: Option<Date>
    var rawData: seq<string>
    const formats: seq<Format>
    const defaultUpperBound: bool

    constructor (formats: seq<Format>, defaultUpperBound: bool)
      requires formats != []
      ensures this.formats == formats && this.defaultUpperBound == defaultUpperBound
      ensures data.None? && rawData == []
    {
      this.formats := formats;
      this.defaultUpperBound := defaultUpperBound;
      data := None;
      rawData := [];
    }

    /** `process` with form data: the raw values are kept, then
        `process_formdata` tries each format in order on the values joined
        by spaces; the first that parses gives the data, rounded up when
        the field asks. When none parses the data is cleared and `Not a
        valid date value` is raised. Without values nothing is parsed. */
    method Process(valuelist: seq<string>) returns (error: Option<string>)
      modifies this
      ensures rawData == valuelist
      ensures valuelist == [] ==> error.None? && data == old(data)
      ensures valuelist != [] ==>
                match FirstParse(Join(" ", valuelist), formats)
                case None => error == Some(NOT_A_VALID_DATE) && data.None?
                case Some(p) => error.None? && data == Some(Adjusted(p, defaultUpperBound))
    {
      rawData := valuelist;
      error := None;
      if valuelist == [] {
        return;
      }
      var dateStr := Join(" ", valuelist);
      ghost var untried := formats;
      for i := 0 to |formats|
        invariant rawData == valuelist
        invariant untried == formats[i..]
        invariant FirstParse(dateStr, untried) == FirstParse(dateStr, formats)
      {
        var parsed := Strptime(dateStr, formats[i]);
        assert untried[0] == formats[i] && untried[1..] == formats[i + 1..];
        if parsed.Some? {
          var adjusted := parsed.value;
          if defaultUpperBound {
            if !HasMonth(formats[i]) {
              adjusted := Date(adjusted.year, 12, 31);
            } else if !HasDay(formats[i]) {
              adjusted := Date(adjusted.year, adjusted.month, DaysInMonth(adjusted.year, adjusted.month));
            }
          }
          data := Some(adjusted);
          return;
        }
        untried := formats[i + 1..];
      }
      data := None;
      error := Some(NOT_A_VALID_DATE);
    }

    /** `_value`: the raw values joined by spaces when there are any, else
        the data in the first format, else empty. */
    function Value(): (r: string)
      reads this
      requires formats != []
      requires data.Some? ==> ValidDate(data.value)
      ensures rawData != [] ==> r == Join(" ", rawData)
      ensures rawData == [] && data.None? ==> r == ""
      ensures rawData == [] && data.Some? ==> Strptime(r, formats[0]) == Some(Truncated(data.value, formats[0]))
    {
      if rawData != [] then Join(" ", rawData)
      else if data.Some? then
        StrptimeStrftime(data.value, formats[0]);
        Strftime(data.value, formats[0])
      else ""
    }
  }

  /** What a field holding a parsed date shows is what it was given. */
  method ShowsWhatItWasGiven(valuelist: seq<string>) returns (shown: string)
    requires valuelist != []
    ensures shown == Join(" ", valuelist)
  {
    var field := new MultiFormatDateField([YearMonthDay, YearMonth, Year], true);
    var _ := field.Process(valuelist);
    shown := field.Value();
  }

  // ---------------------------------------------------------------------
  // yearInBounds

  const START_OF_TIME: Date := Date(1991, 1, 1)
  const NOT_A_VALID_YEAR: string := "Not a valid publication year"
  const DAY_OUT_OF_RANGE: string := "day is out of range for month"

  /** `date.replace(year=year)`: the `ValueError` for 29 February in a
      year that is not a leap year. */
  function ReplaceYear(d: Date, year: int): (r: Result<Date, string>)
    requires ValidDate(d) && 1 <= year <= 9999
    ensures r.Ok? ==> ValidDate(r.value) && r.value == Date(year, d.month, d.day)
    ensures r.Err? <==> d.month == 2 && d.day == 29 && !IsLeap(year)
  {
    if d.month == 2 && d.day == 29 && !IsLeap(year) then Err(DAY_OUT_OF_RANGE)
    else Ok(Date(year, d.month, d.day))
  }

  /** `yearInBounds` as written: no date passes; otherwise the upper limit
      is today's date a year on, and a date before 1991-01-01 or after that
      limit is rejected. On 29 February the limit cannot be built: the
      `ValueError` of `replace` becomes the field's error for every date. */
  function YearInBoundsAsWritten(data: Option<Date>, today: Date): (r: Option<string>)
    requires ValidDate(today) && today.year < 9999
  {
    if data.None? then None
    else
      match ReplaceYear(today, today.year + 1)
      case Err(e) => Some(e)
      case Ok(upper) =>
        if Before(data.value, START_OF_TIME) || Before(upper, data.value) then Some(NOT_A_VALID_YEAR) else None
  }

  /** The upper limit meant: today's date a year on, 28 February when
      today is 29 February. */
  function UpperLimit(today: Date): (r: Date)
    requires ValidDate(today) && today.year < 9999
    ensures ValidDate(r) && r.year == today.year + 1
    ensures ReplaceYear(today, today.year + 1).Ok? ==> r == ReplaceYear(today, today.year + 1).value
  {
    if today.month == 2 && today.day == 29 && !IsLeap(today.year + 1) then Date(today.year + 1, 2, 28)
    else Date(today.year + 1, today.month, today.day)
  }

  /** `yearInBounds`, with the limit a year on from any day. */
  function YearInBounds(data: Option<Date>, today: Date): (r: Option<string>)
    requires ValidDate(today) && today.year < 9999
    ensures r.None? <==> data.None? || (!Before(data.value, START_OF_TIME) && !Before(UpperLimit(today), data.value))
    ensures r.Some? ==> r.value == NOT_A_VALID_YEAR
    ensures ReplaceYear(today, today.year + 1).Ok? ==> r == YearInBoundsAsWritten(data, today)
  {
    if data.None? then None
    else if Before(data.value, START_OF_TIME) || Before(UpperLimit(today), data.value) then Some(NOT_A_VALID_YEAR)
    else None
  }

  /** On 29 February the validator as written rejects even a date well
      inside the bounds, which the corrected validator accepts. */
  lemma LeapDayRejectsEveryDate()
    ensures YearInBoundsAsWritten(Some(Date(2000, 6, 1)), Date(2024, 2, 29)) == Some(DAY_OUT_OF_RANGE)
    ensures YearInBounds(Some(Date(2000, 6, 1)), Date(2024, 2, 29)).None?
  {
    assert ReplaceYear(Date(2024, 2, 29), 2025).Err?;
  }

  /** No date before 1991 passes, whatever the day. */
  lemma NothingBefore1991(d: Date, today: Date)
    requires ValidDate(today) && today.year < 9999
    requires d.year < 1991
    ensures YearInBounds(Some(d), today) == Some(NOT_A_VALID_YEAR)
    ensures YearInBoundsAsWritten(Some(d), today).Some?
  {
  }

  // ---------------------------------------------------------------------
  // DateForm.validate_filter_by

  const SELECT_YEAR: string := "Please select a year"
  const SELECT_DATES: string := "Must select start and/or end date(s)"
  const END_AFTER_START: string := "End date must be later than start date"

  /** `validate_filter_by`: a specific year needs a year; a date range
      needs a bound, and with both bounds the start must come first. */
  function ValidateFilterBy(filterBy: string, year: Option<Date>, fromDate: Option<Date>, toDate: Option<Date>): (r: Option<string>)
    ensures r == Some(SELECT_YEAR) <==> filterBy == "specific_year" && year.None?
    ensures r == Some(SELECT_DATES) <==> filterBy == "date_range" && fromDate.None? && toDate.None?
    ensures r == Some(END_AFTER_START) <==>
              filterBy == "date_range" && fromDate.Some? && toDate.Some? && !Before(fromDate.value, toDate.value)
    ensures filterBy != "specific_year" && filterBy != "date_range" ==> r.None?
    ensures r.None? || r == Some(SELECT_YEAR) || r == Some(SELECT_DATES) || r == Some(END_AFTER_START)
  {
    if filterBy == "specific_year" && year.None? then Some(SELECT_YEAR)
    else if filterBy == "date_range" then
      if fromDate.None? && toDate.None? then Some(SELECT_DATES)
      else if fromDate.Some? && toDate.Some? && !Before(fromDate.value, toDate.value) then Some(END_AFTER_START)
      else None
    else None
  }

  /** A date range passes exactly when it has a bound and its bounds, if
      both are given, are in order. */
  lemma DateRangeAccepted(fromDate: Option<Date>, toDate: Option<Date>, year: Option<Date>)
    ensures ValidateFilterBy("date_range", year, fromDate, toDate).None? <==>
              (fromDate.Some? || toDate.Some?) && (fromDate.Some? && toDate.Some? ==> Before(fromDate.value, toDate.value))
  {
  }
}
