/**
 * `parseDate` and `parseEmployeeData`: tab-separated rows pasted from a
 * spreadsheet, one header line, dates written day/month/year.
 *
 * A JavaScript invalid date is `None`.  Column indices are those of the
 * source: 0 id, 1 hire date, 2 termination date, 6 name, 7 daily salary,
 * 8 RFC, 9 position, 10 location, 13 overtime, 18 pending vacation days.
 */
module EmployeeParser {
  import opened Wrappers
  import opened Numbers
  import opened Text
  import opened Calendar
  import opened Types

  /** ToIntegerOrInfinity on a finite number, as the `Date` constructor applies it: truncation toward zero. */
  function Truncate(x: real): (n: int)
    ensures x >= 0.0 ==> n == x.Floor
    ensures x <= 0.0 ==> n == -((-x).Floor)
    ensures -1.0 < x < 1.0 ==> n == 0
  {
    if x >= 0.0 then x.Floor else -((-x).Floor)
  }

  /**
   * `parseDate`: exactly three '/'-separated fields read with `Number`, a day
   * in (0, 31], a month in (0, 12] and a year above 1900, then
   * `new Date(year, month - 1, day)`, which truncates each argument and rolls
   * a day beyond the end of the month into the next month.
   */
  function ParseDate(s: string): (r: Option<Date>)
    ensures r.Some? ==> ValidDate(r.value)
    ensures s == [] || |Split(s, '/')| != 3 ==> r.None?
  {
    if s == [] then None
    else
      var parts := Split(s, '/');
      if |parts| != 3 then None
      else DateOfNumbers(ToNumber(parts[0]), ToNumber(parts[1]), ToNumber(parts[2]))
  }

  /** The range checks of `parseDate` on the three numbers, then `new Date(year, month - 1, day)`. */
  function DateOfNumbers(day: Number, month: Number, year: Number): (r: Option<Date>)
    ensures r.Some? ==> ValidDate(r.value)
    ensures day.NaN? || month.NaN? || year.NaN? ==> r.None?
  {
    match (day, month, year)
    case (Num(d), Num(m), Num(y)) =>
      if 0.0 < d <= 31.0 && 0.0 < m <= 12.0 && y > 1900.0 then
        Some(MakeDate(Truncate(y), Truncate(m - 1.0) + 1, Truncate(d)))
      else None
    case _ => None
  }

  /** Whole numbers are accepted exactly for day 1..31, month 1..12 and a year after 1900. */
  lemma DateOfWholeNumbers(day: int, month: int, year: int)
    ensures DateOfNumbers(Num(day as real), Num(month as real), Num(year as real))
            == if 1 <= day <= 31 && 1 <= month <= 12 && year > 1900 then Some(MakeDate(year, month, day)) else None
  {
    assert Truncate(day as real) == day;
    assert Truncate(year as real) == year;
    assert Truncate(month as real - 1.0) == month - 1 by {
      assert (month - 1) as real == month as real - 1.0;
    }
  }

  /** Day, month and year as decimal digits separated by '/'. */
  function DateText(dd: string, mm: string, yyyy: string): string
  {
    dd + "/" + mm + "/" + yyyy
  }

  /** Digits contain no separator, comma or white space. */
  lemma DigitsExclude(ds: string, c: char)
    requires AllDigits(ds) && !IsDigit(c)
    ensures c !in ds
  {
  }

  lemma SplitDateText(dd: string, mm: string, yyyy: string)
    requires '/' !in dd && '/' !in mm && '/' !in yyyy
    ensures Split(DateText(dd, mm, yyyy), '/') == [dd, mm, yyyy]
  {
    assert DateText(dd, mm, yyyy) == dd + ['/'] + (mm + ['/'] + yyyy);
    SplitLeadingPiece(dd, mm + ['/'] + yyyy, '/');
    SplitLeadingPiece(mm, yyyy, '/');
    SplitNoSeparator(yyyy, '/');
  }

  /**
   * Digit fields, leading zeros or not, are accepted exactly when the day is
   * 1..31, the month 1..12 and the year after 1900, and then give
   * `new Date(year, month - 1, day)`: a day past the end of the month rolls over.
   */
  lemma ParseDigitDate(dd: string, mm: string, yyyy: string)
    requires dd != [] && mm != [] && yyyy != [] && AllDigits(dd) && AllDigits(mm) && AllDigits(yyyy)
    ensures var day, month, year := DigitsValue(dd), DigitsValue(mm), DigitsValue(yyyy);
      ParseDate(DateText(dd, mm, yyyy))
      == if 1 <= day <= 31 && 1 <= month <= 12 && year > 1900 then Some(MakeDate(year, month, day)) else None
  {
    DigitsExclude(dd, '/');
    DigitsExclude(mm, '/');
    DigitsExclude(yyyy, '/');
    SplitDateText(dd, mm, yyyy);
    ToNumberOfDigits(dd);
    ToNumberOfDigits(mm);
    ToNumberOfDigits(yyyy);
    DateOfWholeNumbers(DigitsValue(dd), DigitsValue(mm), DigitsValue(yyyy));
  }

  /** A valid date after 1900 written as day/month/year parses back to itself. */
  lemma ParseFormattedDate(d: Date)
    requires ValidDate(d) && d.year > 1900
    ensures ParseDate(DateText(NatToDigits(d.day), NatToDigits(d.month), NatToDigits(d.year))) == Some(d)
  {
    ParseDigitDate(NatToDigits(d.day), NatToDigits(d.month), NatToDigits(d.year));
  }

  /** A day beyond the end of the month rolls over: 31/02/2023 is 3 March 2023. */
  lemma ParseDateRollsOver(dd: string, mm: string, yyyy: string)
    requires dd == "31" && mm == "02" && yyyy == "2023"
    ensures ParseDate(DateText(dd, mm, yyyy)) == Some(Date(2023, 3, 3))
  {
    assert DigitsValue(dd) == 31 by {
      assert dd == "3" + ['1'];
      DigitsValueSnoc("3", '1');
    }
    assert DigitsValue(mm) == 2 by {
      assert mm == "0" + ['2'];
      DigitsValueSnoc("0", '2');
    }
    assert DigitsValue(yyyy) == 2023 by {
      assert yyyy == "202" + ['3'] && "202" == "20" + ['2'] && "20" == "2" + ['0'];
      DigitsValueSnoc("2", '0');
      DigitsValueSnoc("20", '2');
      DigitsValueSnoc("202", '3');
    }
    assert MakeDate(2023, 2, 31) == Date(2023, 3, 3);
    ParseDigitDate(dd, mm, yyyy);
  }

  /** `s || fallback` on a string. */
  function IfEmpty(s: string, fallback: string): (r: string)
    ensures r != [] <==> s != [] || fallback != []
  {
    if s == [] then fallback else s
  }

  /** `columns[j]?.trim()`, with a missing column read as the empty string. */
  function TrimmedColumn(columns: seq<string>, j: nat): string
  {
    if j < |columns| then Trim(columns[j]) else ""
  }

  /**
   * One row of `parseEmployeeData`: at least 11 tab-separated columns, both
   * dates valid and a positive daily salary.
   */
  function ParseRow(row: string): (r: Option<EmployeeData>)
    ensures |Split(row, '\t')| < 11 ==> r.None?
    ensures r.Some? ==> ValidDate(r.value.hireDate) && ValidDate(r.value.terminationDate)
    ensures r.Some? ==> r.value.dailySalary > 0.0
    ensures r.Some? ==> FieldsFromColumns(Split(row, '\t'), r.value)
  {
    RowFromColumns(Split(row, '\t'))
  }

  /**
   * The columns of a row: the daily salary with its commas removed must be a
   * positive number; overtime (commas removed) and pending vacation days
   * default to 0 when missing, empty or not a number.
   */
  function RowFromColumns(columns: seq<string>): (r: Option<EmployeeData>)
    ensures |columns| < 11 ==> r.None?
    ensures r.Some? ==> ValidDate(r.value.hireDate) && ValidDate(r.value.terminationDate)
    ensures r.Some? ==> r.value.dailySalary > 0.0
    ensures |columns| >= 11 ==>
              (r.Some? <==> ParseDate(columns[1]).Some? && ParseDate(columns[2]).Some?
                            && SalaryField(columns).Num? && SalaryField(columns).value > 0.0)
    ensures r.Some? ==> r.value.overtime == ExtraField(columns, 13, true) && r.value.vacAnt == ExtraField(columns, 18, false)
    ensures r.Some? ==> FieldsFromColumns(columns, r.value)
  {
    if |columns| < 11 then None
    else
      var hireDate := ParseDate(columns[1]);
      var terminationDate := ParseDate(columns[2]);
      var dailySalary := SalaryField(columns);
      if hireDate.Some? && terminationDate.Some? && dailySalary.Num? && dailySalary.value > 0.0 then
        Some(EmployeeData(
          Trim(columns[0]), terminationDate.value, hireDate.value, Trim(columns[6]),
          Trim(columns[8]), Trim(columns[9]), Trim(columns[10]),
          dailySalary.value, ExtraField(columns, 18, false), ExtraField(columns, 13, true)))
      else None
  }

  /**
   * Each field of a record comes from its own column: the id from column 0,
   * the hire date from 1, the termination date from 2, the name from 6, the
   * salary from 7, RFC, position and location from 8 to 10, overtime from 13
   * and pending vacation days from 18.
   */
  predicate FieldsFromColumns(columns: seq<string>, e: EmployeeData)
  {
    |columns| >= 11
    && e.id == Trim(columns[0])
    && ParseDate(columns[1]) == Some(e.hireDate) && ParseDate(columns[2]) == Some(e.terminationDate)
    && e.fullName == Trim(columns[6]) && SalaryField(columns) == Num(e.dailySalary)
    && e.rfc == Trim(columns[8]) && e.position == Trim(columns[9]) && e.location == Trim(columns[10])
    && e.overtime == ExtraField(columns, 13, true) && e.vacAnt == ExtraField(columns, 18, false)
  }

  /** `parseFloat('0')` is 0: the fallback text of a missing or empty extra column. */
  lemma ParseFloatOfZeroText()
    ensures ParseFloat("0") == Num(0.0)
  {
    ParseFloatOfDigits("0");
    assert DigitsValue("0") == 10 * DigitsValue([]) + DigitValue('0');
  }

  /** `parseFloat(columns[j]?.trim() || '0')` (commas removed first for overtime), with NaN read as 0. */
  function ExtraField(columns: seq<string>, j: nat, dropCommas: bool): real
  {
    var text := TrimmedColumn(columns, j);
    OrZero(ParseFloat(IfEmpty(if dropCommas then RemoveAll(text, ',') else text, "0")))
  }

  /** A column the row is too short to hold reads as 0. */
  lemma MissingExtraIsZero(columns: seq<string>, j: nat, dropCommas: bool)
    requires |columns| <= j
    ensures ExtraField(columns, j, dropCommas) == 0.0
  {
    ParseFloatOfZeroText();
  }

  /** A column that is empty or does not start with a number reads as 0 instead of rejecting the row. */
  lemma UnparseableExtraIsZero(columns: seq<string>, j: nat, dropCommas: bool)
    requires j < |columns|
    requires ParseFloat(if dropCommas then RemoveAll(Trim(columns[j]), ',') else Trim(columns[j])).NaN?
    ensures ExtraField(columns, j, dropCommas) == 0.0
  {
    var text := if dropCommas then RemoveAll(Trim(columns[j]), ',') else Trim(columns[j]);
    if text == [] {
      ParseFloatOfZeroText();
    }
  }

  /** The daily salary column, trimmed and with its thousands separators removed. */
  function SalaryField(columns: seq<string>): Number
    requires |columns| > 7
  {
    ParseFloat(RemoveAll(Trim(columns[7]), ','))
  }

  /** A field that parses back as itself: no newline and no surrounding white space. */
  predicate PlainField(s: string)
  {
    '\n' !in s && Trim(s) == s
  }

  /** An amount column written as decimal text reads as the amount it denotes. */
  lemma ExtraFieldOfDecimal(columns: seq<string>, j: nat, dropCommas: bool, whole: nat, frac: string)
    requires AllDigits(frac) && j < |columns| && columns[j] == DecimalText(whole, frac)
    ensures ExtraField(columns, j, dropCommas) == DecimalValue(whole, frac)
  {
    DecimalTextPlain(whole, frac, ',');
    ParseFloatOfDecimal(whole, frac);
  }

  /** An amount an exporter writes in column j: its value, or 0 when the row is too short to hold the column. */
  function RenderedAmount(columns: seq<string>, j: nat, whole: nat, frac: string): (v: real)
    requires AllDigits(frac)
    ensures v >= 0.0
  {
    if j < |columns| then DecimalValue(whole, frac) else 0.0
  }

  /**
   * A row written from an employee's fields parses back to that employee:
   * dates as day/month/year, the salary, overtime and pending vacation days as
   * decimal text, whatever the unused columns hold. A row of 11 to 18 columns
   * lacks the pending vacation column, and one of 11 to 13 the overtime column
   * too; those amounts read as 0.
   */
  lemma {:induction false} ParseRenderedRow(cols: seq<string>, hire: Date, termination: Date,
                                            salaryWhole: nat, salaryFrac: string,
                                            overtimeWhole: nat, overtimeFrac: string,
                                            vacAntWhole: nat, vacAntFrac: string)
    requires |cols| >= 11 && forall i :: 0 <= i < |cols| ==> '\t' !in cols[i]
    requires ValidDate(hire) && hire.year > 1900 && ValidDate(termination) && termination.year > 1900
    requires cols[1] == DateText(NatToDigits(hire.day), NatToDigits(hire.month), NatToDigits(hire.year))
    requires cols[2] == DateText(NatToDigits(termination.day), NatToDigits(termination.month), NatToDigits(termination.year))
    requires AllDigits(salaryFrac) && AllDigits(overtimeFrac) && AllDigits(vacAntFrac)
    requires cols[7] == DecimalText(salaryWhole, salaryFrac) && DecimalValue(salaryWhole, salaryFrac) > 0.0
    requires 13 < |cols| ==> cols[13] == DecimalText(overtimeWhole, overtimeFrac)
    requires 18 < |cols| ==> cols[18] == DecimalText(vacAntWhole, vacAntFrac)
    requires PlainField(cols[0]) && PlainField(cols[6]) && PlainField(cols[8]) && PlainField(cols[9]) && PlainField(cols[10])
    ensures ParseRow(Join(cols, '\t'))
            == Some(EmployeeData(cols[0], termination, hire, cols[6], cols[8], cols[9], cols[10],
                                 DecimalValue(salaryWhole, salaryFrac),
                                 RenderedAmount(cols, 18, vacAntWhole, vacAntFrac),
                                 RenderedAmount(cols, 13, overtimeWhole, overtimeFrac)))
  {
    SplitJoin(cols, '\t');
    assert ParseDate(cols[1]) == Some(hire) by {
      ParseFormattedDate(hire);
    }
    assert ParseDate(cols[2]) == Some(termination) by {
      ParseFormattedDate(termination);
    }
    assert SalaryField(cols) == Num(DecimalValue(salaryWhole, salaryFrac)) by {
      DecimalTextPlain(salaryWhole, salaryFrac, ',');
      ParseFloatOfDecimal(salaryWhole, salaryFrac);
    }
    if 13 < |cols| {
      ExtraFieldOfDecimal(cols, 13, true, overtimeWhole, overtimeFrac);
    } else {
      MissingExtraIsZero(cols, 13, true);
    }
    if 18 < |cols| {
      ExtraFieldOfDecimal(cols, 18, false, vacAntWhole, vacAntFrac);
    } else {
      MissingExtraIsZero(cols, 18, false);
    }
    ColumnsParse(cols, hire, termination, DecimalValue(salaryWhole, salaryFrac));
  }

  /**
   * A row of at least 11 columns with two valid dates and a positive salary
   * is kept, each field read from its column; overtime and pending vacation
   * days are whatever their columns read as, 0 when missing, empty or not a number.
   */
  lemma ColumnsParse(cols: seq<string>, hire: Date, termination: Date, dailySalary: real)
    requires |cols| >= 11
    requires ParseDate(cols[1]) == Some(hire) && ParseDate(cols[2]) == Some(termination)
    requires SalaryField(cols) == Num(dailySalary) && dailySalary > 0.0
    ensures RowFromColumns(cols)
            == Some(EmployeeData(Trim(cols[0]), termination, hire, Trim(cols[6]), Trim(cols[8]), Trim(cols[9]),
                                 Trim(cols[10]), dailySalary, ExtraField(cols, 18, false), ExtraField(cols, 13, true)))
  {
  }

  /** The values `parse` gives for the rows it accepts, in row order; rejected rows are skipped. */
  function Collect<T>(rows: seq<string>, parse: string -> Option<T>): (out: seq<T>)
    ensures |out| <= |rows|
  {
    if rows == [] then []
    else
      var init := Collect(rows[..|rows| - 1], parse);
      match parse(rows[|rows| - 1])
      case Some(v) => init + [v]
      case None => init
  }

  lemma {:induction false} CollectAppend<T>(a: seq<string>, b: seq<string>, parse: string -> Option<T>)
    ensures Collect(a + b, parse) == Collect(a, parse) + Collect(b, parse)
    decreases |b|
  {
    if b == [] {
      assert a + b == a;
    } else {
      var ab := a + b;
      assert ab[..|ab| - 1] == a + b[..|b| - 1];
      assert ab[|ab| - 1] == b[|b| - 1];
      CollectAppend(a, b[..|b| - 1], parse);
    }
  }

  /** One more row adds its value, when it parses, at the end. */
  lemma CollectStep<T>(rows: seq<string>, i: nat, parse: string -> Option<T>)
    requires i < |rows|
    ensures Collect(rows[..i + 1], parse)
            == Collect(rows[..i], parse) + (if parse(rows[i]).Some? then [parse(rows[i]).value] else [])
  {
    var prefix := rows[..i + 1];
    assert prefix[..|prefix| - 1] == rows[..i];
    assert prefix[|prefix| - 1] == rows[i];
  }

  lemma {:induction false} CollectedFromSomeRow<T>(rows: seq<string>, parse: string -> Option<T>, v: T)
    requires v in Collect(rows, parse)
    ensures exists row :: row in rows && parse(row) == Some(v)
  {
    var init := rows[..|rows| - 1];
    if v in Collect(init, parse) {
      CollectedFromSomeRow(init, parse, v);
      var row :| row in init && parse(row) == Some(v);
      assert row in rows;
    } else {
      assert parse(rows[|rows| - 1]) == Some(v);
    }
  }

  /** The employees of a sequence of data rows, in row order, rows that fail skipped. */
  function ParseRows(rows: seq<string>): (employees: seq<EmployeeData>)
    ensures |employees| <= |rows|
  {
    Collect(rows, ParseRow)
  }

  /**
   * The data rows of the pasted text: its lines after trimming, less the
   * header; the header and the rows joined by line feeds give back the
   * trimmed text.
   */
  function DataRows(text: string): (rows: seq<string>)
    ensures |rows| == Count(Trim(text), '\n')
    ensures rows == Split(Trim(text), '\n')[1..]
    ensures Join([Split(Trim(text), '\n')[0]] + rows, '\n') == Trim(text)
    ensures forall i :: 0 <= i < |rows| ==> '\n' !in rows[i]
  {
    var lines := Split(Trim(text), '\n');
    JoinSplit(Trim(text), '\n');
    assert lines == [lines[0]] + lines[1..];
    lines[1..]
  }

  /** `parseEmployeeData(text)`, as a value. */
  function ParsedEmployees(text: string): seq<EmployeeData>
  {
    ParseRows(DataRows(text))
  }

  /** `parseEmployeeData`: the rows after the header, each pushed when it parses. */
  method ParseEmployeeData(text: string) returns (employees: seq<EmployeeData>)
    ensures employees == ParsedEmployees(text)
    ensures |employees| <= Count(Trim(text), '\n')
  {
    var rows := DataRows(text);
    employees := PushParsed(rows, ParseRow);
  }

  /** The `forEach` over the rows: every value `parse` gives is pushed, in row order. */
  method PushParsed<T>(rows: seq<string>, parse: string -> Option<T>) returns (out: seq<T>)
    ensures out == Collect(rows, parse)
  {
    out := [];
    var i := 0;
    while i < |rows|
      invariant 0 <= i <= |rows|
      invariant out == Collect(rows[..i], parse)
    {
      var parsed := parse(rows[i]);
      CollectStep(rows, i, parse);
      if parsed.Some? {
        out := out + [parsed.value];
      }
      i := i + 1;
    }
    assert rows[..|rows|] == rows;
  }

  /** Parsing a concatenation of rows concatenates the employees: rows are handled independently and in order. */
  lemma ParseRowsAppend(a: seq<string>, b: seq<string>)
    ensures ParseRows(a + b) == ParseRows(a) + ParseRows(b)
  {
    CollectAppend(a, b, ParseRow);
  }

  /** Every employee comes from a row of the input that parses to it, so it has valid dates and a positive salary. */
  lemma ParsedFromSomeRow(rows: seq<string>, e: EmployeeData)
    requires e in ParseRows(rows)
    ensures exists row :: row in rows && ParseRow(row) == Some(e)
    ensures e.dailySalary > 0.0 && ValidDate(e.hireDate) && ValidDate(e.terminationDate)
  {
    CollectedFromSomeRow(rows, ParseRow, e);
    var row :| row in rows && ParseRow(row) == Some(e);
  }

  /** A text of one line, the header, holds no employees. */
  lemma HeaderOnly(text: string)
    requires '\n' !in Trim(text)
    ensures ParsedEmployees(text) == []
  {
  }
}
