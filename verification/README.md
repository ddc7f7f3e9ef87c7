# Finiquito / liquidación settlement engine, modelled in Dafny

This project models the settlement engine of a Mexican severance calculator.
For one employee it computes the *finiquito* (the ordinary end-of-employment
settlement) or the *liquidación* (the same plus the severance indemnity). It
also models the tab-separated row parser that produces the employee records,
and the three small steps of the screen logic that decide what reaches the
engine.

- **Calendar** (`calendar.dfy`): date-only values, the Gregorian leap-year
  rule, the inclusive day count `getDaysBetween`, seniority as
  `floor(days / 365.25)`, the last anniversary, and the days worked in the
  termination year. `new Date(y, m - 1, d)` is modelled with JavaScript's
  rollover: a day past the end of the month moves into the next month.
- **Constants** (`constants.dfy`): the 2025/2026 UMA values, the minimum
  wage, the monthly ISR table (LISR article 96), the employment-subsidy
  parameters, the IMSS employee rates and the LFT article 76 vacation table.
  Each comes with well-formedness lemmas.
- **ISR** (`isr.dfy`): the bracket search, `calculateIsrOnAmount`, and the
  ordinary bracket computation that `calculateFiniquito` repeats inline. The
  table's brackets are closed intervals with one-cent gaps between them. An
  amount below 0.01 or inside a gap (844.595, say) matches no bracket.
- **Settlement** (`settlement.dfy`): the vacation-day step function, the SDI
  (integrated daily wage), the taxable/exempt splits, the four severance
  components, IMSS, the severance ISR at the effective rate of a notional
  30-day salary, and the whole `calculateFiniquito`.
- **Employee parser** (`employee_parser.dfy`, `text.dfy`): `parseDate` and
  `parseEmployeeData`. The row loop is an imperative method proved against a
  specification function. It uses models of `split`, `trim`, comma removal,
  `parseFloat` and `Number`.
- **App** (`app.dfy`): the override sanitiser, the `reduce` that builds the
  override record, and the arguments each employee gets when all settlements
  are recomputed.

Money is an exact `real`. `parseFloat(x.toFixed(2))` and
`parseFloat(x.toFixed(4))` are `Round2` and `Round4`, which round half away
from zero. A JavaScript number that may be NaN is `Numbers.Number`.

Some of the code's behaviour is easy to misread:
- A bracket miss gives ISR 0. The code never fails on it.
- Vacation days stop growing at 38 from year 46 on. They are not extended
  linearly.
- The proportional seniority premium divides by a fixed 365 days, also in
  leap years.
- A severance override wins even when its component's toggle is off.

## Model

| member | source | states |
|---|---|---|
| `Numbers.Round2` | services/calculationService.ts:130 | `parseFloat(x.toFixed(2))` is a whole number of cents, at most half a cent from x, and keeps x's sign |
| `Numbers.Round4` | services/calculationService.ts:248 | `parseFloat(x.toFixed(4))` is a whole number of ten-thousandths, at most 0.00005 from x, and keeps x's sign |
| `Numbers.Round2Idempotent` | services/calculationService.ts:130 | rounding an amount already rounded to cents changes nothing |
| `Numbers.Round2Monotone` | services/calculationService.ts:130 | rounding to cents never reverses the order of two amounts |
| `Calendar.DaysInYear` | services/calculationService.ts:132 | the year has 366 days exactly when the Gregorian leap-year rule holds, else 365 |
| `Calendar.MakeDate` | services/calculationService.ts:11 | `new Date(y, m - 1, d)` is a valid date whose day number is day d counted from the start of month m, so a day beyond the month rolls over |
| `Calendar.DaysBetween` | services/calculationService.ts:55-60 | the inclusive day count is at least 1, equals 1 exactly on the same date, and is the day-number difference plus one |
| `Calendar.DaysBetweenSymmetric` | services/calculationService.ts:55-60 | the day count does not depend on argument order |
| `Calendar.SeniorityYears` | services/calculationService.ts:125 | `floor(days / 365.25)` equals `4·days div 1461` and is never negative for a non-negative day count |
| `Calendar.LastAnniversary` | services/calculationService.ts:149-151 | the last anniversary is the hire month and day in the termination year when that date is not after the termination, and the same month and day a year earlier otherwise (a 29 February rolls to 1 March); it is a valid date on or before termination and at most 365 days before it |
| `Calendar.DaysWorkedInYear` | services/calculationService.ts:133-135 | the days worked in the termination year count both ends from 1 January when the hire date is not later, and from the hire date when it falls later in that year; they are at least 1 and at most the year's length |
| `Calendar.YearLength` | services/calculationService.ts:132 | consecutive years are exactly `DaysInYear` days apart, so the leap-year rule and the day numbering agree |
| `Constants.IsrTableWellFormed` | constants.ts:21-33 | the ISR brackets start at 0.01 and are closed and non-empty; each lower limit is the previous upper limit plus 0.01; only the last is unbounded; rates and fixed quotas strictly increase |
| `Constants.SubsidyConstants` | constants.ts:36-39 | the January subsidy percent 0.1559 exceeds the February–December percent 0.1502, and both are positive |
| `Constants.UmaConstants` | constants.ts:3-5 | `UMA_2025 < UMA_2026` and `DEFAULT_UMA = UMA_2026` |
| `Constants.ImssRatesNonNegative` | constants.ts:42-49 | every IMSS employee rate is non-negative, and the fixed-quota rate is 0 |
| `Isr.FindBracket` | services/calculationService.ts:81 | `find` returns the first bracket containing the amount, or none when no bracket contains it |
| `Isr.NoBracketIffGap` | services/calculationService.ts:81 | in a contiguous table the lookup misses exactly the amounts below the first lower limit and those inside a one-cent gap |
| `Isr.IsrTableCoverage` | constants.ts:21-33 | the 2026 table misses every amount below 0.01, and finds a bracket for every other amount outside a gap |
| `Isr.IsrTableGapExamples` | constants.ts:22-25 | 844.595 and 12598.025 match no bracket |
| `Isr.Subsidy` | services/calculationService.ts:89-93 | the subsidy is 0 above 11492.66; for a positive UMA it is positive exactly when the income is at most 11492.66 (inclusive) |
| `Isr.JanuarySubsidyHigher` | services/calculationService.ts:89-93 | for a positive UMA and an income within the limit, January 2026 grants a larger subsidy than the rest of the year |
| `Isr.IsrOnAmount` | services/calculationService.ts:80-97 | `calculateIsrOnAmount`: with no bracket both ISR and subsidy are 0; otherwise the subsidy is the monthly subsidy of the amount and the ISR is `max(0, (amount − lower)·rate + quota − subsidy)` for the bracket the table search finds |
| `Isr.OrdinaryMonthlyIsr` | services/calculationService.ts:225-236 | the inline computation: the monthly ISR is `max(0, tax before subsidy − subsidy)`; the subsidy is always computed; with no bracket every bracket field (lower limit, surplus, rate, marginal tax, fixed quota, tax before subsidy) is 0; otherwise lower limit, rate and fixed quota are those of the bracket the table search finds |
| `Isr.OrdinaryIsrInBracket` | services/calculationService.ts:226-228 | inside a bracket the surplus is the income over the lower limit, the marginal tax is the surplus at the bracket rate, and the tax before subsidy adds the fixed quota |
| `Isr.InlineIsrAgreesWithHelper` | services/calculationService.ts:225-236 | for a non-negative UMA the inline computation and `calculateIsrOnAmount` give the same final ISR for every amount, gaps included |
| `Isr.InlineIsrDiffersForNegativeUma` | services/calculationService.ts:226-236 | with a negative UMA the inline path charges ISR on an amount that matches no bracket, while the helper charges nothing |
| `Isr.GapAmountPaysNoIsr` | services/calculationService.ts:225-236 | an income inside the gap above 12598.02 pays no ISR, while 12598.02 itself pays over 1000 |
| `Settlement.VacationDaysForSeniority` | services/calculationService.ts:62-78 | the vacation entitlement lies in 0..38 and is 0 exactly for years ≤ 0 |
| `Settlement.VacationDaysClosedForm` | services/calculationService.ts:62-78 | 12/14/16/18/20 days for years 1–5, `22 + 2·((years − 6) div 5)` for 6–45, and 38 from 46 on |
| `Settlement.VacationDaysMonotone` | services/calculationService.ts:62-78 | the vacation entitlement never decreases with seniority |
| `Settlement.VacationTableAgrees` | constants.ts:12-18 | the constant table covers years 1–5 and agrees there with the step function |
| `Settlement.DefaultSalaryDays` | services/calculationService.ts:137-138 | the default is `day − 15` exactly when the day is after the 15th, else the day, and it lies in 1..16 for a day of the month |
| `Settlement.SalaryDays` | services/calculationService.ts:139-141 | salary days are the override when it is supplied and not NaN, and the default otherwise |
| `Settlement.IntegratedDailyWage` | services/calculationService.ts:128-130 | the daily bonus and vacation-premium shares are the annual amounts over 365, and the SDI is their sum with the salary rounded half away from zero to cents (`toFixed(2)`), hence within half a cent of it |
| `Settlement.ExemptUpTo` | services/calculationService.ts:167-173 | taxable + exempt = gross, exempt = min(gross, ceiling), and taxable is 0 exactly when the gross is within the ceiling |
| `Settlement.OvertimeSplit` | services/calculationService.ts:160-165 | taxable + exempt = doubles + triples, exempt = min(0.5·doubles, 5·UMA), and triples are always taxable |
| `Settlement.ComputePercepciones` | services/calculationService.ts:143-184 | each perception's amount and split: salary, vacation and pending vacation are fully taxable; bonus exempt up to 30·UMA; premium up to 15·UMA; overtime as above; the days since the last anniversary are counted from `LastAnniversary`; the displayed total is the rounded line sum; taxable + exempt parts sum to the lines |
| `Settlement.PercepcionesProportionalParts` | services/calculationService.ts:145-156 | the aguinaldo is 15 days prorated over the days worked this year; vacations are the year's entitlement prorated over the days since the last anniversary; the premium is a quarter of the vacation pay |
| `Settlement.ProportionalPay` | services/calculationService.ts:145-147 | the unrounded days are the entitlement times the days counted over the year's days; the days are those to the cent, and the amount is the days at the daily salary, to the cent |
| `Settlement.ProportionalWithinEntitlement` | services/calculationService.ts:145-153 | within one year the prorated days lie between 0 and the entitlement |
| `Settlement.VacationPremium` | services/calculationService.ts:156 | the vacation premium is 25% of the vacation pay, to the cent |
| `Settlement.PremiumSalaryBase` | services/calculationService.ts:192 | the seniority-premium base is the SDI capped at twice the minimum wage |
| `Settlement.ComputeIndemnizacion` | services/calculationService.ts:186-208 | each component is its override when one is present, else its computed value if its toggle is on, else 0; the total is the sum of the four |
| `Settlement.OverrideAlwaysWins` | services/calculationService.ts:189-197 | an override is used verbatim even when the component's toggle is off |
| `Settlement.DisabledComponentIsZero` | services/calculationService.ts:188-197 | without an override a disabled component is 0 |
| `Settlement.ZeroSeniorityNoSeniorityPay` | services/calculationService.ts:190-194 | with 0 years of seniority and no overrides, the 20-days and seniority-premium components are 0 |
| `Settlement.SeniorityPayMonotone` | services/calculationService.ts:190-193 | more seniority never lowers the computed 20-days or seniority-premium amounts |
| `Settlement.ProportionalPremiumFixedDivisor` | services/calculationService.ts:195 | the proportional premium divides by a fixed 365: a full leap year earns more than 12 days |
| `Settlement.ComputeImss` | services/calculationService.ts:210-216 | the contribution base is min(SDI, 25·UMA); the excess is max(0, base − 3·UMA); each branch is its base × rate × salary days |
| `Settlement.ImssTotal` | services/calculationService.ts:217 | the IMSS deduction is the sum of the five branches, to the cent |
| `Settlement.ImssNonNegative` | services/calculationService.ts:210-217 | the IMSS deduction is never negative for a non-negative wage, UMA and day count |
| `Settlement.SeveranceIsr` | services/calculationService.ts:242-249 | exemption 90·UMA·years; taxable base max(0, severance − exemption); the month's ISR is the helper's ISR on 30 days' salary; the rate is 0 for no salary; the severance ISR is non-negative, in cents, and 0 when the severance is within the exemption |
| `Settlement.SeveranceDetailsOf` | services/calculationService.ts:248-249 | the effective rate is the month's ISR over the month's income to four decimals, 0 for no income; the severance ISR is the taxable base at that rate, to the cent |
| `Settlement.SeveranceIsrRate` | services/calculationService.ts:246-248 | for a positive salary the effective rate is the ISR on 30 days' salary over that salary, to four decimals |
| `Settlement.SeveranceIsrTax` | services/calculationService.ts:249 | the severance ISR is the taxable base at the effective rate, to the cent |
| `Settlement.CalculateWith` | services/calculationService.ts:175-272 | the severance breakdown and the severance ISR details are present exactly for a liquidación, and a finiquito carries no severance ISR; net = perceptions + severance − (ordinary ISR + severance ISR + IMSS), unrounded and unclamped; both ISR amounts are non-negative |
| `Settlement.CalculateWithPerceptionTotal` | services/calculationService.ts:175-181 | the displayed perception total is the sum of the ordinary perception lines rounded to cents |
| `Settlement.DeduccionesTotalRounded` | services/calculationService.ts:266-270 | restates `DeduccionesOf` for a block it built: the displayed deduction total is ordinary ISR + severance ISR + IMSS rounded to cents |
| `Settlement.CalculateWithDeductions` | services/calculationService.ts:266-270 | the result's deductions block is the one assembled from its own ISR and IMSS amounts, so its displayed total is their rounded sum |
| `Settlement.CalculateWithSeniority` | services/calculationService.ts:124-125 | the seniority is `floor(days between the two dates / 365.25)` and never negative, and the monthly ISR is never negative |
| `Settlement.CalculateWithAudit` | services/calculationService.ts:218-262 | the audit trails record the prior-period income and ISR, the month's taxable income as period income plus prior income, ISR to withhold as ordinary plus severance ISR, and the UMA and salary days the IMSS used |
| `Settlement.CalculateWithPercepciones` | services/calculationService.ts:124-184 | the perceptions are `ComputePercepciones` for the worker's seniority and the vacation days of the current year of service, and the SDI uses the same entitlement |
| `Settlement.CalculateWithIndemnizacion` | services/calculationService.ts:186-208 | a liquidación carries the severance components computed on the SDI, the seniority and the days worked this year |
| `Settlement.CalculateWithImss` | services/calculationService.ts:210-218 | the IMSS quotas are computed on the SDI, the UMA and the salary days, and the deduction is their total |
| `Settlement.CalculateWithOrdinaryIsr` | services/calculationService.ts:225-253 | the audit trail's bracket fields, subsidy and monthly ISR are those of the bracket computation on the month's taxable income with the termination month's subsidy |
| `Settlement.CalculateWithIsrFiniquito` | services/calculationService.ts:237 | the ordinary ISR withheld is the month's ISR less the ISR already withheld, never below 0, to the cent |
| `Settlement.WithheldWithinMonthlyIsr` | services/calculationService.ts:237 | with a non-negative prior withholding, what is withheld lies between 0 and the month's ISR to the cent |
| `Settlement.CalculateWithSeveranceIsr` | services/calculationService.ts:242-249 | in a liquidación the severance ISR is computed on the 90 days, the 20 days a year and both seniority premiums, and that is the ISR on severance deducted |
| `Settlement.CalculateFiniquito` | services/calculationService.ts:99-273 | the entry point: the severance breakdown is present exactly for a liquidación, the net total is perceptions + severance − deductions unrounded, and both ISR amounts are non-negative |
| `Settlement.ResolvedArguments` | services/calculationService.ts:120-141 | a January-2026 termination uses `UMA_2025`; the prior period counts only after the 15th; the salary-days override applies unless absent or NaN, and the default lies in 1..16 |
| `Settlement.JanuaryIgnoresUmaInput` | services/calculationService.ts:120-122 | for a January-2026 termination the caller's UMA does not affect the result at all |
| `Settlement.PriorPeriodIgnoredInFirstHalf` | services/calculationService.ts:221-222 | on or before the 15th the prior-period income and ISR do not affect the result |
| `Settlement.NaNOverrideIsAbsent` | services/calculationService.ts:139-141 | a NaN salary-days override gives the same settlement as an absent one |
| `Settlement.Override90DaysScenario` | services/calculationService.ts:189 | a 90-day override of 10000 makes that component exactly 10000 |
| `Settlement.LeapYearScenario` | services/calculationService.ts:124-141 | hired 15/01/2020, terminated 20/06/2024: 4 years of seniority, 5 salary days, a 366-day year |
| `Settlement.LeapYearScenarioDays` | services/calculationService.ts:132-135 | in the same scenario 172 days were worked in 2024, the leap day included |
| `Settlement.LeapYearScenarioAnniversary` | services/calculationService.ts:148-150 | in the same scenario the last anniversary is 15/01/2024, 158 days before the termination counting both ends |
| `Settlement.SubsidyLimitInclusive` | services/calculationService.ts:231 | an income of exactly 11492.66 gets the subsidy; one cent more does not |
| `Settlement.DisplayedTotalsNearNet` | services/calculationService.ts:266-270 | the net total, built from unrounded sums, is within one cent of the one rebuilt from the rounded displayed totals |
| `Text.Split` | services/calculationService.ts:22 | `split` gives one more piece than separators, and no piece contains the separator |
| `Text.JoinSplit` | services/calculationService.ts:22 | joining the pieces of a split gives the text back |
| `Text.SplitJoin` | services/calculationService.ts:22 | splitting joined pieces without separators gives the pieces back |
| `Text.TrimStart` | services/calculationService.ts:18 | leading ECMAScript white space and line terminators are dropped and nothing else |
| `Text.TrimEnd` | services/calculationService.ts:18 | trailing ECMAScript white space and line terminators are dropped and nothing else |
| `Text.RemoveAll` | services/calculationService.ts:26 | `replace(/,/g, '')` removes every comma and leaves everything else |
| `Text.RemoveAllAppend` | services/calculationService.ts:26 | removal distributes over concatenation |
| `Text.RemoveAllSingle` | services/calculationService.ts:26 | a single character goes exactly when it is the removed one |
| `Text.ParseFloatOfDigits` | services/calculationService.ts:27 | `parseFloat` of a run of digits is the integer it spells |
| `Text.ParseFloatOfDecimal` | services/calculationService.ts:27 | `parseFloat` of decimal text such as `350.50` reads it whole, to the whole part plus the fraction |
| `Text.ToNumberOfDigits` | services/calculationService.ts:9 | `Number` of a run of digits is the integer it spells |
| `Text.ScanOfDigits` | services/calculationService.ts:9 | the decimal scanner reads a whole run of digits as the integer it spells, consuming all of it |
| `EmployeeParser.ParseDate` | services/calculationService.ts:5-15 | an accepted date is valid, and empty text or a field count other than three is rejected |
| `EmployeeParser.DateOfNumbers` | services/calculationService.ts:8-14 | a field that is not a number rejects the date, and an accepted date is a valid calendar date |
| `EmployeeParser.DateOfWholeNumbers` | services/calculationService.ts:9-10 | whole-number fields are accepted exactly for day 1..31, month 1..12 and a year after 1900, and give `new Date(year, month − 1, day)` |
| `EmployeeParser.ParseDigitDate` | services/calculationService.ts:5-15 | digit fields are accepted exactly for day 1..31, month 1..12 and a year after 1900, and give `new Date(year, month − 1, day)` |
| `EmployeeParser.ParseFormattedDate` | services/calculationService.ts:5-15 | a valid date after 1900 written as day/month/year parses back to itself |
| `EmployeeParser.ParseDateRollsOver` | services/calculationService.ts:11 | 31/02/2023 is accepted and becomes 3 March 2023 |
| `EmployeeParser.RowFromColumns` | services/calculationService.ts:23-49 | a row is kept exactly when it has at least 11 columns, two valid dates and a positive daily salary; the kept record takes every field from its own column (`FieldsFromColumns`): id 0, hire date 1, termination date 2, name 6, salary 7 without commas, RFC 8, position 9, location 10, overtime 13, pending vacation 18 |
| `EmployeeParser.ParseRow` | services/calculationService.ts:22-49 | a kept row has valid dates and a positive salary, and every field read from its own tab-separated column as above; fewer than 11 tab columns reject it |
| `EmployeeParser.MissingExtraIsZero` | services/calculationService.ts:29-33 | an overtime or pending-vacation column beyond the end of the row reads as 0 |
| `EmployeeParser.UnparseableExtraIsZero` | services/calculationService.ts:29-46 | overtime or pending-vacation text that is not a number reads as 0 instead of rejecting the row |
| `EmployeeParser.ParseRenderedRow` | services/calculationService.ts:21-49 | a row of 11 or more columns written from an employee's fields, with salary, overtime and pending vacation days as decimal text, parses back to that employee; overtime and pending vacation columns the row is too short to hold read as 0 |
| `EmployeeParser.ColumnsParse` | services/calculationService.ts:22-49 | a row of at least 11 columns with two valid dates and a positive salary gives the record built from its columns, with overtime and pending vacation as their columns read (0 when missing, empty or not a number) |
| `EmployeeParser.DataRows` | services/calculationService.ts:18 | the data rows are the trimmed text's lines after the first: one fewer than the lines, none holding a line feed, and with the header they join back to the trimmed text |
| `EmployeeParser.ParseRows` | services/calculationService.ts:21-50 | no more employees than data rows |
| `EmployeeParser.ParseEmployeeData` | services/calculationService.ts:17-53 | the loop pushing every row that parses yields the row-by-row specification, at most one employee per line after the header |
| `EmployeeParser.PushParsed` | services/calculationService.ts:21-50 | the `forEach` loop that pushes every row that parses, in order, produces exactly the rows the row-by-row specification keeps |
| `EmployeeParser.ParseRowsAppend` | services/calculationService.ts:21-50 | rows are handled independently and in order: parsing a concatenation concatenates the results |
| `EmployeeParser.ParsedFromSomeRow` | services/calculationService.ts:35 | every employee comes from an input row that parses to it, with valid dates and a positive salary |
| `EmployeeParser.HeaderOnly` | services/calculationService.ts:18 | text of one line, the header, yields no employees |
| `App.KeepDigitsAndDots` | App.tsx:61 | the first replace keeps only digits and dots, in order, and leaves such text unchanged |
| `App.KeepDigitsAndDotsAppend` | App.tsx:61 | the filter distributes over concatenation |
| `App.KeepDigitsAndDotsSingle` | App.tsx:61 | a single character stays exactly when it is a digit or a dot |
| `App.CutAtSecondDot` | App.tsx:61 | the second replace keeps the prefix before the second dot, with at most one dot |
| `App.SanitizeOverride` | App.tsx:61 | the sanitised text holds only digits and at most one '.', and is the digit/dot-filtered input cut just before its second '.' |
| `App.SanitizeKeepsCleanInput` | App.tsx:61 | text of digits with at most one dot is returned unchanged |
| `App.SanitizeIdempotent` | App.tsx:61 | sanitising twice is sanitising once |
| `App.SanitizedFieldParses` | App.tsx:61 | a sanitised field reads as a number exactly when it holds a digit, and that number is never negative |
| `App.WithInput` | App.tsx:62-65 | updating one field changes that field and no other |
| `App.Entries` | App.tsx:105 | `Object.entries` lists the four fields, each once, in declaration order |
| `App.FieldOverrides` | App.tsx:105-113 | the record has a key exactly for the components whose field gives a value, holding that value |
| `App.OverrideKeyRule` | App.tsx:105-113 | a key is present exactly when its text is non-empty and parses to a number; otherwise it is absent, not 0 |
| `App.BuildOverrides` | App.tsx:105-113 | the `reduce` loop builds exactly the override record of the fields |
| `App.InitialInputsNoOverrides` | App.tsx:52-57 | the initial empty fields give no overrides |
| `App.SanitizedOverrideApplies` | App.tsx:61-65 | a sanitised field becomes an override exactly when it holds a digit, and never a negative one |
| `App.ArgumentsFor` | App.tsx:140-158 | an unselected employee gets zero adjustments, a NaN salary-days override, default toggles and no overrides; the selected one gets `parseFloat(text) \|\| 0` of each of the five amount fields, `parseFloat` of the salary-days field, the panel's toggles and the overrides of its fields |
| `App.RecalculateAll` | App.tsx:139-160 | one settlement per employee, in order, each `calculateFiniquito` of that employee with the arguments `ArgumentsFor` gives it |
| `App.UnselectedGetsDefaults` | App.tsx:139-160 | an unselected employee's settlement equals the one with the engine's default arguments |
| `App.PanelAffectsOnlySelected` | App.tsx:139-160 | whatever the panel holds, only the selected employee's settlement depends on it |
| `App.EmptyPanelIsDefault` | App.tsx:37-58 | an untouched panel gives the selected employee the same arguments as everyone else |

## Left out

- Presentation (`components/FiniquitoDetail.tsx`), PDF export (`services/pdfService.ts`), React state and effects, `localStorage` and `setTimeout` in `App.tsx`: UI and I/O, not computation.
- `handleCalculate` and `recalculateSelected` in `App.tsx` (lines 68-130): they reach the same result as `App.ArgumentsFor` gives the default or selected employee (`handleCalculate` passes no salary-days override where `App.ArgumentsFor` passes NaN, which `Settlement.NaNOverrideIsAbsent` shows to be equivalent); the "no valid records" error is UI.
- IEEE-754 behaviour: money is an exact real; `toFixed` is exact half-away rounding; binary representation errors are not modelled.
- `parseFloat` and `Number` read plain decimal text only: exponents, `Infinity` and hexadecimal literals are not modelled, so a salary column reading `Infinity` is rejected here.
- JavaScript `Date`: local time, time zones and daylight saving are ignored. Dates are calendar triples. Rollover is modelled only for a month 1..12 and a day 0..31, which covers every call the engine makes. The range limit of a JavaScript `Date` (±8.64e15 ms from 1970, about the year 275760) is not modelled: `EmployeeParser.ParseDate` accepts a date such as 01/01/300000 that `parseDate` rejects as an invalid `Date`.
- The `types.ts` interfaces are mirrored as datatypes. The calculation type is a two-constructor enum, since the declared string literal is garbled.
- A bracket miss is not an error: it gives ISR 0, as the code does.
- `Isr.InlineIsrAgreesWithHelper`: holds only for a non-negative UMA. With a negative UMA the two paths differ, as `Isr.InlineIsrDiffersForNegativeUma` shows.
- `Isr.Subsidy`: the "granted iff within the limit" direction is stated for a positive UMA only. A UMA of 0 makes every subsidy 0.
- `Settlement.ProportionalPay`: `toFixed(2)` of the prorated days, and of the days at the daily salary, is stated as the whole number of cents within half a cent of it; at an exact half cent this allows either neighbour, where the code rounds away from zero (the function itself uses `Round2`).
- `Settlement.SeveranceDetailsOf`: `toFixed(2)` of the taxable base at the effective rate is stated as the whole number of cents within half a cent of it; at an exact half cent this allows either neighbour, where the code rounds away from zero (the function itself uses `Round2`).
- `Settlement.SeveranceIsrTax`: `toFixed(2)` of the taxable base at the effective rate is stated as the whole number of cents within half a cent of it; at an exact half cent this allows either neighbour, where the code rounds away from zero (the function itself uses `Round2`).
- `Settlement.VacationPremium`: `toFixed(2)` of 25% of the vacation pay is stated as the whole number of cents within half a cent of it; at an exact half cent this allows either neighbour, where the code rounds away from zero (the function itself uses `Round2`).
- `Settlement.ImssTotal`: `toFixed(2)` of the five IMSS branches is stated as the whole number of cents within half a cent of it; at an exact half cent this allows either neighbour, where the code rounds away from zero (the function itself uses `Round2`).
- `Settlement.CalculateWithIsrFiniquito`: the upper bound against the month's ISR (`Settlement.WithheldWithinMonthlyIsr`) is stated for a non-negative prior withholding only; a negative one raises the withholding above the month's ISR, as the code does.
