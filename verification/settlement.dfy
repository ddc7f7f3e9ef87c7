/**
 * `calculateFiniquito`: the settlement of one employee, as a composition of
 * small pure functions, one per step of the source.
 *
 * The UMA used everywhere is the caller's, except for a termination in
 * January 2026, which uses the 2025 UMA.  Perceptions are rounded to cents
 * where the source rounds them (proportional days, year-end bonus, vacation,
 * vacation premium); the salary, pending-vacation and overtime amounts are not
 * rounded.  The net total is built from the unrounded sums, while the
 * displayed perception and deduction totals are rounded.
 */
module Settlement {
  import opened Wrappers
  import opened Numbers
  import opened Constants
  import opened Calendar
  import opened Isr
  import opened Types

  // ---------------------------------------------------------------------------
  // Seniority-indexed vacation days (LFT article 76)
  // ---------------------------------------------------------------------------

  /** `getVacationDaysForSeniority`. */
  function VacationDaysForSeniority(years: int): (days: int)
    ensures 0 <= days <= 38
    ensures days == 0 <==> years <= 0
  {
    if years <= 0 then 0
    else if years == 1 then 12
    else if years == 2 then 14
    else if years == 3 then 16
    else if years == 4 then 18
    else if years == 5 then 20
    else if 6 <= years <= 10 then 22
    else if 11 <= years <= 15 then 24
    else if 16 <= years <= 20 then 26
    else if 21 <= years <= 25 then 28
    else if 26 <= years <= 30 then 30
    else if 31 <= years <= 35 then 32
    else if 36 <= years <= 40 then 34
    else if 41 <= years <= 45 then 36
    else 38
  }

  /** Two more days per year up to year 5, then two more per five-year band, capped at 38 from year 46. */
  lemma VacationDaysClosedForm(years: int)
    ensures 1 <= years <= 5 ==> VacationDaysForSeniority(years) == 10 + 2 * years
    ensures 6 <= years <= 45 ==> VacationDaysForSeniority(years) == 22 + 2 * ((years - 6) / 5)
    ensures years >= 46 ==> VacationDaysForSeniority(years) == 38
  {
    if 6 <= years <= 45 {
      var band := (years - 6) / 5;
      assert 5 * band <= years - 6 < 5 * band + 5;
    }
  }

  lemma VacationDaysMonotone(a: int, b: int)
    requires a <= b
    ensures VacationDaysForSeniority(a) <= VacationDaysForSeniority(b)
  {
  }

  /** The constant table for years 1-5 agrees with the step function. */
  lemma VacationTableAgrees()
    ensures forall y :: y in VACATION_DAYS_BY_SENIORITY <==> 1 <= y <= 5
    ensures forall y :: y in VACATION_DAYS_BY_SENIORITY ==> VACATION_DAYS_BY_SENIORITY[y] == VacationDaysForSeniority(y)
  {
  }

  // ---------------------------------------------------------------------------
  // UMA, salary days, prior period
  // ---------------------------------------------------------------------------

  /** The UMA the whole calculation uses: the 2025 value for a termination in January 2026. */
  function EffectiveUma(terminationDate: Date, umaInput: real): real
  {
    if IsJanuary2026(terminationDate) then UMA_2025 else umaInput
  }

  /** Salary days still owed by default: counted from the most recent half-month boundary. */
  function DefaultSalaryDays(dayOfMonth: int): (days: int)
    ensures days == dayOfMonth || days == dayOfMonth - 15
    ensures days == dayOfMonth - 15 <==> dayOfMonth > 15
    ensures 1 <= dayOfMonth <= 31 ==> 1 <= days <= 16
  {
    if dayOfMonth > 15 then dayOfMonth - 15 else dayOfMonth
  }

  /** The override when it is supplied and not NaN, otherwise the default. */
  function SalaryDays(dayOfMonth: int, salaryDaysOverride: Option<Number>): (days: real)
    ensures salaryDaysOverride.Some? && salaryDaysOverride.value.Num? ==> days == salaryDaysOverride.value.value
    ensures salaryDaysOverride.None? || salaryDaysOverride.value.NaN? ==> days == DefaultSalaryDays(dayOfMonth) as real
  {
    match salaryDaysOverride
    case Some(Num(v)) => v
    case _ => DefaultSalaryDays(dayOfMonth) as real
  }

  /** Prior-period income and ISR only count when the termination is in the second half of the month. */
  function PriorPeriodAmount(dayOfMonth: int, amount: real): real
  {
    if dayOfMonth > 15 then amount else 0.0
  }

  // ---------------------------------------------------------------------------
  // Integrated daily wage and exemptions
  // ---------------------------------------------------------------------------

  datatype IntegratedWage = IntegratedWage(dailyAguinaldo: real, dailyVacationPremium: real, sdi: real)

  /** SDI: the daily salary plus the daily shares of the year-end bonus and the vacation premium, in cents. */
  function IntegratedDailyWage(dailySalary: real, vacationDaysPerYear: int): (w: IntegratedWage)
    ensures w.dailyAguinaldo * 365.0 == dailySalary * AGUINALDO_DAYS
    ensures w.dailyVacationPremium * 365.0 == dailySalary * vacationDaysPerYear as real * VACATION_PREMIUM_RATE
    ensures w.sdi == Round2(dailySalary + w.dailyAguinaldo + w.dailyVacationPremium)
    ensures IsCents(w.sdi)
    ensures dailySalary + w.dailyAguinaldo + w.dailyVacationPremium - 0.005 <= w.sdi
    ensures w.sdi <= dailySalary + w.dailyAguinaldo + w.dailyVacationPremium + 0.005
  {
    var dailyAguinaldo := (dailySalary * AGUINALDO_DAYS) / 365.0;
    var dailyVacationPremium := (dailySalary * vacationDaysPerYear as real * VACATION_PREMIUM_RATE) / 365.0;
    IntegratedWage(dailyAguinaldo, dailyVacationPremium, Round2(dailySalary + dailyAguinaldo + dailyVacationPremium))
  }

  datatype TaxableExempt = TaxableExempt(taxable: real, exempt: real)

  /** Splits a gross amount at an exemption ceiling: exempt up to the ceiling, the rest taxable. */
  function ExemptUpTo(gross: real, ceiling: real): (s: TaxableExempt)
    ensures s.taxable + s.exempt == gross
    ensures s.exempt <= gross && s.exempt <= ceiling
    ensures s.exempt == gross || s.exempt == ceiling
    ensures s.taxable >= 0.0
    ensures s.taxable == 0.0 <==> gross <= ceiling
  {
    var exempt := Min(gross, ceiling);
    TaxableExempt(gross - exempt, exempt)
  }

  /**
   * Overtime: half of the double-rate amount is exempt up to 5 UMA, and the
   * triple-rate amount is always taxable.
   */
  function OvertimeSplit(doubles: real, triples: real, uma: real): (s: TaxableExempt)
    ensures s.taxable + s.exempt == doubles + triples
    ensures s.exempt <= 0.5 * doubles && s.exempt <= 5.0 * uma
    ensures s.exempt == 0.5 * doubles || s.exempt == 5.0 * uma
    ensures doubles >= 0.0 ==> s.taxable >= triples
  {
    var exempt := Min(doubles * 0.5, 5.0 * uma);
    TaxableExempt((doubles - exempt) + triples, exempt)
  }

  // ---------------------------------------------------------------------------
  // Ordinary perceptions
  // ---------------------------------------------------------------------------

  /** The sum of the perception lines, unrounded: what the net total is built from. */
  function PerceptionLinesSum(p: Percepciones): real
  {
    p.salaryAmount + p.aguinaldoAmount + p.vacationAmount + p.vacationPremiumAmount
    + p.vacationAntAmount + p.additionalPerceptionAmount + p.overtimeAmount
  }

  /** The taxable part of the perceptions of this period. */
  function PeriodTaxableIncome(p: Percepciones): real
  {
    p.salaryTaxable + p.vacationTaxable + p.aguinaldoTaxable + p.vacationPremiumTaxable
    + p.vacationAntTaxable + p.additionalPerceptionAmount + p.overtimeTaxable
  }

  datatype ProportionalPart = ProportionalPart(unroundedDays: real, days: real, amount: real)

  /**
   * A benefit earned in proportion to the days counted: `entitlement / daysInYear`
   * per day, the days rounded to cents and then paid at the daily salary,
   * rounded to cents.
   */
  function ProportionalPay(entitlement: real, daysInYear: int, daysCounted: int, dailySalary: real): (r: ProportionalPart)
    requires daysInYear > 0
    ensures r.unroundedDays * daysInYear as real == entitlement * daysCounted as real
    ensures IsCents(r.days) && r.unroundedDays - 0.005 <= r.days <= r.unroundedDays + 0.005
    ensures IsCents(r.amount) && r.days * dailySalary - 0.005 <= r.amount <= r.days * dailySalary + 0.005
  {
    var unrounded := (entitlement / daysInYear as real) * daysCounted as real;
    var days := Round2(unrounded);
    ProportionalPart(unrounded, days, Round2(days * dailySalary))
  }

  /** Within one year the days earned lie between none and the whole entitlement. */
  lemma ProportionalWithinEntitlement(entitlement: real, daysInYear: int, daysCounted: int, dailySalary: real)
    requires daysInYear > 0 && entitlement >= 0.0 && 0 <= daysCounted <= daysInYear
    ensures 0.0 <= ProportionalPay(entitlement, daysInYear, daysCounted, dailySalary).unroundedDays <= entitlement
  {
    var share := entitlement / daysInYear as real;
    assert share * daysInYear as real == entitlement;
    assert share >= 0.0;
    assert share * daysCounted as real <= share * daysInYear as real;
  }

  /** The vacation premium: 25% of the vacation pay, rounded to cents. */
  function VacationPremium(vacationAmount: real): (r: real)
    ensures IsCents(r) && vacationAmount * 0.25 - 0.005 <= r <= vacationAmount * 0.25 + 0.005
  {
    Round2(vacationAmount * VACATION_PREMIUM_RATE)
  }

  /** The ordinary perceptions of the settlement and their taxable and exempt parts. */
  function ComputePercepciones(e: EmployeeData, uma: real, salaryDays: real, vacationDaysPerYear: int,
                               horasExtrasDobles: real, horasExtrasTriples: real,
                               additionalPerception: real): (p: Percepciones)
    requires ValidDate(e.hireDate) && ValidDate(e.terminationDate)
    ensures p.salaryDays == salaryDays && p.salaryAmount == e.dailySalary * salaryDays
    ensures p.salaryTaxable == p.salaryAmount && p.salaryExempt == 0.0
    ensures p.vacationTaxable == p.vacationAmount && p.vacationExempt == 0.0
    ensures p.vacationAntTaxable == p.vacationAntAmount && p.vacationAntExempt == 0.0
    ensures p.vacationAntAmount == e.vacAnt * e.dailySalary
    ensures p.aguinaldoTaxable + p.aguinaldoExempt == p.aguinaldoAmount
    ensures p.aguinaldoExempt == Min(p.aguinaldoAmount, 30.0 * uma)
    ensures p.vacationPremiumTaxable + p.vacationPremiumExempt == p.vacationPremiumAmount
    ensures p.vacationPremiumExempt == Min(p.vacationPremiumAmount, 15.0 * uma)
    ensures p.overtimeAmount == e.overtime + horasExtrasDobles + horasExtrasTriples
    ensures p.overtimeTaxable + p.overtimeExempt == p.overtimeAmount
    ensures p.overtimeExempt == Min(0.5 * (e.overtime + horasExtrasDobles), 5.0 * uma)
    ensures p.additionalPerceptionAmount == additionalPerception
    ensures IsCents(p.aguinaldoAmount) && IsCents(p.vacationAmount) && IsCents(p.vacationPremiumAmount)
    ensures p.total == Round2(PerceptionLinesSum(p))
    ensures PeriodTaxableIncome(p) + p.aguinaldoExempt + p.vacationPremiumExempt + p.overtimeExempt == PerceptionLinesSum(p)
    ensures p.daysInYear == DaysInYear(e.terminationDate.year)
    ensures p.daysWorkedInYear == DaysWorkedInYear(e.hireDate, e.terminationDate)
    ensures p.daysSinceLastAnniversary == DaysBetween(LastAnniversary(e.hireDate, e.terminationDate), e.terminationDate)
    ensures 1 <= p.daysSinceLastAnniversary <= 366
    ensures p.vacationDaysPerYear == vacationDaysPerYear
  {
    var hire := e.hireDate;
    var term := e.terminationDate;
    var daysInYear := DaysInYear(term.year);
    var daysWorkedInYear := DaysWorkedInYear(hire, term);
    var salaryAmount := e.dailySalary * salaryDays;

    var aguinaldoPart := ProportionalPay(AGUINALDO_DAYS, daysInYear, daysWorkedInYear, e.dailySalary);
    var aguinaldoAmount := aguinaldoPart.amount;

    var lastAnniversary := LastAnniversary(hire, term);
    var daysSinceLastAnniversary := DaysBetween(lastAnniversary, term);
    var vacationPart := ProportionalPay(vacationDaysPerYear as real, daysInYear, daysSinceLastAnniversary, e.dailySalary);
    var vacationAmount := vacationPart.amount;
    var vacationPremiumAmount := VacationPremium(vacationAmount);
    var vacationAntAmount := e.vacAnt * e.dailySalary;

    var totalHorasExtrasDobles := e.overtime + horasExtrasDobles;
    var totalOvertimeAmount := totalHorasExtrasDobles + horasExtrasTriples;
    var overtime := OvertimeSplit(totalHorasExtrasDobles, horasExtrasTriples, uma);
    var aguinaldo := ExemptUpTo(aguinaldoAmount, uma * 30.0);
    var premium := ExemptUpTo(vacationPremiumAmount, uma * 15.0);

    var ordinaryTotal := salaryAmount + aguinaldoAmount + vacationAmount + vacationPremiumAmount
                         + vacationAntAmount + additionalPerception + totalOvertimeAmount;
    Percepciones(
      salaryDays, salaryAmount, aguinaldoPart.days, aguinaldoAmount, vacationPart.days, vacationAmount,
      vacationPremiumAmount, e.vacAnt, vacationAntAmount, additionalPerception,
      totalOvertimeAmount, overtime.taxable, overtime.exempt, Round2(ordinaryTotal),
      daysWorkedInYear, daysSinceLastAnniversary, daysInYear, vacationDaysPerYear,
      vacationPart.unroundedDays, aguinaldoPart.unroundedDays,
      salaryAmount, 0.0, vacationAmount, 0.0, aguinaldo.taxable, aguinaldo.exempt,
      premium.taxable, premium.exempt, vacationAntAmount, 0.0)
  }
  /**
   * The aguinaldo is its 15 days prorated over the days worked this calendar
   * year; vacations are the year's entitlement prorated over the days since
   * the last anniversary; the premium is a quarter of the vacation pay.
   */
  lemma PercepcionesProportionalParts(e: EmployeeData, uma: real, salaryDays: real, vacationDaysPerYear: int,
                                      horasExtrasDobles: real, horasExtrasTriples: real, additionalPerception: real)
    requires ValidDate(e.hireDate) && ValidDate(e.terminationDate)
    ensures var p := ComputePercepciones(e, uma, salaryDays, vacationDaysPerYear, horasExtrasDobles, horasExtrasTriples,
                                         additionalPerception);
      && ProportionalPay(AGUINALDO_DAYS, p.daysInYear, p.daysWorkedInYear, e.dailySalary)
         == ProportionalPart(p.proportionalAguinaldoDays, p.aguinaldoDays, p.aguinaldoAmount)
      && ProportionalPay(vacationDaysPerYear as real, p.daysInYear, p.daysSinceLastAnniversary, e.dailySalary)
         == ProportionalPart(p.proportionalVacationDays, p.vacationDays, p.vacationAmount)
      && p.vacationPremiumAmount == VacationPremium(p.vacationAmount)
  {
  }


  // ---------------------------------------------------------------------------
  // Severance indemnity (liquidación only)
  // ---------------------------------------------------------------------------

  /** The seniority-premium wage base: the SDI capped at twice the minimum wage. */
  function PremiumSalaryBase(sdi: real, salarioMinimo: real): (base: real)
    ensures base <= sdi && base <= 2.0 * salarioMinimo
    ensures base == sdi || base == 2.0 * salarioMinimo
  {
    Min(sdi, salarioMinimo * 2.0)
  }

  /** `(12 / 365) * daysWorkedInYear`: always over 365 days, whatever the year's length. */
  function ProportionalPremiumDays(daysWorkedInYear: int): real
  {
    (12.0 / 365.0) * daysWorkedInYear as real
  }

  /** The amount of a component when its toggle is on and no override is given. */
  function CalculatedComponent(c: Component, sdi: real, premiumBase: real, seniorityYears: int, daysWorkedInYear: int): real
  {
    match c
    case Indemnizacion90Dias => sdi * 90.0
    case VeinteDiasPorAnio => sdi * 20.0 * seniorityYears as real
    case PrimaAntiguedad => premiumBase * 12.0 * seniorityYears as real
    case PrimaAntiguedadProporcional => Round2(premiumBase * ProportionalPremiumDays(daysWorkedInYear))
  }

  /** `overrides[c] ?? (enabled ? computed : 0)`. */
  function Resolve(overrides: IndemnizacionOverrides, c: Component, enabled: bool, computed: real): real
  {
    if c in overrides then overrides[c] else if enabled then computed else 0.0
  }

  /** The four severance components, each resolved from its override, its toggle and its computed amount. */
  function ComputeIndemnizacion(sdi: real, salarioMinimo: real, seniorityYears: int, daysWorkedInYear: int,
                                horasExtrasDobles: real, horasExtrasTriples: real,
                                settings: IndemnizacionSettings, overrides: IndemnizacionOverrides): (d: IndemnizacionDetails)
    ensures d.total == d.indemnizacion90dias + d.veinteDiasPorAnio + d.primaAntiguedad + d.primaAntiguedadProporcional
    ensures d.primaAntiguedadSalaryBase == PremiumSalaryBase(sdi, salarioMinimo)
    ensures forall c :: ComponentAmount(d, c)
                        == Resolve(overrides, c, Enabled(settings, c),
                                   CalculatedComponent(c, sdi, d.primaAntiguedadSalaryBase, seniorityYears, daysWorkedInYear))
    ensures d.horasExtrasDobles == horasExtrasDobles && d.horasExtrasTriples == horasExtrasTriples
  {
    var base := PremiumSalaryBase(sdi, salarioMinimo);
    var amount := (c: Component) =>
      Resolve(overrides, c, Enabled(settings, c), CalculatedComponent(c, sdi, base, seniorityYears, daysWorkedInYear));
    var d90 := amount(Indemnizacion90Dias);
    var d20 := amount(VeinteDiasPorAnio);
    var prima := amount(PrimaAntiguedad);
    var primaProporcional := amount(PrimaAntiguedadProporcional);
    IndemnizacionDetails(d90, d20, prima, primaProporcional, horasExtrasDobles, horasExtrasTriples,
                         d90 + d20 + prima + primaProporcional, base)
  }

  /** An override is used verbatim, even when the component's toggle is off. */
  lemma OverrideAlwaysWins(sdi: real, salarioMinimo: real, seniorityYears: int, daysWorkedInYear: int,
                           dobles: real, triples: real, settings: IndemnizacionSettings,
                           overrides: IndemnizacionOverrides, c: Component)
    requires c in overrides
    ensures ComponentAmount(ComputeIndemnizacion(sdi, salarioMinimo, seniorityYears, daysWorkedInYear,
                                                 dobles, triples, settings, overrides), c) == overrides[c]
  {
  }

  /** Without an override, a component whose toggle is off is 0. */
  lemma DisabledComponentIsZero(sdi: real, salarioMinimo: real, seniorityYears: int, daysWorkedInYear: int,
                                dobles: real, triples: real, settings: IndemnizacionSettings,
                                overrides: IndemnizacionOverrides, c: Component)
    requires c !in overrides && !Enabled(settings, c)
    ensures ComponentAmount(ComputeIndemnizacion(sdi, salarioMinimo, seniorityYears, daysWorkedInYear,
                                                 dobles, triples, settings, overrides), c) == 0.0
  {
  }

  /** With no whole year of seniority and no overrides, the 20-days and seniority-premium components are 0. */
  lemma ZeroSeniorityNoSeniorityPay(sdi: real, salarioMinimo: real, daysWorkedInYear: int,
                                    dobles: real, triples: real, settings: IndemnizacionSettings,
                                    overrides: IndemnizacionOverrides)
    requires VeinteDiasPorAnio !in overrides && PrimaAntiguedad !in overrides
    ensures ComputeIndemnizacion(sdi, salarioMinimo, 0, daysWorkedInYear, dobles, triples, settings, overrides).veinteDiasPorAnio == 0.0
    ensures ComputeIndemnizacion(sdi, salarioMinimo, 0, daysWorkedInYear, dobles, triples, settings, overrides).primaAntiguedad == 0.0
  {
    var d := ComputeIndemnizacion(sdi, salarioMinimo, 0, daysWorkedInYear, dobles, triples, settings, overrides);
    assert ComponentAmount(d, VeinteDiasPorAnio) == d.veinteDiasPorAnio;
    assert ComponentAmount(d, PrimaAntiguedad) == d.primaAntiguedad;
  }

  /** More seniority never lowers the computed 20-days or seniority-premium amount. */
  lemma SeniorityPayMonotone(sdi: real, salarioMinimo: real, years1: int, years2: int, daysWorkedInYear: int)
    requires sdi >= 0.0 && salarioMinimo >= 0.0 && years1 <= years2
    ensures CalculatedComponent(VeinteDiasPorAnio, sdi, PremiumSalaryBase(sdi, salarioMinimo), years1, daysWorkedInYear)
            <= CalculatedComponent(VeinteDiasPorAnio, sdi, PremiumSalaryBase(sdi, salarioMinimo), years2, daysWorkedInYear)
    ensures CalculatedComponent(PrimaAntiguedad, sdi, PremiumSalaryBase(sdi, salarioMinimo), years1, daysWorkedInYear)
            <= CalculatedComponent(PrimaAntiguedad, sdi, PremiumSalaryBase(sdi, salarioMinimo), years2, daysWorkedInYear)
  {
    var base := PremiumSalaryBase(sdi, salarioMinimo);
    assert sdi * 20.0 * years1 as real <= sdi * 20.0 * years2 as real by {
      assert sdi * 20.0 >= 0.0;
    }
    assert base * 12.0 * years1 as real <= base * 12.0 * years2 as real by {
      assert base * 12.0 >= 0.0;
    }
  }

  /** The fixed 365 divisor: a full leap year of work earns more than 12 proportional premium days. */
  lemma ProportionalPremiumFixedDivisor()
    ensures ProportionalPremiumDays(365) == 12.0
    ensures ProportionalPremiumDays(366) > 12.0
  {
  }

  // ---------------------------------------------------------------------------
  // IMSS employee contribution
  // ---------------------------------------------------------------------------

  /** The contribution base (SDI capped at 25 UMA), its excess over 3 UMA and the five branches. */
  function ComputeImss(sdi: real, uma: real, salaryDays: real): (i: ImssCalculationDetails)
    ensures i.sbc <= sdi && i.sbc <= 25.0 * uma && (i.sbc == sdi || i.sbc == 25.0 * uma)
    ensures i.excedenteSbc >= 0.0 && i.excedenteSbc >= i.sbc - 3.0 * uma
    ensures i.excedenteSbc == 0.0 || i.excedenteSbc == i.sbc - 3.0 * uma
    ensures i.uma == uma && i.salaryDays == salaryDays
    ensures i.illnessAndMaternity == i.excedenteSbc * IMSS_RATES_EMPLOYEE.enfermedadMaternidadExcedente * salaryDays
    ensures i.prestacionesEnDinero == i.sbc * IMSS_RATES_EMPLOYEE.prestacionesDinero * salaryDays
    ensures i.gastosMedicosPensionados == i.sbc * IMSS_RATES_EMPLOYEE.gastosMedicosPensionados * salaryDays
    ensures i.disabilityAndLife == i.sbc * IMSS_RATES_EMPLOYEE.invalidezVida * salaryDays
    ensures i.unemploymentAndOldAge == i.sbc * IMSS_RATES_EMPLOYEE.cesantiaVejez * salaryDays
  {
    var sbc := Min(sdi, uma * 25.0);
    var excedente := Max(0.0, sbc - (3.0 * uma));
    var rates := IMSS_RATES_EMPLOYEE;
    ImssCalculationDetails(
      sbc, salaryDays, uma, excedente,
      excedente * rates.enfermedadMaternidadExcedente * salaryDays,
      sbc * rates.invalidezVida * salaryDays,
      sbc * rates.cesantiaVejez * salaryDays,
      sbc * rates.prestacionesDinero * salaryDays,
      sbc * rates.gastosMedicosPensionados * salaryDays)
  }

  /** The IMSS deduction: the sum of the five branches, in cents. */
  function ImssTotal(i: ImssCalculationDetails): (total: real)
    ensures IsCents(total)
    ensures total - 0.005 <= i.illnessAndMaternity + i.disabilityAndLife + i.unemploymentAndOldAge
                             + i.prestacionesEnDinero + i.gastosMedicosPensionados <= total + 0.005
  {
    Round2(i.illnessAndMaternity + i.disabilityAndLife + i.unemploymentAndOldAge
           + i.prestacionesEnDinero + i.gastosMedicosPensionados)
  }

  /** The IMSS deduction is never negative for a non-negative wage, UMA and day count. */
  lemma ImssNonNegative(sdi: real, uma: real, salaryDays: real)
    requires sdi >= 0.0 && uma >= 0.0 && salaryDays >= 0.0
    ensures ImssTotal(ComputeImss(sdi, uma, salaryDays)) >= 0.0
  {
    var i := ComputeImss(sdi, uma, salaryDays);
    var rates := IMSS_RATES_EMPLOYEE;
    assert i.sbc >= 0.0;
    assert i.illnessAndMaternity >= 0.0 by {
      assert i.excedenteSbc * rates.enfermedadMaternidadExcedente >= 0.0;
    }
    assert i.disabilityAndLife >= 0.0 by {
      assert i.sbc * rates.invalidezVida >= 0.0;
    }
    assert i.unemploymentAndOldAge >= 0.0 by {
      assert i.sbc * rates.cesantiaVejez >= 0.0;
    }
    assert i.prestacionesEnDinero >= 0.0 by {
      assert i.sbc * rates.prestacionesDinero >= 0.0;
    }
    assert i.gastosMedicosPensionados >= 0.0 by {
      assert i.sbc * rates.gastosMedicosPensionados >= 0.0;
    }
  }

  // ---------------------------------------------------------------------------
  // Severance ISR at the effective rate of the last ordinary month
  // ---------------------------------------------------------------------------

  /**
   * The last two severance fields: the effective rate of the notional month,
   * to four decimals (0 when that month pays nothing), and the tax on the
   * taxable severance at that rate, in cents.
   */
  function SeveranceDetailsOf(total: real, exempt: real, taxable: real, monthlyIncome: real, monthlyIsr: real)
    : (s: SeveranceIsrDetails)
    requires taxable >= 0.0 && monthlyIsr >= 0.0
    ensures s.severanceTotalIncome == total && s.severanceExempt == exempt && s.severanceTaxable == taxable
    ensures s.lastMonthlyOrdinaryIncome == monthlyIncome && s.isrForLastMonthlyOrdinaryIncome == monthlyIsr
    ensures monthlyIncome > 0.0 ==> s.lastMonthEffectiveRate == Round4(monthlyIsr / monthlyIncome)
    ensures monthlyIncome <= 0.0 ==> s.lastMonthEffectiveRate == 0.0
    ensures IsCents(s.isrOnSeverance)
    ensures taxable * s.lastMonthEffectiveRate - 0.005 <= s.isrOnSeverance <= taxable * s.lastMonthEffectiveRate + 0.005
    ensures s.lastMonthEffectiveRate >= 0.0 && s.isrOnSeverance >= 0.0
  {
    var ratio := if monthlyIncome > 0.0 then monthlyIsr / monthlyIncome else 0.0;
    var rate := Round4(ratio);
    SeveranceIsrDetails(total, exempt, taxable, monthlyIncome, monthlyIsr, rate, Round2(taxable * rate))
  }

  /**
   * Severance ISR: the severance above 90 UMA per year of service is taxed at
   * the effective rate (to 4 decimals) of a notional 30-day salary.
   */
  function SeveranceIsr(severanceTotalIncome: real, uma: real, seniorityYears: int, dailySalary: real,
                        terminationDate: Date): (s: SeveranceIsrDetails)
    ensures s.severanceTotalIncome == severanceTotalIncome
    ensures s.severanceExempt == 90.0 * uma * seniorityYears as real
    ensures s.severanceTaxable >= 0.0 && s.severanceTaxable >= severanceTotalIncome - s.severanceExempt
    ensures s.severanceTaxable == 0.0 || s.severanceTaxable == severanceTotalIncome - s.severanceExempt
    ensures s.lastMonthlyOrdinaryIncome == dailySalary * 30.0
    ensures s.isrForLastMonthlyOrdinaryIncome == IsrOnAmount(dailySalary * 30.0, uma, terminationDate).isr
    ensures s.lastMonthEffectiveRate >= 0.0
    ensures dailySalary <= 0.0 ==> s.lastMonthEffectiveRate == 0.0
    ensures s.isrOnSeverance >= 0.0 && IsCents(s.isrOnSeverance)
    ensures severanceTotalIncome <= s.severanceExempt ==> s.isrOnSeverance == 0.0
  {
    var severanceExempt := 90.0 * uma * seniorityYears as real;
    var severanceTaxable := Max(0.0, severanceTotalIncome - severanceExempt);
    var lastMonthlyOrdinaryIncome := dailySalary * 30.0;
    var isrInfo := IsrOnAmount(lastMonthlyOrdinaryIncome, uma, terminationDate);
    SeveranceDetailsOf(severanceTotalIncome, severanceExempt, severanceTaxable, lastMonthlyOrdinaryIncome, isrInfo.isr)
  }

  /**
   * The severance tax uses the effective rate of one month of ordinary pay:
   * that month's tax over that month's income, to four decimals, and the
   * taxable part times that rate, to the cent.
   */
  lemma SeveranceIsrRate(severanceTotalIncome: real, uma: real, seniorityYears: int, dailySalary: real, terminationDate: Date)
    ensures var s := SeveranceIsr(severanceTotalIncome, uma, seniorityYears, dailySalary, terminationDate);
            dailySalary > 0.0 ==> s.lastMonthEffectiveRate == Round4(s.isrForLastMonthlyOrdinaryIncome / s.lastMonthlyOrdinaryIncome)
  {
  }

  lemma SeveranceIsrTax(severanceTotalIncome: real, uma: real, seniorityYears: int, dailySalary: real, terminationDate: Date)
    ensures var s := SeveranceIsr(severanceTotalIncome, uma, seniorityYears, dailySalary, terminationDate);
            s.severanceTaxable * s.lastMonthEffectiveRate - 0.005 <= s.isrOnSeverance <= s.severanceTaxable * s.lastMonthEffectiveRate + 0.005
  {
  }

  // ---------------------------------------------------------------------------
  // The settlement
  // ---------------------------------------------------------------------------

  predicate ValidEmployeeDates(e: EmployeeData)
  {
    ValidDate(e.hireDate) && ValidDate(e.terminationDate)
  }

  function SeveranceTotal(indemnizacion: Option<IndemnizacionDetails>): real
  {
    if indemnizacion.Some? then indemnizacion.value.total else 0.0
  }

  /** Whole years between hiring and termination. */
  function SeniorityOf(employee: EmployeeData): int
    requires ValidEmployeeDates(employee)
  {
    SeniorityYears(DaysBetween(employee.hireDate, employee.terminationDate))
  }

  /** The vacation days of the year of service the worker is in. */
  function VacationEntitlementOf(employee: EmployeeData): int
    requires ValidEmployeeDates(employee)
  {
    VacationDaysForSeniority(SeniorityOf(employee) + 1)
  }

  /** The severance pay the ISR exemption applies to: the 90 days, the 20 days a year and both seniority premiums. */
  function SeveranceBase(d: IndemnizacionDetails): real
  {
    d.indemnizacion90dias + d.veinteDiasPorAnio + d.primaAntiguedad + d.primaAntiguedadProporcional
  }

  /** The bracket fields an ISR audit trail records. */
  function OrdinaryIsrOf(d: IsrCalculationDetails): OrdinaryIsr
  {
    OrdinaryIsr(d.lowerLimit, d.surplus, d.percentage, d.marginalTax, d.fixedQuota,
                d.totalMonthlyIsrBeforeSubsidy, d.subsidy, d.totalMonthlyIsr)
  }

  /** The deductions block; its displayed total is the sum rounded to cents. */
  function DeduccionesOf(isrFiniquito: real, isrLiquidacion: real, imss: real,
                         isrDetails: IsrCalculationDetails, imssDetails: ImssCalculationDetails): (d: Deducciones)
    ensures d.isrFiniquito == isrFiniquito && d.isrLiquidacion == isrLiquidacion && d.imss == imss
    ensures d.isrDetails == isrDetails && d.imssDetails == imssDetails
    ensures d.total == Round2(d.isrFiniquito + d.isrLiquidacion + d.imss)
  {
    Deducciones(isrFiniquito, isrLiquidacion, imss, Round2(isrFiniquito + isrLiquidacion + imss), isrDetails, imssDetails)
  }

  /**
   * A deductions block built by `DeduccionesOf` shows its sum rounded to cents.
   * This only restates `DeduccionesOf`'s contract for a block already built; it
   * is the rewrite step `DisplayedTotalsNearNet` uses.
   */
  lemma DeduccionesTotalRounded(d: Deducciones)
    requires d == DeduccionesOf(d.isrFiniquito, d.isrLiquidacion, d.imss, d.isrDetails, d.imssDetails)
    ensures d.total == Round2(d.isrFiniquito + d.isrLiquidacion + d.imss)
  {
  }

  /**
   * The settlement once the arguments are resolved: `uma` is the effective UMA,
   * `salaryDays` the resolved day count, and the prior-period amounts are
   * already zeroed for the first half of the month.
   */
  function CalculateWith(employee: EmployeeData, uma: real, salarioMinimo: real, calculationType: CalculationType,
                         previousPeriodIncome: real, previousPeriodIsr: real,
                         horasExtrasDobles: real, horasExtrasTriples: real, salaryDays: real,
                         additionalPerception: real, settings: IndemnizacionSettings,
                         overrides: IndemnizacionOverrides): (r: FiniquitoCalculation)
    requires ValidEmployeeDates(employee)
    ensures r.employee == employee && r.calculationType == calculationType
    ensures r.indemnizacion.Some? <==> calculationType == Liquidacion
    ensures r.deducciones.isrDetails.severance.Some? <==> calculationType == Liquidacion
    ensures calculationType == Finiquito ==> r.deducciones.isrLiquidacion == 0.0
    ensures r.netTotal == PerceptionLinesSum(r.percepciones) + SeveranceTotal(r.indemnizacion)
                          - (r.deducciones.isrFiniquito + r.deducciones.isrLiquidacion + r.deducciones.imss)
    ensures r.deducciones.isrFiniquito >= 0.0 && r.deducciones.isrLiquidacion >= 0.0
  {
    var hire := employee.hireDate;
    var term := employee.terminationDate;
    var seniorityYears := SeniorityOf(employee);
    var vacationDaysPerYear := VacationEntitlementOf(employee);
    var wage := IntegratedDailyWage(employee.dailySalary, vacationDaysPerYear);

    var p := ComputePercepciones(employee, uma, salaryDays, vacationDaysPerYear,
                                 horasExtrasDobles, horasExtrasTriples, additionalPerception);
    var indemnizacion :=
      if calculationType == Liquidacion then
        Some(ComputeIndemnizacion(wage.sdi, salarioMinimo, seniorityYears, p.daysWorkedInYear,
                                  horasExtrasDobles, horasExtrasTriples, settings, overrides))
      else None;
    var totalPercepciones := PerceptionLinesSum(p) + SeveranceTotal(indemnizacion);

    var imssDetails := ComputeImss(wage.sdi, uma, salaryDays);
    var imss := ImssTotal(imssDetails);

    var periodTaxableIncome := PeriodTaxableIncome(p);
    var totalMonthlyTaxableIncome := periodTaxableIncome + previousPeriodIncome;
    var ordinary := OrdinaryMonthlyIsr(totalMonthlyTaxableIncome, uma, IsJanuary2026(term));
    var isrFiniquito := Round2(Max(0.0, ordinary.totalMonthlyIsr - previousPeriodIsr));

    var severance :=
      if indemnizacion.Some? then
        var d := indemnizacion.value;
        Some(SeveranceIsr(SeveranceBase(d), uma, seniorityYears, employee.dailySalary, term))
      else None;
    var isrLiquidacion := if severance.Some? then severance.value.isrOnSeverance else 0.0;

    var isrDetails := IsrCalculationDetails(
      periodTaxableIncome, p.aguinaldoTaxable, p.vacationPremiumTaxable, p.vacationAntTaxable,
      previousPeriodIncome, previousPeriodIsr, totalMonthlyTaxableIncome,
      ordinary.lowerLimit, ordinary.surplus, ordinary.percentage, ordinary.marginalTax, ordinary.fixedQuota,
      ordinary.totalMonthlyIsrBeforeSubsidy, ordinary.subsidy, ordinary.totalMonthlyIsr,
      isrFiniquito, isrFiniquito + isrLiquidacion, severance);
    var totalDeductions := isrFiniquito + isrLiquidacion + imss;
    FiniquitoCalculation(
      employee, p, indemnizacion,
      DeduccionesOf(isrFiniquito, isrLiquidacion, imss, isrDetails, imssDetails),
      totalPercepciones - totalDeductions,
      wage.sdi, wage.dailyAguinaldo, wage.dailyVacationPremium, seniorityYears, calculationType)
  }

  /** The displayed perception total is the sum of the perception lines rounded to cents. */
  lemma CalculateWithPerceptionTotal(employee: EmployeeData, uma: real, salarioMinimo: real, calculationType: CalculationType,
                             previousPeriodIncome: real, previousPeriodIsr: real,
                             horasExtrasDobles: real, horasExtrasTriples: real, salaryDays: real,
                             additionalPerception: real, settings: IndemnizacionSettings,
                             overrides: IndemnizacionOverrides)
    requires ValidEmployeeDates(employee)
    ensures var r := CalculateWith(employee, uma, salarioMinimo, calculationType, previousPeriodIncome, previousPeriodIsr,
                                   horasExtrasDobles, horasExtrasTriples, salaryDays, additionalPerception, settings, overrides);
      r.percepciones.total == Round2(PerceptionLinesSum(r.percepciones))
  {
  }

  /** The deductions block is assembled by `DeduccionesOf` from its own amounts and audit trails. */
  lemma CalculateWithDeductions(employee: EmployeeData, uma: real, salarioMinimo: real, calculationType: CalculationType,
                                previousPeriodIncome: real, previousPeriodIsr: real,
                                horasExtrasDobles: real, horasExtrasTriples: real, salaryDays: real,
                                additionalPerception: real, settings: IndemnizacionSettings,
                                overrides: IndemnizacionOverrides)
    requires ValidEmployeeDates(employee)
    ensures var r := CalculateWith(employee, uma, salarioMinimo, calculationType, previousPeriodIncome, previousPeriodIsr,
                                   horasExtrasDobles, horasExtrasTriples, salaryDays, additionalPerception, settings, overrides);
      r.deducciones == DeduccionesOf(r.deducciones.isrFiniquito, r.deducciones.isrLiquidacion, r.deducciones.imss,
                                     r.deducciones.isrDetails, r.deducciones.imssDetails)
  {
  }

  /** The monthly ISR is never negative, and the seniority is the whole years between the two dates. */
  lemma CalculateWithSeniority(employee: EmployeeData, uma: real, salarioMinimo: real, calculationType: CalculationType,
                             previousPeriodIncome: real, previousPeriodIsr: real,
                             horasExtrasDobles: real, horasExtrasTriples: real, salaryDays: real,
                             additionalPerception: real, settings: IndemnizacionSettings,
                             overrides: IndemnizacionOverrides)
    requires ValidEmployeeDates(employee)
    ensures var r := CalculateWith(employee, uma, salarioMinimo, calculationType, previousPeriodIncome, previousPeriodIsr,
                                   horasExtrasDobles, horasExtrasTriples, salaryDays, additionalPerception, settings, overrides);
      && r.deducciones.isrDetails.totalMonthlyIsr >= 0.0
      && r.seniorityYears == SeniorityYears(DaysBetween(employee.hireDate, employee.terminationDate))
      && r.seniorityYears >= 0
  {
  }

  /** The ISR and IMSS audit trails record the arguments the calculation was given. */
  lemma CalculateWithAudit(employee: EmployeeData, uma: real, salarioMinimo: real, calculationType: CalculationType,
                             previousPeriodIncome: real, previousPeriodIsr: real,
                             horasExtrasDobles: real, horasExtrasTriples: real, salaryDays: real,
                             additionalPerception: real, settings: IndemnizacionSettings,
                             overrides: IndemnizacionOverrides)
    requires ValidEmployeeDates(employee)
    ensures var r := CalculateWith(employee, uma, salarioMinimo, calculationType, previousPeriodIncome, previousPeriodIsr,
                                   horasExtrasDobles, horasExtrasTriples, salaryDays, additionalPerception, settings, overrides);
      && r.deducciones.isrDetails.previousPeriodTaxableIncome == previousPeriodIncome
      && r.deducciones.isrDetails.previousPeriodIsr == previousPeriodIsr
      && r.deducciones.isrDetails.totalMonthlyTaxableIncome == PeriodTaxableIncome(r.percepciones) + previousPeriodIncome
      && r.deducciones.isrDetails.isrToWithhold == r.deducciones.isrFiniquito + r.deducciones.isrLiquidacion
      && r.deducciones.imssDetails.uma == uma && r.deducciones.imssDetails.salaryDays == salaryDays
      && r.percepciones.salaryDays == salaryDays
  {
  }

  /** The perceptions are those of the worker's seniority, and the integrated wage uses the same vacation entitlement. */
  lemma CalculateWithPercepciones(employee: EmployeeData, uma: real, salarioMinimo: real, calculationType: CalculationType,
                             previousPeriodIncome: real, previousPeriodIsr: real,
                             horasExtrasDobles: real, horasExtrasTriples: real, salaryDays: real,
                             additionalPerception: real, settings: IndemnizacionSettings,
                             overrides: IndemnizacionOverrides)
    requires ValidEmployeeDates(employee)
    ensures var r := CalculateWith(employee, uma, salarioMinimo, calculationType, previousPeriodIncome, previousPeriodIsr,
                                   horasExtrasDobles, horasExtrasTriples, salaryDays, additionalPerception, settings, overrides);
      && r.seniorityYears == SeniorityOf(employee)
      && r.percepciones == ComputePercepciones(employee, uma, salaryDays, VacationEntitlementOf(employee),
                                                  horasExtrasDobles, horasExtrasTriples, additionalPerception)
      && r.sdi == IntegratedDailyWage(employee.dailySalary, VacationEntitlementOf(employee)).sdi
  {
  }

  /** A liquidación pays the severance components computed on the integrated wage and the seniority. */
  lemma CalculateWithIndemnizacion(employee: EmployeeData, uma: real, salarioMinimo: real, calculationType: CalculationType,
                             previousPeriodIncome: real, previousPeriodIsr: real,
                             horasExtrasDobles: real, horasExtrasTriples: real, salaryDays: real,
                             additionalPerception: real, settings: IndemnizacionSettings,
                             overrides: IndemnizacionOverrides)
    requires ValidEmployeeDates(employee)
    ensures var r := CalculateWith(employee, uma, salarioMinimo, calculationType, previousPeriodIncome, previousPeriodIsr,
                                   horasExtrasDobles, horasExtrasTriples, salaryDays, additionalPerception, settings, overrides);
      calculationType == Liquidacion ==>
              r.indemnizacion == Some(ComputeIndemnizacion(r.sdi, salarioMinimo, r.seniorityYears, r.percepciones.daysWorkedInYear,
                                                           horasExtrasDobles, horasExtrasTriples, settings, overrides))
  {
  }

  /** The IMSS quotas are computed on the integrated wage, and the deduction is their total. */
  lemma CalculateWithImss(employee: EmployeeData, uma: real, salarioMinimo: real, calculationType: CalculationType,
                             previousPeriodIncome: real, previousPeriodIsr: real,
                             horasExtrasDobles: real, horasExtrasTriples: real, salaryDays: real,
                             additionalPerception: real, settings: IndemnizacionSettings,
                             overrides: IndemnizacionOverrides)
    requires ValidEmployeeDates(employee)
    ensures var r := CalculateWith(employee, uma, salarioMinimo, calculationType, previousPeriodIncome, previousPeriodIsr,
                                   horasExtrasDobles, horasExtrasTriples, salaryDays, additionalPerception, settings, overrides);
      && r.deducciones.imssDetails == ComputeImss(r.sdi, uma, salaryDays)
      && r.deducciones.imss == ImssTotal(r.deducciones.imssDetails)
  {
  }

  /** The ordinary ISR is the bracket computation on the month's taxable income with the termination month's subsidy. */
  lemma CalculateWithOrdinaryIsr(employee: EmployeeData, uma: real, salarioMinimo: real, calculationType: CalculationType,
                             previousPeriodIncome: real, previousPeriodIsr: real,
                             horasExtrasDobles: real, horasExtrasTriples: real, salaryDays: real,
                             additionalPerception: real, settings: IndemnizacionSettings,
                             overrides: IndemnizacionOverrides)
    requires ValidEmployeeDates(employee)
    ensures var r := CalculateWith(employee, uma, salarioMinimo, calculationType, previousPeriodIncome, previousPeriodIsr,
                                   horasExtrasDobles, horasExtrasTriples, salaryDays, additionalPerception, settings, overrides);
      OrdinaryMonthlyIsr(r.deducciones.isrDetails.totalMonthlyTaxableIncome, uma, IsJanuary2026(employee.terminationDate))
            == OrdinaryIsrOf(r.deducciones.isrDetails)
  {
  }

  /** The ordinary ISR withheld is the month's ISR less what was already withheld, never below 0, to the cent. */
  lemma CalculateWithIsrFiniquito(employee: EmployeeData, uma: real, salarioMinimo: real, calculationType: CalculationType,
                             previousPeriodIncome: real, previousPeriodIsr: real,
                             horasExtrasDobles: real, horasExtrasTriples: real, salaryDays: real,
                             additionalPerception: real, settings: IndemnizacionSettings,
                             overrides: IndemnizacionOverrides)
    requires ValidEmployeeDates(employee)
    ensures var r := CalculateWith(employee, uma, salarioMinimo, calculationType, previousPeriodIncome, previousPeriodIsr,
                                   horasExtrasDobles, horasExtrasTriples, salaryDays, additionalPerception, settings, overrides);
      && r.deducciones.isrFiniquito == Round2(Max(0.0, r.deducciones.isrDetails.totalMonthlyIsr - previousPeriodIsr))
      && r.deducciones.isrDetails.isrToWithholdOrdinary == r.deducciones.isrFiniquito
  {
  }

  /** In a liquidación the severance ISR is computed on the 90 days, the 20 days a year and both seniority premiums. */
  lemma CalculateWithSeveranceIsr(employee: EmployeeData, uma: real, salarioMinimo: real, calculationType: CalculationType,
                             previousPeriodIncome: real, previousPeriodIsr: real,
                             horasExtrasDobles: real, horasExtrasTriples: real, salaryDays: real,
                             additionalPerception: real, settings: IndemnizacionSettings,
                             overrides: IndemnizacionOverrides)
    requires ValidEmployeeDates(employee)
    ensures var r := CalculateWith(employee, uma, salarioMinimo, calculationType, previousPeriodIncome, previousPeriodIsr,
                                   horasExtrasDobles, horasExtrasTriples, salaryDays, additionalPerception, settings, overrides);
      && (calculationType == Liquidacion ==>
              r.deducciones.isrDetails.severance
              == Some(SeveranceIsr(SeveranceBase(r.indemnizacion.value), uma, r.seniorityYears,
                                   employee.dailySalary, employee.terminationDate)))
      && (calculationType == Liquidacion ==>
              r.deducciones.isrLiquidacion == r.deducciones.isrDetails.severance.value.isrOnSeverance)
  {
  }

  /**
   * What is left to withhold of a month's ISR after a prior withholding lies
   * between nothing and that ISR; with `CalculateWithIsrFiniquito` and
   * `CalculateWithSeniority` this bounds the settlement's ordinary ISR whenever
   * the prior withholding is not negative, as every amount the input form lets
   * through is.
   */
  lemma WithheldWithinMonthlyIsr(monthlyIsr: real, previousIsr: real)
    requires monthlyIsr >= 0.0 && previousIsr >= 0.0
    ensures 0.0 <= Round2(Max(0.0, monthlyIsr - previousIsr)) <= Round2(monthlyIsr)
  {
    Round2Monotone(Max(0.0, monthlyIsr - previousIsr), monthlyIsr);
  }

  /**
   * `calculateFiniquito(employee, umaInput, salarioMinimo, calculationType, ...adjustments)`.
   */
  function CalculateFiniquito(employee: EmployeeData, umaInput: real, salarioMinimo: real,
                              calculationType: CalculationType, adj: Adjustments): (r: FiniquitoCalculation)
    requires ValidEmployeeDates(employee)
    ensures r.employee == employee && r.calculationType == calculationType
    ensures r.indemnizacion.Some? <==> calculationType == Liquidacion
    ensures calculationType == Finiquito ==> r.deducciones.isrLiquidacion == 0.0
    ensures r.netTotal == PerceptionLinesSum(r.percepciones) + SeveranceTotal(r.indemnizacion)
                          - (r.deducciones.isrFiniquito + r.deducciones.isrLiquidacion + r.deducciones.imss)
    ensures r.deducciones.isrFiniquito >= 0.0 && r.deducciones.isrLiquidacion >= 0.0
  {
    var term := employee.terminationDate;
    var dayOfMonth := term.day;
    CalculateWith(employee, EffectiveUma(term, umaInput), salarioMinimo, calculationType,
                  PriorPeriodAmount(dayOfMonth, adj.previousPeriodIncome),
                  PriorPeriodAmount(dayOfMonth, adj.previousPeriodIsr),
                  adj.horasExtrasDobles, adj.horasExtrasTriples,
                  SalaryDays(dayOfMonth, adj.salaryDaysOverride),
                  adj.additionalPerception, adj.settings, adj.overrides)
  }

  /**
   * How the optional arguments reach the calculation: the January 2026 UMA
   * substitution, the prior period counted only after the 15th, and the
   * salary-days override used unless it is absent or NaN.
   */
  lemma ResolvedArguments(employee: EmployeeData, umaInput: real, salarioMinimo: real,
                          calculationType: CalculationType, adj: Adjustments)
    requires ValidEmployeeDates(employee)
    ensures var r := CalculateFiniquito(employee, umaInput, salarioMinimo, calculationType, adj);
      && r.deducciones.imssDetails.uma == (if IsJanuary2026(employee.terminationDate) then UMA_2025 else umaInput)
      && (employee.terminationDate.day <= 15 ==>
            r.deducciones.isrDetails.previousPeriodTaxableIncome == 0.0 && r.deducciones.isrDetails.previousPeriodIsr == 0.0)
      && (employee.terminationDate.day > 15 ==>
            r.deducciones.isrDetails.previousPeriodTaxableIncome == adj.previousPeriodIncome
            && r.deducciones.isrDetails.previousPeriodIsr == adj.previousPeriodIsr)
      && (adj.salaryDaysOverride.Some? && adj.salaryDaysOverride.value.Num? ==>
            r.percepciones.salaryDays == adj.salaryDaysOverride.value.value)
      && (adj.salaryDaysOverride.None? || adj.salaryDaysOverride.value.NaN? ==>
            1.0 <= r.percepciones.salaryDays <= 16.0)
  {
    var term := employee.terminationDate;
    var dayOfMonth := term.day;
    var salaryDays := SalaryDays(dayOfMonth, adj.salaryDaysOverride);
    var r := CalculateWith(employee, EffectiveUma(term, umaInput), salarioMinimo, calculationType,
                           PriorPeriodAmount(dayOfMonth, adj.previousPeriodIncome),
                           PriorPeriodAmount(dayOfMonth, adj.previousPeriodIsr),
                           adj.horasExtrasDobles, adj.horasExtrasTriples, salaryDays,
                           adj.additionalPerception, adj.settings, adj.overrides);
    CalculateWithAudit(employee, EffectiveUma(term, umaInput), salarioMinimo, calculationType,
                         PriorPeriodAmount(dayOfMonth, adj.previousPeriodIncome),
                         PriorPeriodAmount(dayOfMonth, adj.previousPeriodIsr),
                         adj.horasExtrasDobles, adj.horasExtrasTriples, salaryDays,
                         adj.additionalPerception, adj.settings, adj.overrides);
    assert r == CalculateFiniquito(employee, umaInput, salarioMinimo, calculationType, adj);
  }

  /** For a January 2026 termination the caller's UMA plays no part at all. */
  lemma JanuaryIgnoresUmaInput(employee: EmployeeData, uma1: real, uma2: real, salarioMinimo: real,
                               calculationType: CalculationType, adj: Adjustments)
    requires ValidEmployeeDates(employee) && IsJanuary2026(employee.terminationDate)
    ensures CalculateFiniquito(employee, uma1, salarioMinimo, calculationType, adj)
            == CalculateFiniquito(employee, uma2, salarioMinimo, calculationType, adj)
  {
  }

  /** In the first half of the month the prior-period income and ISR play no part. */
  lemma PriorPeriodIgnoredInFirstHalf(employee: EmployeeData, uma: real, salarioMinimo: real,
                                      calculationType: CalculationType, adj: Adjustments,
                                      income: real, isr: real)
    requires ValidEmployeeDates(employee) && employee.terminationDate.day <= 15
    ensures CalculateFiniquito(employee, uma, salarioMinimo, calculationType, adj)
            == CalculateFiniquito(employee, uma, salarioMinimo, calculationType,
                                  adj.(previousPeriodIncome := income, previousPeriodIsr := isr))
  {
  }

  /** A NaN salary-days override behaves exactly like an absent one. */
  lemma NaNOverrideIsAbsent(employee: EmployeeData, uma: real, salarioMinimo: real,
                            calculationType: CalculationType, adj: Adjustments)
    requires ValidEmployeeDates(employee)
    ensures CalculateFiniquito(employee, uma, salarioMinimo, calculationType, adj.(salaryDaysOverride := Some(NaN)))
            == CalculateFiniquito(employee, uma, salarioMinimo, calculationType, adj.(salaryDaysOverride := None))
  {
  }

  /** Scenario: an override of the 90-day component fixes it at exactly that amount. */
  lemma Override90DaysScenario(employee: EmployeeData, uma: real, salarioMinimo: real, adj: Adjustments)
    requires ValidEmployeeDates(employee)
    requires adj.overrides == map[Indemnizacion90Dias := 10000.0]
    ensures CalculateFiniquito(employee, uma, salarioMinimo, Liquidacion, adj).indemnizacion.value.indemnizacion90dias == 10000.0
  {
    var term := employee.terminationDate;
    var seniorityYears := SeniorityYears(DaysBetween(employee.hireDate, term));
    var wage := IntegratedDailyWage(employee.dailySalary, VacationDaysForSeniority(seniorityYears + 1));
    var d := ComputeIndemnizacion(wage.sdi, salarioMinimo, seniorityYears,
                                  DaysWorkedInYear(employee.hireDate, term),
                                  adj.horasExtrasDobles, adj.horasExtrasTriples, adj.settings, adj.overrides);
    assert ComponentAmount(d, Indemnizacion90Dias) == 10000.0;
  }

  /** Scenario: hired 15/01/2020, terminated 20/06/2024 (a leap year), on day 20 of the month. */
  lemma LeapYearScenario()
    ensures SeniorityYears(DaysBetween(Date(2020, 1, 15), Date(2024, 6, 20))) == 4
    ensures DefaultSalaryDays(20) == 5
    ensures DaysInYear(2024) == 366
  {
  }

  /** The same scenario: 172 days worked in 2024, the leap day included. */
  lemma LeapYearScenarioDays()
    ensures DaysWorkedInYear(Date(2020, 1, 15), Date(2024, 6, 20)) == 172
  {
  }

  /** The same scenario: the last anniversary is 15/01/2024, 158 days before the termination counting both ends. */
  lemma LeapYearScenarioAnniversary()
    ensures LastAnniversary(Date(2020, 1, 15), Date(2024, 6, 20)) == Date(2024, 1, 15)
    ensures DaysBetween(LastAnniversary(Date(2020, 1, 15), Date(2024, 6, 20)), Date(2024, 6, 20)) == 158
  {
    assert MakeDate(2024, 1, 15) == Date(2024, 1, 15);
  }

  /** Scenario: an income exactly at the subsidy limit still gets the subsidy. */
  lemma SubsidyLimitInclusive(uma: real, isJan2026: bool)
    requires uma > 0.0
    ensures OrdinaryMonthlyIsr(SUBSIDY_2026_INCOME_LIMIT, uma, isJan2026).subsidy > 0.0
    ensures OrdinaryMonthlyIsr(SUBSIDY_2026_INCOME_LIMIT + 0.01, uma, isJan2026).subsidy == 0.0
  {
  }

  /**
   * The net total is built from unrounded sums, so it can differ from the
   * rounded totals shown beside it, but by at most one cent.
   */
  lemma DisplayedTotalsNearNet(employee: EmployeeData, umaInput: real, salarioMinimo: real,
                               calculationType: CalculationType, adj: Adjustments)
    requires ValidEmployeeDates(employee)
    ensures var r := CalculateFiniquito(employee, umaInput, salarioMinimo, calculationType, adj);
      -0.01 <= r.netTotal - (r.percepciones.total + SeveranceTotal(r.indemnizacion) - r.deducciones.total) <= 0.01
  {
    var term := employee.terminationDate;
    var dayOfMonth := term.day;
    var salaryDays := SalaryDays(dayOfMonth, adj.salaryDaysOverride);
    var r := CalculateFiniquito(employee, umaInput, salarioMinimo, calculationType, adj);
    assert r == CalculateWith(employee, EffectiveUma(term, umaInput), salarioMinimo, calculationType,
                              PriorPeriodAmount(dayOfMonth, adj.previousPeriodIncome),
                              PriorPeriodAmount(dayOfMonth, adj.previousPeriodIsr),
                              adj.horasExtrasDobles, adj.horasExtrasTriples, salaryDays,
                              adj.additionalPerception, adj.settings, adj.overrides);
    CalculateWithPerceptionTotal(employee, EffectiveUma(term, umaInput), salarioMinimo, calculationType,
                                 PriorPeriodAmount(dayOfMonth, adj.previousPeriodIncome),
                                 PriorPeriodAmount(dayOfMonth, adj.previousPeriodIsr),
                                 adj.horasExtrasDobles, adj.horasExtrasTriples, salaryDays,
                                 adj.additionalPerception, adj.settings, adj.overrides);
    CalculateWithDeductions(employee, EffectiveUma(term, umaInput), salarioMinimo, calculationType,
                            PriorPeriodAmount(dayOfMonth, adj.previousPeriodIncome),
                            PriorPeriodAmount(dayOfMonth, adj.previousPeriodIsr),
                            adj.horasExtrasDobles, adj.horasExtrasTriples, salaryDays,
                            adj.additionalPerception, adj.settings, adj.overrides);
    var lines := PerceptionLinesSum(r.percepciones);
    var deductions := r.deducciones.isrFiniquito + r.deducciones.isrLiquidacion + r.deducciones.imss;
    DeduccionesTotalRounded(r.deducciones);
    assert -0.005 <= r.percepciones.total - lines <= 0.005;
    assert -0.005 <= r.deducciones.total - deductions <= 0.005;
  }
}
