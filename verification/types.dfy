/**
 * The records the engine reads and produces.  Optional JavaScript fields
 * become `Option`, and the override object with optional keys becomes a map
 * from the closed set of severance components.
 */
module Types {
  import opened Wrappers
  import opened Numbers
  import opened Calendar

  /** One employee row as ingested: dates, daily salary and the amounts carried over. */
  datatype EmployeeData = EmployeeData(
    id: string,
    terminationDate: Date,
    hireDate: Date,
    fullName: string,
    rfc: string,
    position: string,
    location: string,
    dailySalary: real,
    vacAnt: real,
    overtime: real)

  /** `'finiquito' | 'liquidación'`. */
  datatype CalculationType = Finiquito | Liquidacion

  /** The four severance components. */
  datatype Component = Indemnizacion90Dias | VeinteDiasPorAnio | PrimaAntiguedad | PrimaAntiguedadProporcional

  datatype IndemnizacionSettings = IndemnizacionSettings(
    include90Days: bool,
    include20Days: bool,
    includeSeniorityPremium: bool,
    includeProportionalSeniorityPremium: bool)

  const DEFAULT_SETTINGS: IndemnizacionSettings := IndemnizacionSettings(true, true, true, true)

  /** Whether the toggle of component c is on. */
  function Enabled(settings: IndemnizacionSettings, c: Component): bool
  {
    match c
    case Indemnizacion90Dias => settings.include90Days
    case VeinteDiasPorAnio => settings.include20Days
    case PrimaAntiguedad => settings.includeSeniorityPremium
    case PrimaAntiguedadProporcional => settings.includeProportionalSeniorityPremium
  }

  /** An amount for a component replaces the computed one; a missing key means "not supplied". */
  type IndemnizacionOverrides = map<Component, real>

  /**
   * The optional arguments of `calculateFiniquito` after the employee, the UMA,
   * the minimum wage and the calculation type.  `salaryDaysOverride` is
   * absent (`None`), NaN or a value.
   */
  datatype Adjustments = Adjustments(
    previousPeriodIncome: real,
    previousPeriodIsr: real,
    horasExtrasDobles: real,
    horasExtrasTriples: real,
    salaryDaysOverride: Option<Number>,
    additionalPerception: real,
    settings: IndemnizacionSettings,
    overrides: IndemnizacionOverrides)

  /** The JavaScript default arguments. */
  const DEFAULT_ADJUSTMENTS: Adjustments := Adjustments(0.0, 0.0, 0.0, 0.0, None, 0.0, DEFAULT_SETTINGS, map[])

  datatype Percepciones = Percepciones(
    salaryDays: real,
    salaryAmount: real,
    aguinaldoDays: real,
    aguinaldoAmount: real,
    vacationDays: real,
    vacationAmount: real,
    vacationPremiumAmount: real,
    vacationAntDays: real,
    vacationAntAmount: real,
    additionalPerceptionAmount: real,
    overtimeAmount: real,
    overtimeTaxable: real,
    overtimeExempt: real,
    total: real,
    daysWorkedInYear: int,
    daysSinceLastAnniversary: int,
    daysInYear: int,
    vacationDaysPerYear: int,
    proportionalVacationDays: real,
    proportionalAguinaldoDays: real,
    salaryTaxable: real,
    salaryExempt: real,
    vacationTaxable: real,
    vacationExempt: real,
    aguinaldoTaxable: real,
    aguinaldoExempt: real,
    vacationPremiumTaxable: real,
    vacationPremiumExempt: real,
    vacationAntTaxable: real,
    vacationAntExempt: real)

  datatype IndemnizacionDetails = IndemnizacionDetails(
    indemnizacion90dias: real,
    veinteDiasPorAnio: real,
    primaAntiguedad: real,
    primaAntiguedadProporcional: real,
    horasExtrasDobles: real,
    horasExtrasTriples: real,
    total: real,
    primaAntiguedadSalaryBase: real)

  /** The final amount of component c. */
  function ComponentAmount(d: IndemnizacionDetails, c: Component): real
  {
    match c
    case Indemnizacion90Dias => d.indemnizacion90dias
    case VeinteDiasPorAnio => d.veinteDiasPorAnio
    case PrimaAntiguedad => d.primaAntiguedad
    case PrimaAntiguedadProporcional => d.primaAntiguedadProporcional
  }

  /** The severance-only part of the ISR audit trail. */
  datatype SeveranceIsrDetails = SeveranceIsrDetails(
    severanceTotalIncome: real,
    severanceExempt: real,
    severanceTaxable: real,
    lastMonthlyOrdinaryIncome: real,
    isrForLastMonthlyOrdinaryIncome: real,
    lastMonthEffectiveRate: real,
    isrOnSeverance: real)

  datatype IsrCalculationDetails = IsrCalculationDetails(
    periodTaxableIncome: real,
    aguinaldoTaxable: real,
    vacationPremiumTaxable: real,
    vacationAntTaxable: real,
    previousPeriodTaxableIncome: real,
    previousPeriodIsr: real,
    totalMonthlyTaxableIncome: real,
    lowerLimit: real,
    surplus: real,
    percentage: real,
    marginalTax: real,
    fixedQuota: real,
    totalMonthlyIsrBeforeSubsidy: real,
    subsidy: real,
    totalMonthlyIsr: real,
    isrToWithholdOrdinary: real,
    isrToWithhold: real,
    severance: Option<SeveranceIsrDetails>)

  datatype ImssCalculationDetails = ImssCalculationDetails(
    sbc: real,
    salaryDays: real,
    uma: real,
    excedenteSbc: real,
    illnessAndMaternity: real,
    disabilityAndLife: real,
    unemploymentAndOldAge: real,
    prestacionesEnDinero: real,
    gastosMedicosPensionados: real)

  datatype Deducciones = Deducciones(
    isrFiniquito: real,
    isrLiquidacion: real,
    imss: real,
    total: real,
    isrDetails: IsrCalculationDetails,
    imssDetails: ImssCalculationDetails)

  datatype FiniquitoCalculation = FiniquitoCalculation(
    employee: EmployeeData,
    percepciones: Percepciones,
    indemnizacion: Option<IndemnizacionDetails>,
    deducciones: Deducciones,
    netTotal: real,
    sdi: real,
    dailyAguinaldo: real,
    dailyVacationPremium: real,
    seniorityYears: int,
    calculationType: CalculationType)
}
