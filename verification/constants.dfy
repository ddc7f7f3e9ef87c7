/**
 * The statutory figures for 2025-2026: UMA values, the minimum wage, the
 * year-end bonus and vacation-premium factors, the LFT article 76 vacation
 * table for the first five years, the LISR article 96 monthly ISR table, the
 * employment-subsidy parameters and the employee's IMSS rates.
 */
module Constants {

  const UMA_2025: real := 113.14
  /** In force from February 2026. */
  const UMA_2026: real := 117.31
  const DEFAULT_UMA: real := 117.31

  const DEFAULT_SALARIO_MINIMO: real := 315.04
  const AGUINALDO_DAYS: real := 15.0
  const VACATION_PREMIUM_RATE: real := 0.25

  /** Vacation days by year of service (LFT article 76), years 1 to 5 only. */
  const VACATION_DAYS_BY_SENIORITY: map<int, int> := map[1 := 12, 2 := 14, 3 := 16, 4 := 18, 5 := 20]

  /** The upper limit of a bracket; the last one has none (`Infinity`). */
  datatype UpperLimit = UpTo(value: real) | Unbounded

  /** One row of the monthly ISR table: [lowerLimit, upperLimit], its fixed quota and marginal rate. */
  datatype Bracket = Bracket(lowerLimit: real, upperLimit: UpperLimit, fixedQuota: real, percentage: real)
  {
    /** `amount >= lowerLimit && amount <= upperLimit`. */
    predicate Contains(amount: real)
    {
      lowerLimit <= amount && (upperLimit.Unbounded? || amount <= upperLimit.value)
    }
  }

  const ISR_MONTHLY_TABLE_2026: seq<Bracket> := [
    Bracket(0.01, UpTo(844.59), 0.00, 0.0192),
    Bracket(844.60, UpTo(7168.51), 16.22, 0.0640),
    Bracket(7168.52, UpTo(12598.02), 420.95, 0.1088),
    Bracket(12598.03, UpTo(14644.64), 1011.68, 0.1600),
    Bracket(14644.65, UpTo(17533.64), 1339.14, 0.1792),
    Bracket(17533.65, UpTo(35362.83), 1856.84, 0.2136),
    Bracket(35362.84, UpTo(55736.68), 5665.16, 0.2352),
    Bracket(55736.69, UpTo(106410.50), 10457.09, 0.3000),
    Bracket(106410.51, UpTo(141880.66), 25659.23, 0.3200),
    Bracket(141880.67, UpTo(425641.99), 37009.69, 0.3400),
    Bracket(425642.00, Unbounded, 133488.54, 0.3500)
  ]

  const SUBSIDY_2026_INCOME_LIMIT: real := 11492.66
  const SUBSIDY_2026_PERCENT_JAN: real := 0.1559
  const SUBSIDY_2026_PERCENT_FEB_DEC: real := 0.1502
  const MONTHLY_FACTOR: real := 30.4

  /** The employee's share of each IMSS branch, as a fraction of the base. */
  datatype ImssRates = ImssRates(
    enfermedadMaternidadCuotaFija: real,
    enfermedadMaternidadExcedente: real,
    invalidezVida: real,
    cesantiaVejez: real,
    prestacionesDinero: real,
    gastosMedicosPensionados: real)

  const IMSS_RATES_EMPLOYEE: ImssRates := ImssRates(0.0, 0.004, 0.00625, 0.01125, 0.0025, 0.00375)

  /**
   * A table of closed brackets, each lower limit one cent above the previous
   * upper limit, every bracket non-empty, and only the last one unbounded.
   */
  predicate ContiguousBrackets(t: seq<Bracket>)
  {
    && |t| > 0
    && t[|t| - 1].upperLimit.Unbounded?
    && (forall i :: 0 <= i < |t| - 1 ==> t[i].upperLimit.UpTo?)
    && (forall i :: 0 <= i < |t| - 1 ==> t[i].lowerLimit <= t[i].upperLimit.value)
    && (forall i :: 0 <= i < |t| - 1 ==> t[i + 1].lowerLimit == t[i].upperLimit.value + 0.01)
  }

  /** Marginal rates and fixed quotas both strictly increase from one bracket to the next. */
  predicate Progressive(t: seq<Bracket>)
  {
    forall i :: 0 <= i < |t| - 1 ==> t[i].percentage < t[i + 1].percentage && t[i].fixedQuota < t[i + 1].fixedQuota
  }

  lemma IsrTableWellFormed()
    ensures ISR_MONTHLY_TABLE_2026[0].lowerLimit == 0.01
    ensures ContiguousBrackets(ISR_MONTHLY_TABLE_2026)
    ensures Progressive(ISR_MONTHLY_TABLE_2026)
  {
    var t := ISR_MONTHLY_TABLE_2026;
    forall i | 0 <= i < |t| - 1
      ensures t[i].upperLimit.UpTo? && t[i].lowerLimit <= t[i].upperLimit.value
      ensures t[i + 1].lowerLimit == t[i].upperLimit.value + 0.01
      ensures t[i].percentage < t[i + 1].percentage && t[i].fixedQuota < t[i + 1].fixedQuota
    {
      // one case per adjacent pair of rows
      if i == 0 {} else if i == 1 {} else if i == 2 {} else if i == 3 {} else if i == 4 {}
      else if i == 5 {} else if i == 6 {} else if i == 7 {} else if i == 8 {} else if i == 9 {}
    }
  }

  lemma SubsidyConstants()
    ensures SUBSIDY_2026_PERCENT_JAN > SUBSIDY_2026_PERCENT_FEB_DEC > 0.0
    ensures SUBSIDY_2026_INCOME_LIMIT > 0.0 && MONTHLY_FACTOR > 0.0
  {
  }

  lemma UmaConstants()
    ensures 0.0 < UMA_2025 < UMA_2026
    ensures DEFAULT_UMA == UMA_2026
  {
  }

  lemma ImssRatesNonNegative()
    ensures IMSS_RATES_EMPLOYEE.enfermedadMaternidadCuotaFija == 0.0
    ensures IMSS_RATES_EMPLOYEE.enfermedadMaternidadExcedente >= 0.0
    ensures IMSS_RATES_EMPLOYEE.invalidezVida >= 0.0
    ensures IMSS_RATES_EMPLOYEE.cesantiaVejez >= 0.0
    ensures IMSS_RATES_EMPLOYEE.prestacionesDinero >= 0.0
    ensures IMSS_RATES_EMPLOYEE.gastosMedicosPensionados >= 0.0
  {
  }
}
