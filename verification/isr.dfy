/**
 * Monthly ISR withholding (LISR article 96) with the 2026 employment subsidy.
 *
 * The table's brackets are closed intervals with one-cent gaps between them,
 * and both the lookup in `calculateIsrOnAmount` and the one written inline in
 * `calculateFiniquito` test `lowerLimit <= amount <= upperLimit`; an amount
 * below the first lower limit or inside a gap matches no bracket.  The helper
 * then answers ISR 0 and subsidy 0, while the inline computation takes a tax
 * before subsidy of 0 and still grants the subsidy.
 */
module Isr {
  import opened Wrappers
  import opened Numbers
  import opened Constants
  import opened Calendar

  /** `table.find(b => amount >= b.lowerLimit && amount <= b.upperLimit)`, as the index found. */
  function FindBracket(table: seq<Bracket>, amount: real): (r: Option<nat>)
    ensures r.Some? ==> r.value < |table| && table[r.value].Contains(amount)
    ensures r.Some? ==> forall j :: 0 <= j < r.value ==> !table[j].Contains(amount)
    ensures r.None? ==> forall j :: 0 <= j < |table| ==> !table[j].Contains(amount)
  {
    if table == [] then None
    else if table[0].Contains(amount) then Some(0)
    else match FindBracket(table[1..], amount)
      case None => None
      case Some(k) => Some(k + 1)
  }

  /** The amount lies strictly between the upper limit of one bracket and the lower limit of the next. */
  predicate InGap(table: seq<Bracket>, amount: real)
    requires ContiguousBrackets(table)
  {
    exists i :: 0 <= i < |table| - 1 && table[i].upperLimit.value < amount < table[i + 1].lowerLimit
  }

  /** In a contiguous table every bracket starts at or after the first one. */
  lemma {:induction false} LowerLimitsAscend(table: seq<Bracket>, i: nat)
    requires ContiguousBrackets(table) && i < |table|
    ensures table[0].lowerLimit <= table[i].lowerLimit
  {
    if i > 0 {
      LowerLimitsAscend(table, i - 1);
    }
  }

  lemma ContiguousTail(table: seq<Bracket>)
    requires ContiguousBrackets(table) && |table| >= 2
    ensures ContiguousBrackets(table[1..])
  {
  }

  /** A gap of the rest of a table is a gap of the table, above its first bracket. */
  lemma GapOfRest(table: seq<Bracket>, amount: real)
    requires ContiguousBrackets(table) && |table| >= 2 && ContiguousBrackets(table[1..])
    requires InGap(table[1..], amount)
    ensures InGap(table, amount) && amount > table[0].upperLimit.value
  {
    var rest := table[1..];
    var i :| 0 <= i < |rest| - 1 && rest[i].upperLimit.value < amount < rest[i + 1].lowerLimit;
    assert table[i + 1] == rest[i] && table[i + 2] == rest[i + 1];
    LowerLimitsAscend(rest, i);
    assert rest[0] == table[1];
  }

  /** A gap of a table is the one after its first bracket or a gap of the rest. */
  lemma GapOfTable(table: seq<Bracket>, amount: real)
    requires ContiguousBrackets(table) && |table| >= 2 && ContiguousBrackets(table[1..])
    requires InGap(table, amount)
    ensures (table[0].upperLimit.value < amount < table[1].lowerLimit) || InGap(table[1..], amount)
  {
    var rest := table[1..];
    var i :| 0 <= i < |table| - 1 && table[i].upperLimit.value < amount < table[i + 1].lowerLimit;
    if i > 0 {
      assert rest[i - 1] == table[i] && rest[i] == table[i + 1];
    }
  }

  /**
   * In a contiguous table the lookup misses exactly the amounts below the
   * first lower limit and those inside a one-cent gap.
   */
  lemma {:induction false} NoBracketIffGap(table: seq<Bracket>, amount: real)
    requires ContiguousBrackets(table)
    ensures FindBracket(table, amount).None? <==> amount < table[0].lowerLimit || InGap(table, amount)
  {
    if |table| == 1 {
      assert !InGap(table, amount);
    } else {
      var rest := table[1..];
      ContiguousTail(table);
      NoBracketIffGap(rest, amount);
      if InGap(rest, amount) {
        GapOfRest(table, amount);
      }
      if InGap(table, amount) {
        GapOfTable(table, amount);
      }
      if table[0].upperLimit.value < amount < table[1].lowerLimit {
        assert InGap(table, amount);
      }
      assert rest[0] == table[1];
      assert FindBracket(table, amount).None? <==> !table[0].Contains(amount) && FindBracket(rest, amount).None?;
    }
  }

  /** The 2026 table misses every amount below one cent and nothing else outside its gaps. */
  lemma IsrTableCoverage(x: real)
    ensures x < 0.01 ==> FindBracket(ISR_MONTHLY_TABLE_2026, x).None?
    ensures x >= 0.01 && !InGap(ISR_MONTHLY_TABLE_2026, x) ==> FindBracket(ISR_MONTHLY_TABLE_2026, x).Some?
  {
    IsrTableWellFormed();
    NoBracketIffGap(ISR_MONTHLY_TABLE_2026, x);
  }

  /** 844.595 falls between the first two brackets and 12598.025 between the third and fourth. */
  lemma IsrTableGapExamples()
    ensures FindBracket(ISR_MONTHLY_TABLE_2026, 844.595).None?
    ensures FindBracket(ISR_MONTHLY_TABLE_2026, 12598.025).None?
  {
    var t := ISR_MONTHLY_TABLE_2026;
    IsrTableWellFormed();
    NoBracketIffGap(t, 844.595);
    assert t[0].upperLimit.value < 844.595 < t[1].lowerLimit;
    NoBracketIffGap(t, 12598.025);
    assert t[2].upperLimit.value < 12598.025 < t[3].lowerLimit;
  }

  /** The subsidy rate: higher in January 2026 than in the rest of the year. */
  function SubsidyPercent(isJan2026: bool): real
  {
    if isJan2026 then SUBSIDY_2026_PERCENT_JAN else SUBSIDY_2026_PERCENT_FEB_DEC
  }

  predicate IsJanuary2026(d: Date)
  {
    d.year == 2026 && d.month == 1
  }

  /** The monthly subsidy: granted when the income is at most the limit (inclusive), else 0. */
  function Subsidy(amount: real, uma: real, isJan2026: bool): (s: real)
    ensures amount > SUBSIDY_2026_INCOME_LIMIT ==> s == 0.0
    ensures uma > 0.0 ==> (s > 0.0 <==> amount <= SUBSIDY_2026_INCOME_LIMIT)
    ensures uma >= 0.0 ==> s >= 0.0
  {
    if amount <= SUBSIDY_2026_INCOME_LIMIT then uma * SubsidyPercent(isJan2026) * MONTHLY_FACTOR else 0.0
  }

  /** For a positive UMA and an income within the limit, January 2026 grants the larger subsidy. */
  lemma JanuarySubsidyHigher(amount: real, uma: real)
    requires uma > 0.0 && amount <= SUBSIDY_2026_INCOME_LIMIT
    ensures Subsidy(amount, uma, true) > Subsidy(amount, uma, false)
  {
    SubsidyConstants();
    assert uma * SUBSIDY_2026_PERCENT_JAN > uma * SUBSIDY_2026_PERCENT_FEB_DEC;
  }

  datatype IsrResult = IsrResult(isr: real, subsidy: real)

  /** `ISR_MONTHLY_TABLE_2026.find(...)`: the bracket holding the amount, if any. */
  function TableBracket(amount: real): (r: Option<Bracket>)
    ensures r.None? <==> FindBracket(ISR_MONTHLY_TABLE_2026, amount).None?
    ensures r.Some? ==> r.value.Contains(amount)
    ensures r.Some? ==> r.value == ISR_MONTHLY_TABLE_2026[FindBracket(ISR_MONTHLY_TABLE_2026, amount).value]
  {
    match FindBracket(ISR_MONTHLY_TABLE_2026, amount)
    case None => None
    case Some(i) => Some(ISR_MONTHLY_TABLE_2026[i])
  }

  /** The rest of `calculateIsrOnAmount` once the lookup has answered. */
  function IsrAfterLookup(found: Option<Bracket>, amount: real, subsidy: real): (r: IsrResult)
    ensures r.isr >= 0.0
    ensures found.None? ==> r == IsrResult(0.0, 0.0)
    ensures found.Some? ==> r.subsidy == subsidy
    ensures found.Some? ==> r.isr == Max(0.0, (amount - found.value.lowerLimit) * found.value.percentage + found.value.fixedQuota - subsidy)
  {
    match found
    case None => IsrResult(0.0, 0.0)
    case Some(bracket) =>
      var surplus := amount - bracket.lowerLimit;
      var marginalTax := surplus * bracket.percentage;
      var isrBeforeSubsidy := marginalTax + bracket.fixedQuota;
      IsrResult(Max(0.0, isrBeforeSubsidy - subsidy), subsidy)
  }

  /** `calculateIsrOnAmount`: ISR after subsidy on a monthly amount; 0 and 0 when no bracket matches. */
  function IsrOnAmount(amount: real, uma: real, date: Date): (r: IsrResult)
    ensures r.isr >= 0.0
    ensures FindBracket(ISR_MONTHLY_TABLE_2026, amount).None? ==> r == IsrResult(0.0, 0.0)
    ensures FindBracket(ISR_MONTHLY_TABLE_2026, amount).Some? ==> r.subsidy == Subsidy(amount, uma, IsJanuary2026(date))
    ensures TableBracket(amount).Some? ==>
              var b := TableBracket(amount).value;
              r.isr == Max(0.0, (amount - b.lowerLimit) * b.percentage + b.fixedQuota - r.subsidy)
  {
    IsrAfterLookup(TableBracket(amount), amount, Subsidy(amount, uma, IsJanuary2026(date)))
  }

  /** The bracket fields of the ordinary ISR computation, as reported in its audit trail. */
  datatype OrdinaryIsr = OrdinaryIsr(
    lowerLimit: real,
    surplus: real,
    percentage: real,
    marginalTax: real,
    fixedQuota: real,
    totalMonthlyIsrBeforeSubsidy: real,
    subsidy: real,
    totalMonthlyIsr: real)

  /** The inline bracket computation once the lookup has answered; every bracket field is 0 on a miss. */
  function OrdinaryAfterLookup(found: Option<Bracket>, total: real, subsidy: real): (r: OrdinaryIsr)
    ensures r.totalMonthlyIsr == Max(0.0, r.totalMonthlyIsrBeforeSubsidy - r.subsidy)
    ensures r.subsidy == subsidy
    ensures found.None? ==>
              r.lowerLimit == 0.0 && r.percentage == 0.0 && r.fixedQuota == 0.0 && r.totalMonthlyIsrBeforeSubsidy == 0.0 &&
              r.surplus == 0.0 && r.marginalTax == 0.0
    ensures found.Some? ==>
              r.lowerLimit == found.value.lowerLimit && r.percentage == found.value.percentage && r.fixedQuota == found.value.fixedQuota
              && r.surplus == total - r.lowerLimit && r.marginalTax == r.surplus * r.percentage
              && r.totalMonthlyIsrBeforeSubsidy == r.marginalTax + r.fixedQuota
  {
    var lowerLimit := if found.Some? then found.value.lowerLimit else 0.0;
    var percentage := if found.Some? then found.value.percentage else 0.0;
    var fixedQuota := if found.Some? then found.value.fixedQuota else 0.0;
    var surplus := if found.Some? then total - lowerLimit else 0.0;
    var marginalTax := if found.Some? then surplus * percentage else 0.0;
    var beforeSubsidy := if found.Some? then marginalTax + fixedQuota else 0.0;
    OrdinaryIsr(lowerLimit, surplus, percentage, marginalTax, fixedQuota, beforeSubsidy, subsidy,
                Max(0.0, beforeSubsidy - subsidy))
  }

  /**
   * The inline bracket computation of `calculateFiniquito` on the month's total
   * taxable income: every bracket field is 0 when no bracket matches, yet the
   * subsidy is still computed.
   */
  function OrdinaryMonthlyIsr(total: real, uma: real, isJan2026: bool): (r: OrdinaryIsr)
    ensures r.totalMonthlyIsr == Max(0.0, r.totalMonthlyIsrBeforeSubsidy - r.subsidy)
    ensures r.subsidy == Subsidy(total, uma, isJan2026)
    ensures TableBracket(total).None? ==>
              r.lowerLimit == 0.0 && r.percentage == 0.0 && r.fixedQuota == 0.0 && r.totalMonthlyIsrBeforeSubsidy == 0.0 &&
              r.surplus == 0.0 && r.marginalTax == 0.0
    ensures TableBracket(total).Some? ==>
              var b := TableBracket(total).value;
              r.lowerLimit == b.lowerLimit && r.percentage == b.percentage && r.fixedQuota == b.fixedQuota
  {
    OrdinaryAfterLookup(TableBracket(total), total, Subsidy(total, uma, isJan2026))
  }

  /** Inside a bracket: the surplus over its lower limit, taxed at its rate, plus its fixed quota. */
  lemma OrdinaryIsrInBracket(total: real, uma: real, isJan2026: bool)
    ensures var r := OrdinaryMonthlyIsr(total, uma, isJan2026);
      TableBracket(total).Some? ==>
        && r.surplus == total - r.lowerLimit && r.marginalTax == r.surplus * r.percentage
        && r.totalMonthlyIsrBeforeSubsidy == r.marginalTax + r.fixedQuota
  {
    var found := TableBracket(total);
    assert OrdinaryMonthlyIsr(total, uma, isJan2026) == OrdinaryAfterLookup(found, total, Subsidy(total, uma, isJan2026));
  }

  /** Past the lookup, the two computations agree whenever the subsidy is not negative. */
  lemma AfterLookupAgrees(found: Option<Bracket>, amount: real, subsidy: real)
    requires found.Some? || subsidy >= 0.0
    ensures OrdinaryAfterLookup(found, amount, subsidy).totalMonthlyIsr == IsrAfterLookup(found, amount, subsidy).isr
  {
    if found.None? {
      assert OrdinaryAfterLookup(found, amount, subsidy).totalMonthlyIsr == Max(0.0, 0.0 - subsidy);
    }
  }

  /**
   * The inline computation and `calculateIsrOnAmount` agree on the final ISR
   * for every amount, gaps included, as long as the UMA is not negative.
   */
  lemma InlineIsrAgreesWithHelper(amount: real, uma: real, date: Date)
    requires uma >= 0.0
    ensures OrdinaryMonthlyIsr(amount, uma, IsJanuary2026(date)).totalMonthlyIsr == IsrOnAmount(amount, uma, date).isr
  {
    var found := TableBracket(amount);
    var subsidy := Subsidy(amount, uma, IsJanuary2026(date));
    assert OrdinaryMonthlyIsr(amount, uma, IsJanuary2026(date)) == OrdinaryAfterLookup(found, amount, subsidy);
    assert IsrOnAmount(amount, uma, date) == IsrAfterLookup(found, amount, subsidy);
    AfterLookupAgrees(found, amount, subsidy);
  }

  /** With a negative UMA the two disagree on an amount that matches no bracket. */
  lemma InlineIsrDiffersForNegativeUma()
    ensures OrdinaryMonthlyIsr(0.0, -1.0, false).totalMonthlyIsr > IsrOnAmount(0.0, -1.0, Date(2026, 3, 1)).isr
  {
    assert FindBracket(ISR_MONTHLY_TABLE_2026, 0.0).None?;
  }

  /** An amount inside a gap above the subsidy limit pays no ISR at all. */
  lemma GapAmountPaysNoIsr(uma: real, isJan2026: bool)
    ensures OrdinaryMonthlyIsr(12598.025, uma, isJan2026).totalMonthlyIsr == 0.0
    ensures OrdinaryMonthlyIsr(12598.02, uma, isJan2026).totalMonthlyIsr > 1000.0
  {
    IsrTableGapExamples();
    assert FindBracket(ISR_MONTHLY_TABLE_2026, 12598.02) == Some(2);
  }
}
