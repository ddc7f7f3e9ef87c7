/**
 * The part of the screen logic that decides what reaches `calculateFiniquito`:
 * the sanitiser applied to every override text field, the override record
 * built from those fields, and the arguments each employee gets when all
 * settlements are recalculated.
 */
module App {
  import opened Wrappers
  import opened Numbers
  import opened Text
  import opened Calendar
  import opened Types
  import opened Settlement

  // ---------------------------------------------------------------------------
  // The override sanitiser
  // ---------------------------------------------------------------------------

  predicate IsDigitOrDot(c: char)
  {
    IsDigit(c) || c == '.'
  }

  predicate DigitsAndDots(s: string)
  {
    forall i :: 0 <= i < |s| ==> IsDigitOrDot(s[i])
  }

  /** `value.replace(/[^0-9.]/g, '')`: every character other than a digit or a dot removed, the rest in order. */
  function KeepDigitsAndDots(s: string): (r: string)
    ensures DigitsAndDots(r)
    ensures |r| <= |s|
    ensures DigitsAndDots(s) ==> r == s
  {
    if s == [] then []
    else if IsDigitOrDot(s[0]) then [s[0]] + KeepDigitsAndDots(s[1..])
    else KeepDigitsAndDots(s[1..])
  }

  /** Filtering distributes over concatenation, so it works character by character. */
  lemma {:induction false} KeepDigitsAndDotsAppend(a: string, b: string)
    ensures KeepDigitsAndDots(a + b) == KeepDigitsAndDots(a) + KeepDigitsAndDots(b)
  {
    if a == [] {
      assert a + b == b;
    } else {
      assert (a + b)[0] == a[0] && (a + b)[1..] == a[1..] + b;
      KeepDigitsAndDotsAppend(a[1..], b);
    }
  }

  /** On one character: a digit or a dot stays, anything else goes. */
  lemma KeepDigitsAndDotsSingle(c: char)
    ensures KeepDigitsAndDots([c]) == if IsDigitOrDot(c) then [c] else []
  {
    assert [c][1..] == [];
  }

  lemma CountCons(c: char, s: string, x: char)
    ensures Count([c] + s, x) == (if c == x then 1 else 0) + Count(s, x)
  {
    assert ([c] + s)[1..] == s;
  }

  /**
   * `.replace(/(\..*?)\..*\/g, '$1')` on digits and dots: the text up to, and
   * not including, its second dot; `seenDot` says one dot was already kept.
   */
  function CutAtSecondDot(s: string, seenDot: bool): (r: string)
    ensures |r| <= |s| && r == s[..|r|]
    ensures Count(r, '.') <= (if seenDot then 0 else 1)
    ensures |r| < |s| ==> s[|r|] == '.' && (seenDot || Count(r, '.') == 1)
  {
    if s == [] then []
    else if s[0] == '.' && seenDot then []
    else
      var rest := CutAtSecondDot(s[1..], seenDot || s[0] == '.');
      CountCons(s[0], rest, '.');
      [s[0]] + rest
  }

  /**
   * The sanitiser of `handleIndemnizacionOverrideChange`: the longest prefix
   * of the digits and dots of the input that has at most one dot.
   */
  function SanitizeOverride(value: string): (r: string)
    ensures DigitsAndDots(r)
    ensures Count(r, '.') <= 1
    ensures |r| <= |KeepDigitsAndDots(value)| && r == KeepDigitsAndDots(value)[..|r|]
    ensures |r| < |KeepDigitsAndDots(value)| ==> KeepDigitsAndDots(value)[|r|] == '.' && Count(r, '.') == 1
  {
    CutAtSecondDot(KeepDigitsAndDots(value), false)
  }

  /** Text with at most the dots already allowed is not cut. */
  lemma {:induction false} CutWithoutSecondDot(s: string, seenDot: bool)
    requires Count(s, '.') <= (if seenDot then 0 else 1)
    ensures CutAtSecondDot(s, seenDot) == s
  {
    if s != [] {
      CountCons(s[0], s[1..], '.');
      assert [s[0]] + s[1..] == s;
      CutWithoutSecondDot(s[1..], seenDot || s[0] == '.');
    }
  }

  /** Input that is already a plain decimal (digits and at most one dot) is left as it is. */
  lemma SanitizeKeepsCleanInput(value: string)
    requires DigitsAndDots(value) && Count(value, '.') <= 1
    ensures SanitizeOverride(value) == value
  {
    CutWithoutSecondDot(value, false);
  }

  /** Sanitising twice is sanitising once. */
  lemma SanitizeIdempotent(value: string)
    ensures SanitizeOverride(SanitizeOverride(value)) == SanitizeOverride(value)
  {
    SanitizeKeepsCleanInput(SanitizeOverride(value));
  }

  predicate HasDigit(s: string)
  {
    exists i :: 0 <= i < |s| && IsDigit(s[i])
  }

  /** A character the text does not count is not in it. */
  lemma {:induction false} UncountedAbsent(s: string, x: char)
    requires Count(s, x) == 0
    ensures x !in s
  {
    if s != [] {
      CountCons(s[0], s[1..], x);
      assert [s[0]] + s[1..] == s;
      UncountedAbsent(s[1..], x);
    }
  }

  /** How `parseFloat` reads text starting with a dot and holding no other dot. */
  lemma LeadingDotParses(r: string)
    requires DigitsAndDots(r) && r != [] && r[0] == '.' && '.' !in r[1..]
    ensures ScanUnsigned(r).Some? <==> |r| > 1
  {
    assert LeadingDigits(r) == 0;
    if |r| > 1 {
      assert r[1..][0] == r[1];
      assert IsDigit(r[1]);
    } else {
      assert r[1..] == [];
    }
  }

  /**
   * A sanitised field reads as a number exactly when it holds a digit, and
   * that number is never negative.
   */
  lemma SanitizedFieldParses(value: string)
    ensures var r := SanitizeOverride(value);
      (ParseFloat(r).Num? <==> HasDigit(r)) && (ParseFloat(r).Num? ==> ParseFloat(r).value >= 0.0)
  {
    var r := SanitizeOverride(value);
    if r == [] {
      ParseFloatOfEmpty(r);
    } else {
      assert IsDigitOrDot(r[0]);
      assert !IsSpace(r[0]);
      assert TrimStart(r) == r;
      assert ScanDecimal(r) == ScanUnsigned(r);
      if r[0] == '.' {
        CountCons(r[0], r[1..], '.');
        assert [r[0]] + r[1..] == r;
        UncountedAbsent(r[1..], '.');
        LeadingDotParses(r);
        if |r| > 1 {
          assert IsDigit(r[1]);
        }
      } else {
        assert IsDigit(r[0]);
      }
    }
  }

  // ---------------------------------------------------------------------------
  // The override record
  // ---------------------------------------------------------------------------

  /** The four override text fields, in the order the record declares them. */
  datatype OverrideInputs = OverrideInputs(
    indemnizacion90dias: string,
    veinteDiasPorAnio: string,
    primaAntiguedad: string,
    primaAntiguedadProporcional: string)

  const INITIAL_OVERRIDE_INPUTS: OverrideInputs := OverrideInputs("", "", "", "")

  const ALL_COMPONENTS: set<Component> :=
    {Indemnizacion90Dias, VeinteDiasPorAnio, PrimaAntiguedad, PrimaAntiguedadProporcional}

  lemma AllComponentsListed(c: Component)
    ensures c in ALL_COMPONENTS
  {
  }

  function InputFor(inputs: OverrideInputs, c: Component): string
  {
    match c
    case Indemnizacion90Dias => inputs.indemnizacion90dias
    case VeinteDiasPorAnio => inputs.veinteDiasPorAnio
    case PrimaAntiguedad => inputs.primaAntiguedad
    case PrimaAntiguedadProporcional => inputs.primaAntiguedadProporcional
  }

  /** `{...prev, [key]: text}`. */
  function WithInput(inputs: OverrideInputs, c: Component, text: string): (r: OverrideInputs)
    ensures InputFor(r, c) == text
    ensures forall d :: d != c ==> InputFor(r, d) == InputFor(inputs, d)
  {
    match c
    case Indemnizacion90Dias => inputs.(indemnizacion90dias := text)
    case VeinteDiasPorAnio => inputs.(veinteDiasPorAnio := text)
    case PrimaAntiguedad => inputs.(primaAntiguedad := text)
    case PrimaAntiguedadProporcional => inputs.(primaAntiguedadProporcional := text)
  }

  /** The position of a key in `Object.entries` of the record. */
  function KeyIndex(c: Component): (i: nat)
    ensures i < 4
  {
    match c
    case Indemnizacion90Dias => 0
    case VeinteDiasPorAnio => 1
    case PrimaAntiguedad => 2
    case PrimaAntiguedadProporcional => 3
  }

  lemma KeyIndexInjective(c: Component, d: Component)
    requires KeyIndex(c) == KeyIndex(d)
    ensures c == d
  {
  }

  /** `Object.entries(indemnizacionOverrides)`. */
  function Entries(inputs: OverrideInputs): (entries: seq<(Component, string)>)
    ensures |entries| == 4
    ensures forall i :: 0 <= i < 4 ==> KeyIndex(entries[i].0) == i && entries[i].1 == InputFor(inputs, entries[i].0)
  {
    [(Indemnizacion90Dias, inputs.indemnizacion90dias),
     (VeinteDiasPorAnio, inputs.veinteDiasPorAnio),
     (PrimaAntiguedad, inputs.primaAntiguedad),
     (PrimaAntiguedadProporcional, inputs.primaAntiguedadProporcional)]
  }

  /** A field counts as an override when it is not empty and `parseFloat` reads a number from it. */
  function OverrideValue(text: string): Option<real>
  {
    if text != "" then
      match ParseFloat(text)
      case Num(v) => Some(v)
      case NaN => None
    else None
  }

  /** The record holding a key for every component whose field gives a value. */
  function FieldOverrides(field: Component -> Option<real>): (overrides: IndemnizacionOverrides)
    ensures forall c :: c in overrides <==> field(c).Some?
    ensures forall c :: c in overrides ==> overrides[c] == field(c).value
  {
    var overrides := map c | c in ALL_COMPONENTS && field(c).Some? :: field(c).value;
    forall c ensures c in overrides <==> field(c).Some? {
      AllComponentsListed(c);
    }
    overrides
  }

  /** The override record the fields describe. */
  function OverridesFor(inputs: OverrideInputs): IndemnizacionOverrides
  {
    FieldOverrides(c => OverrideValue(InputFor(inputs, c)))
  }

  /**
   * A component reaches the engine only when its field is not empty and
   * `parseFloat` reads a number from it; otherwise its key is absent, not 0.
   */
  lemma OverrideKeyRule(inputs: OverrideInputs, c: Component)
    ensures c in OverridesFor(inputs) <==> InputFor(inputs, c) != "" && ParseFloat(InputFor(inputs, c)).Num?
    ensures c in OverridesFor(inputs) ==> OverridesFor(inputs)[c] == ParseFloat(InputFor(inputs, c)).value
  {
    var field := (d: Component) => OverrideValue(InputFor(inputs, d));
    assert OverridesFor(inputs) == FieldOverrides(field);
    assert c in FieldOverrides(field) <==> field(c).Some?;
  }

  /** The `reduce` over the entries that fills the override record one key at a time. */
  method BuildOverrides(inputs: OverrideInputs) returns (acc: IndemnizacionOverrides)
    ensures acc == OverridesFor(inputs)
  {
    var entries := Entries(inputs);
    acc := map[];
    var i := 0;
    while i < |entries|
      invariant 0 <= i <= |entries|
      invariant forall c :: c in acc <==> KeyIndex(c) < i && OverrideValue(InputFor(inputs, c)).Some?
      invariant forall c :: c in acc ==> acc[c] == OverrideValue(InputFor(inputs, c)).value
    {
      var (key, value) := entries[i];
      ghost var before := acc;
      ghost var found := OverrideValue(value);
      if value != "" {
        var num := ParseFloat(value);
        if num.Num? {
          acc := acc[key := num.value];
        }
      }
      assert acc == if found.Some? then before[key := found.value] else before;
      forall c | KeyIndex(c) == i
        ensures c == key
      {
        KeyIndexInjective(c, key);
      }
      i := i + 1;
    }
    assert forall c :: c in acc <==> c in OverridesFor(inputs);
  }

  /** The initial, empty fields give no overrides. */
  lemma InitialInputsNoOverrides()
    ensures OverridesFor(INITIAL_OVERRIDE_INPUTS) == map[]
  {
    var field := (d: Component) => OverrideValue(InputFor(INITIAL_OVERRIDE_INPUTS, d));
    assert forall d :: field(d) == None;
    assert OverridesFor(INITIAL_OVERRIDE_INPUTS) == FieldOverrides(field);
    assert FieldOverrides(field).Keys == {};
  }

  /** A sanitised field becomes an override exactly when it holds a digit, and never a negative one. */
  lemma SanitizedOverrideApplies(inputs: OverrideInputs, c: Component, value: string)
    ensures var overrides := OverridesFor(WithInput(inputs, c, SanitizeOverride(value)));
      && (c in overrides <==> HasDigit(SanitizeOverride(value)))
      && (c in overrides ==> overrides[c] >= 0.0)
  {
    var updated := WithInput(inputs, c, SanitizeOverride(value));
    SanitizedFieldParses(value);
    OverrideKeyRule(updated, c);
    assert InputFor(updated, c) == SanitizeOverride(value);
  }

  // ---------------------------------------------------------------------------
  // Per-employee arguments when every settlement is recalculated
  // ---------------------------------------------------------------------------

  /** The adjustment panel: free-text amounts, the component toggles and the override fields. */
  datatype AdjustmentInputs = AdjustmentInputs(
    adjustmentIncome: string,
    adjustmentIsr: string,
    horasExtrasDobles: string,
    horasExtrasTriples: string,
    salaryDaysOverride: string,
    additionalPerception: string,
    settings: IndemnizacionSettings,
    overrides: OverrideInputs)

  /** `parseFloat(text) || 0`. */
  function NumberOrZero(text: string): real
  {
    OrZero(ParseFloat(text))
  }

  predicate IsSelected(emp: EmployeeData, selectedId: Option<string>)
  {
    selectedId == Some(emp.id)
  }

  /**
   * The optional arguments one employee gets: the panel's values for the
   * selected employee, and for every other one zeros, a NaN salary-days
   * override, all components enabled and no overrides.
   */
  function ArgumentsFor(emp: EmployeeData, selectedId: Option<string>, ui: AdjustmentInputs): (adj: Adjustments)
    ensures !IsSelected(emp, selectedId) ==>
              adj == DEFAULT_ADJUSTMENTS.(salaryDaysOverride := Some(NaN))
    ensures IsSelected(emp, selectedId) ==>
              && adj.previousPeriodIncome == NumberOrZero(ui.adjustmentIncome)
              && adj.previousPeriodIsr == NumberOrZero(ui.adjustmentIsr)
              && adj.horasExtrasDobles == NumberOrZero(ui.horasExtrasDobles)
              && adj.horasExtrasTriples == NumberOrZero(ui.horasExtrasTriples)
              && adj.additionalPerception == NumberOrZero(ui.additionalPerception)
              && adj.salaryDaysOverride == Some(ParseFloat(ui.salaryDaysOverride))
              && adj.settings == ui.settings
              && adj.overrides == OverridesFor(ui.overrides)
  {
    var isSelected := IsSelected(emp, selectedId);
    Adjustments(
      if isSelected then NumberOrZero(ui.adjustmentIncome) else 0.0,
      if isSelected then NumberOrZero(ui.adjustmentIsr) else 0.0,
      if isSelected then NumberOrZero(ui.horasExtrasDobles) else 0.0,
      if isSelected then NumberOrZero(ui.horasExtrasTriples) else 0.0,
      Some(if isSelected then ParseFloat(ui.salaryDaysOverride) else NaN),
      if isSelected then NumberOrZero(ui.additionalPerception) else 0.0,
      if isSelected then ui.settings else DEFAULT_SETTINGS,
      if isSelected then OverridesFor(ui.overrides) else map[])
  }

  /** `employees.map(emp => calculateFiniquito(emp, uma, salarioMinimo, calculationType, ...))`. */
  function RecalculateAll(employees: seq<EmployeeData>, uma: real, salarioMinimo: real,
                          calculationType: CalculationType, selectedId: Option<string>,
                          ui: AdjustmentInputs): (results: seq<FiniquitoCalculation>)
    requires forall e :: e in employees ==> ValidEmployeeDates(e)
    ensures |results| == |employees|
    ensures forall i :: 0 <= i < |employees| ==>
              results[i] == CalculateFiniquito(employees[i], uma, salarioMinimo, calculationType,
                                               ArgumentsFor(employees[i], selectedId, ui))
    ensures forall i :: 0 <= i < |employees| ==> results[i].employee == employees[i]
  {
    seq(|employees|, i requires 0 <= i < |employees| =>
      CalculateFiniquito(employees[i], uma, salarioMinimo, calculationType, ArgumentsFor(employees[i], selectedId, ui)))
  }

  /** An employee who is not selected gets exactly the settlement of the default arguments. */
  lemma UnselectedGetsDefaults(emp: EmployeeData, selectedId: Option<string>, ui: AdjustmentInputs,
                               uma: real, salarioMinimo: real, calculationType: CalculationType)
    requires ValidEmployeeDates(emp) && !IsSelected(emp, selectedId)
    ensures CalculateFiniquito(emp, uma, salarioMinimo, calculationType, ArgumentsFor(emp, selectedId, ui))
            == CalculateFiniquito(emp, uma, salarioMinimo, calculationType, DEFAULT_ADJUSTMENTS)
  {
    NaNOverrideIsAbsent(emp, uma, salarioMinimo, calculationType, DEFAULT_ADJUSTMENTS);
    assert DEFAULT_ADJUSTMENTS.(salaryDaysOverride := None) == DEFAULT_ADJUSTMENTS;
  }

  /** Whatever the panel holds, only the selected employee's settlement depends on it. */
  lemma PanelAffectsOnlySelected(employees: seq<EmployeeData>, uma: real, salarioMinimo: real,
                                 calculationType: CalculationType, selectedId: Option<string>,
                                 ui1: AdjustmentInputs, ui2: AdjustmentInputs, i: nat)
    requires forall e :: e in employees ==> ValidEmployeeDates(e)
    requires i < |employees| && !IsSelected(employees[i], selectedId)
    ensures RecalculateAll(employees, uma, salarioMinimo, calculationType, selectedId, ui1)[i]
            == RecalculateAll(employees, uma, salarioMinimo, calculationType, selectedId, ui2)[i]
  {
    assert ArgumentsFor(employees[i], selectedId, ui1) == ArgumentsFor(employees[i], selectedId, ui2);
  }

  /** An untouched panel gives the selected employee the same arguments as everyone else. */
  lemma EmptyPanelIsDefault(emp: EmployeeData, selectedId: Option<string>, ui: AdjustmentInputs)
    requires ui == AdjustmentInputs("", "", "", "", "", "", DEFAULT_SETTINGS, INITIAL_OVERRIDE_INPUTS)
    ensures ArgumentsFor(emp, selectedId, ui) == DEFAULT_ADJUSTMENTS.(salaryDaysOverride := Some(NaN))
  {
    InitialInputsNoOverrides();
    ParseFloatOfEmpty(ui.salaryDaysOverride);
  }
}
