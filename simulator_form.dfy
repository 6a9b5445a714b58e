/** The savings simulator form (components/SimulatorForm.tsx): the digit
    grouping applied while typing money amounts, the four-field validator,
    the month-by-month compound-interest projection, and the state updates
    of the form's handlers. Amounts are exact reals; parsing is an input. */
module SimulatorForm {
  import opened Wrappers
  import opened Text

  // ---------------------------------------------------------------------
  // Digit grouping: formatNumberInput
  // ---------------------------------------------------------------------

  /** `value.replace(/[^\d]/g, "")`: the digits of `value`, in order. A
      single character is kept exactly when it is a digit; with
      `DigitsOfAppend` this determines the result for every string. */
  function DigitsOf(value: string): (d: string)
    ensures AllDigits(d) && |d| <= |value|
    ensures AllDigits(value) ==> d == value
    ensures |value| == 1 ==> d == if IsDigit(value[0]) then value else []
  {
    if value == [] then []
    else (if IsDigit(value[0]) then [value[0]] else []) + DigitsOf(value[1..])
  }

  /** Stripping the non-digits works piece by piece: the digits of a
      concatenation are the digits of the first part followed by those of
      the second, so no digit is lost or moved. */
  lemma {:induction false} DigitsOfAppend(a: string, b: string)
    ensures DigitsOf(a + b) == DigitsOf(a) + DigitsOf(b)
  {
    if a == [] {
      assert a + b == b;
    } else {
      assert (a + b)[1..] == a[1..] + b;
      DigitsOfAppend(a[1..], b);
    }
  }

  /** The string with its commas deleted. */
  function RemoveCommas(s: string): string
  {
    if s == [] then [] else (if s[0] == ',' then [] else [s[0]]) + RemoveCommas(s[1..])
  }

  /** Whether the pattern `\B(?=(\d{3})+(?!\d))` matches at position `p` of
      the all-digit string `d`: strictly inside it, with a positive multiple
      of three digits to its right. */
  predicate CommaBefore(d: string, p: nat)
  {
    0 < p < |d| && (|d| - p) % 3 == 0
  }

  /** The global replace of that pattern by ",", position by position from
      `p`: on digits it only inserts commas, so deleting them gives back the
      digits from `p` on. */
  function InsertCommas(d: string, p: nat): (r: string)
    requires p <= |d|
    ensures AllDigits(d) ==> RemoveCommas(r) == d[p..]
    decreases |d| - p
  {
    if p == |d| then []
    else
      var rest := InsertCommas(d, p + 1);
      var mark: string := if CommaBefore(d, p) then [','] else [];
      RemoveCommasAppend(mark + [d[p]], rest);
      RemoveCommasAppend(mark, [d[p]]);
      assert d[p..] == [d[p]] + d[p + 1..];
      mark + [d[p]] + rest
  }

  /** `formatNumberInput`: strip the non-digits, then group by thousands.
      The output is grouped by thousands (no leading or trailing comma, a
      first group of 1 to 3 digits, later groups of exactly 3), and
      deleting its commas gives back exactly the digits of the input, in
      order. */
  function FormatNumberInput(value: string): (r: string)
    ensures WellGrouped(r)
    ensures RemoveCommas(r) == DigitsOf(value)
  {
    InsertCommasIsGrouped(DigitsOf(value));
    InsertCommas(DigitsOf(value), 0)
  }

  /** A string grouped by thousands: digits and commas only, the commas
      exactly at the positions 4, 8, 12, ... counted from the right end.
      Equivalently: no leading or trailing comma, the first group holds 1 to
      3 digits and every later group exactly 3. */
  predicate WellGrouped(s: string)
  {
    s == [] ||
    (|s| % 4 != 0 &&
     forall i :: 0 <= i < |s| ==>
       (s[i] == ',' <==> (|s| - i) % 4 == 0) && (s[i] != ',' ==> IsDigit(s[i])))
  }

  /** Grouping by thousands written from the right: the last three digits
      form a group, the rest is grouped the same way. */
  function Grouped(d: string): (g: string)
    requires AllDigits(d)
    ensures WellGrouped(g) && RemoveCommas(g) == d
  {
    if |d| <= 3 then
      NoCommaInDigits(d);
      d
    else
      var front, back := d[..|d| - 3], d[|d| - 3..];
      assert d == front + back;
      var g' := Grouped(front);
      AppendGroup(g', back);
      g' + [','] + back
  }

  /** One more group of three digits after a grouped string keeps it grouped. */
  lemma AppendGroup(g: string, back: string)
    requires WellGrouped(g) && g != [] && |back| == 3 && AllDigits(back)
    ensures WellGrouped(g + [','] + back)
    ensures RemoveCommas(g + [','] + back) == RemoveCommas(g) + back
  {
    AppendGroupShape(g, back);
    RemoveCommasAppend(g + [','], back);
    RemoveCommasAppend(g, [',']);
    NoCommaInDigits(back);
    assert RemoveCommas([',']) == [];
  }

  lemma AppendGroupShape(g: string, back: string)
    requires WellGrouped(g) && g != [] && |back| == 3 && AllDigits(back)
    ensures WellGrouped(g + [','] + back)
  {
    var h := g + [','] + back;
    assert |h| == |g| + 4;
    assert |h| % 4 == |g| % 4;
    forall i | 0 <= i < |h|
      ensures (h[i] == ',' <==> (|h| - i) % 4 == 0) && (h[i] != ',' ==> IsDigit(h[i]))
    {
      if i < |g| {
        assert h[i] == g[i];
        assert (g[i] == ',' <==> (|g| - i) % 4 == 0) && (g[i] != ',' ==> IsDigit(g[i]));
        assert (|h| - i) % 4 == (|g| - i) % 4;
      } else if i == |g| {
        assert h[i] == ',';
      } else {
        assert h[i] == back[i - |g| - 1];
        assert 0 < |h| - i < 4;
      }
    }
  }

  /** The converse step: a grouped string longer than one group ends in a
      comma and three digits after a shorter grouped string. */
  lemma SplitGroup(s: string)
    requires WellGrouped(s) && |s| > 3
    ensures var front, back := s[..|s| - 4], s[|s| - 3..];
      && s == front + [','] + back
      && WellGrouped(front) && front != [] && AllDigits(back)
  {
    var front, back := s[..|s| - 4], s[|s| - 3..];
    assert (|s| - (|s| - 4)) % 4 == 0;
    assert s == front + [','] + back;
    forall i | 0 <= i < |front|
      ensures (front[i] == ',' <==> (|front| - i) % 4 == 0) && (front[i] != ',' ==> IsDigit(front[i]))
    {
      assert front[i] == s[i];
      assert |s| - i == (|front| - i) + 4;
    }
    forall i | 0 <= i < 3 ensures IsDigit(back[i]) {
      assert back[i] == s[|s| - 3 + i];
      assert 0 < |s| - (|s| - 3 + i) < 4;
    }
  }

  lemma {:induction false} RemoveCommasAppend(a: string, b: string)
    ensures RemoveCommas(a + b) == RemoveCommas(a) + RemoveCommas(b)
  {
    if a == [] {
      assert a + b == b;
    } else {
      assert (a + b)[1..] == a[1..] + b;
      RemoveCommasAppend(a[1..], b);
    }
  }

  lemma {:induction false} NoCommaInDigits(d: string)
    requires AllDigits(d)
    ensures RemoveCommas(d) == d
  {
    if d != [] { NoCommaInDigits(d[1..]); }
  }

  /** Below three digits the pattern never matches. */
  lemma {:induction false} InsertCommasShort(d: string, p: nat)
    requires p <= |d| <= 3
    ensures InsertCommas(d, p) == d[p..]
    decreases |d| - p
  {
    if p < |d| { InsertCommasShort(d, p + 1); }
  }

  /** Appending three digits adds one comma before them and leaves the
      matches inside `front` where they were. */
  lemma {:induction false} InsertCommasAppend(front: string, back: string, p: nat)
    requires |front| >= 1 && |back| == 3 && p <= |front|
    ensures InsertCommas(front + back, p) == InsertCommas(front, p) + [','] + back
    decreases |front| - p
  {
    var d := front + back;
    if p == |front| {
      assert InsertCommas(d, p + 3) == [];
      assert InsertCommas(d, p + 2) == [back[2]];
      assert InsertCommas(d, p + 1) == [back[1], back[2]];
    } else {
      assert d[p] == front[p];
      assert CommaBefore(d, p) == CommaBefore(front, p);
      InsertCommasAppend(front, back, p + 1);
    }
  }

  /** The regular-expression replace and the right-to-left grouping agree. */
  lemma {:induction false} InsertCommasIsGrouped(d: string)
    requires AllDigits(d)
    ensures InsertCommas(d, 0) == Grouped(d)
  {
    if |d| <= 3 {
      InsertCommasShort(d, 0);
    } else {
      var front, back := d[..|d| - 3], d[|d| - 3..];
      assert d == front + back;
      InsertCommasAppend(front, back, 0);
      InsertCommasIsGrouped(front);
    }
  }

  /** On digits and commas, stripping the non-digits is deleting the commas. */
  lemma {:induction false} DigitsOfGrouped(s: string)
    requires forall i :: 0 <= i < |s| ==> s[i] == ',' || IsDigit(s[i])
    ensures DigitsOf(s) == RemoveCommas(s)
  {
    if s != [] { DigitsOfGrouped(s[1..]); }
  }

  /** Every string grouped by thousands is the grouping of its own digits. */
  lemma {:induction false} GroupedOfWellGrouped(s: string)
    requires WellGrouped(s)
    ensures AllDigits(RemoveCommas(s)) && Grouped(RemoveCommas(s)) == s
    decreases |s|
  {
    if |s| <= 3 {
      forall i | 0 <= i < |s| ensures IsDigit(s[i]) {
        assert 0 < |s| - i < 4;
      }
      NoCommaInDigits(s);
    } else {
      SplitGroup(s);
      var front, back := s[..|s| - 4], s[|s| - 3..];
      GroupedOfWellGrouped(front);
      AppendGroup(front, back);
      var d := RemoveCommas(s);
      assert d == RemoveCommas(front) + back;
      assert front[0] != ',' by { assert (|front| - 0) % 4 != 0; }
      assert RemoveCommas(front) != [];
      assert d[..|d| - 3] == RemoveCommas(front) && d[|d| - 3..] == back;
    }
  }

  /** Formatting a string that is already grouped by thousands returns it
      unchanged. */
  lemma FormatFixesWellGrouped(s: string)
    requires WellGrouped(s)
    ensures FormatNumberInput(s) == s
  {
    assert forall i :: 0 <= i < |s| ==> s[i] == ',' || IsDigit(s[i]);
    DigitsOfGrouped(s);
    GroupedOfWellGrouped(s);
    InsertCommasIsGrouped(RemoveCommas(s));
  }

  /** Formatting twice is formatting once. */
  lemma FormatNumberInputIdempotent(value: string)
    ensures FormatNumberInput(FormatNumberInput(value)) == FormatNumberInput(value)
  {
    FormatFixesWellGrouped(FormatNumberInput(value));
  }

  // ---------------------------------------------------------------------
  // Form data and validation: validateForm
  // ---------------------------------------------------------------------

  datatype Field = MontoInicial | AporteMensual | Meses | TasaInteres

  /** The four strings the inputs hold. */
  datatype FormData = FormData(montoInicial: string, aporteMensual: string, meses: string, tasaInteres: string)
  {
    function Get(f: Field): string
    {
      match f
      case MontoInicial => montoInicial
      case AporteMensual => aporteMensual
      case Meses => meses
      case TasaInteres => tasaInteres
    }

    /** `{...prev, [f]: v}`. */
    function Set(f: Field, v: string): (d: FormData)
      ensures d.Get(f) == v
      ensures forall g :: g != f ==> d.Get(g) == Get(g)
    {
      match f
      case MontoInicial => this.(montoInicial := v)
      case AporteMensual => this.(aporteMensual := v)
      case Meses => this.(meses := v)
      case TasaInteres => this.(tasaInteres := v)
    }
  }

  /** What `parseFloat` (money amounts after their commas are removed, and
      the rate) and `parseInt` (the months) give for the current strings;
      `None` stands for `NaN`. */
  datatype Parsed = Parsed(montoInicial: Option<real>, aporteMensual: Option<real>, meses: Option<int>, tasaInteres: Option<real>)
  {
    function Get(f: Field): Option<real>
    {
      match f
      case MontoInicial => montoInicial
      case AporteMensual => aporteMensual
      case Meses => if meses.Some? then Some(meses.value as real) else None
      case TasaInteres => tasaInteres
    }
  }

  /** The checks of one field, in the order they are tried. */
  datatype Check = Required | Invalid | BelowMinimum | AboveMaximum

  /** Below this the number is "not valid" rather than out of range. */
  function Floor(f: Field): real
  {
    if f == Meses then 1.0 else 0.0
  }

  const MinimumMonto: real := 10000.0

  function Maximum(f: Field): real
  {
    match f
    case MontoInicial => 1000000000.0
    case AporteMensual => 100000000.0
    case Meses => 600.0
    case TasaInteres => 50.0
  }

  /** The error of one field: the first check of its `if`/`else if` chain
      that fails, or `None`. `raw` is the input string, `v` its parse. */
  function FieldError(f: Field, raw: string, v: Option<real>): (e: Option<Check>)
    ensures e == Some(Required) <==> raw == ""
    ensures e == Some(BelowMinimum) ==> f == MontoInicial
  {
    if raw == "" then Some(Required)
    else if v.None? || v.value < Floor(f) then Some(Invalid)
    else if f == MontoInicial && v.value < MinimumMonto then Some(BelowMinimum)
    else if v.value > Maximum(f) then Some(AboveMaximum)
    else None
  }

  /** Each check on its own, independent of the order. */
  predicate Fails(f: Field, c: Check, raw: string, v: Option<real>)
  {
    match c
    case Required => raw == ""
    case Invalid => v.None? || v.value < Floor(f)
    case BelowMinimum => f == MontoInicial && v.Some? && v.value < MinimumMonto
    case AboveMaximum => v.Some? && v.value > Maximum(f)
  }

  function Rank(c: Check): nat
  {
    match c
    case Required => 0
    case Invalid => 1
    case BelowMinimum => 2
    case AboveMaximum => 3
  }

  /** A field reports the first failing check in the order required,
      invalid, below minimum, above maximum, and no error when none fails. */
  lemma FieldErrorIsFirstFailure(f: Field, raw: string, v: Option<real>, c: Check)
    ensures FieldError(f, raw, v) == Some(c) <==>
      Fails(f, c, raw, v) && forall c' :: Rank(c') < Rank(c) ==> !Fails(f, c', raw, v)
    ensures FieldError(f, raw, v) == None <==> forall c' :: !Fails(f, c', raw, v)
  {
    forall c' ensures Rank(c') < Rank(c) && FieldError(f, raw, v) == Some(c) ==> !Fails(f, c', raw, v) {
      match c'
      case Required =>
      case Invalid =>
      case BelowMinimum =>
      case AboveMaximum =>
    }
    if FieldError(f, raw, v) != None {
      var c0 := FieldError(f, raw, v).value;
      assert Fails(f, c0, raw, v);
    }
  }

  /** The smallest accepted number of each field. */
  function Lowest(f: Field): real
  {
    match f
    case MontoInicial => MinimumMonto
    case AporteMensual => 0.0
    case Meses => 1.0
    case TasaInteres => 0.0
  }

  /** The accepted ranges: principal 10,000..1,000,000,000, contribution
      0..100,000,000, months 1..600, rate 0..50. */
  lemma AcceptedRange(f: Field, raw: string, v: Option<real>)
    ensures FieldError(f, raw, v) == None <==>
      raw != "" && v.Some? && Lowest(f) <= v.value <= Maximum(f)
  {
  }

  /** The text `validateForm` stores for a failed check. */
  function Message(f: Field, c: Check): string
    requires c == BelowMinimum ==> f == MontoInicial
  {
    match (f, c)
    case (MontoInicial, Required) => "El monto inicial es requerido"
    case (MontoInicial, Invalid) => "Ingresa un monto válido"
    case (MontoInicial, BelowMinimum) => "El monto mínimo es $10,000 COP"
    case (MontoInicial, AboveMaximum) => "El monto máximo es $1,000,000,000 COP"
    case (AporteMensual, Required) => "El aporte mensual es requerido"
    case (AporteMensual, Invalid) => "Ingresa un monto válido"
    case (AporteMensual, AboveMaximum) => "El aporte máximo es $100,000,000 COP"
    case (Meses, Required) => "El plazo es requerido"
    case (Meses, Invalid) => "Ingresa un plazo válido"
    case (Meses, AboveMaximum) => "El plazo máximo es 600 meses (50 años)"
    case (TasaInteres, Required) => "La tasa de interés es requerida"
    case (TasaInteres, Invalid) => "Ingresa una tasa válida"
    case (TasaInteres, AboveMaximum) => "La tasa máxima es 50% anual"
  }

  /** The error of field `f` of the form, if any. */
  function ErrorOf(data: FormData, parsed: Parsed, f: Field): Option<Check>
  {
    FieldError(f, data.Get(f), parsed.Get(f))
  }

  /** `newErrors.f = message` when the check of `f` failed. */
  function Record(errors: map<Field, string>, f: Field, e: Option<Check>): map<Field, string>
    requires e == Some(BelowMinimum) ==> f == MontoInicial
  {
    if e.Some? then errors[f := Message(f, e.value)] else errors
  }

  /** The error record `validateForm` builds: one message for each field
      whose checks fail, nothing for the others. */
  function ValidationErrors(data: FormData, parsed: Parsed): (errors: map<Field, string>)
    ensures forall f :: f in errors <==> ErrorOf(data, parsed, f).Some?
    ensures forall f :: f in errors ==> errors[f] == Message(f, ErrorOf(data, parsed, f).value)
  {
    ValidationErrorsKeys(data, parsed);
    BuildErrors(data, parsed)
  }

  function BuildErrors(data: FormData, parsed: Parsed): map<Field, string>
  {
    ErrorRecord(ErrorOf(data, parsed, MontoInicial), ErrorOf(data, parsed, AporteMensual),
      ErrorOf(data, parsed, Meses), ErrorOf(data, parsed, TasaInteres))
  }

  /** The record built from the four verdicts: an entry for each failed
      field, holding the message of its failed check. */
  function ErrorRecord(em: Option<Check>, ea: Option<Check>, en: Option<Check>, et: Option<Check>): (m: map<Field, string>)
    requires ea != Some(BelowMinimum) && en != Some(BelowMinimum) && et != Some(BelowMinimum)
    ensures MontoInicial in m <==> em.Some?
    ensures MontoInicial in m ==> m[MontoInicial] == Message(MontoInicial, em.value)
    ensures AporteMensual in m <==> ea.Some?
    ensures AporteMensual in m ==> m[AporteMensual] == Message(AporteMensual, ea.value)
    ensures Meses in m <==> en.Some?
    ensures Meses in m ==> m[Meses] == Message(Meses, en.value)
    ensures TasaInteres in m <==> et.Some?
    ensures TasaInteres in m ==> m[TasaInteres] == Message(TasaInteres, et.value)
  {
    Record(Record(Record(Record(map[], MontoInicial, em), AporteMensual, ea), Meses, en), TasaInteres, et)
  }

  lemma ValidationErrorsKeys(data: FormData, parsed: Parsed)
    ensures forall f :: f in BuildErrors(data, parsed) <==> ErrorOf(data, parsed, f).Some?
    ensures forall f :: f in BuildErrors(data, parsed) ==>
      BuildErrors(data, parsed)[f] == Message(f, ErrorOf(data, parsed, f).value)
  {
    forall f ensures f in BuildErrors(data, parsed) <==> ErrorOf(data, parsed, f).Some? {
      match f
      case MontoInicial =>
      case AporteMensual =>
      case Meses =>
      case TasaInteres =>
    }
  }

  /** All four fields pass. */
  predicate IsValid(data: FormData, parsed: Parsed)
  {
    forall f :: ErrorOf(data, parsed, f) == None
  }

  /** The body of `validateForm`: start from an empty record and add the
      message of each failed field, in the order principal, contribution,
      term, rate. */
  method FillErrors(em: Option<Check>, ea: Option<Check>, en: Option<Check>, et: Option<Check>)
    returns (errors: map<Field, string>)
    requires ea != Some(BelowMinimum) && en != Some(BelowMinimum) && et != Some(BelowMinimum)
    ensures errors == ErrorRecord(em, ea, en, et)
  {
    errors := map[];
    if em.Some? { errors := errors[MontoInicial := Message(MontoInicial, em.value)]; }
    ghost var e1 := errors;
    assert e1 == Record(map[], MontoInicial, em);
    if ea.Some? { errors := errors[AporteMensual := Message(AporteMensual, ea.value)]; }
    ghost var e2 := errors;
    assert e2 == Record(e1, AporteMensual, ea);
    if en.Some? { errors := errors[Meses := Message(Meses, en.value)]; }
    ghost var e3 := errors;
    assert e3 == Record(e2, Meses, en);
    if et.Some? { errors := errors[TasaInteres := Message(TasaInteres, et.value)]; }
    assert errors == Record(e3, TasaInteres, et);
  }

  /** `validateForm`: builds the error record and reports whether it
      stayed empty. */
  method ValidateForm(data: FormData, parsed: Parsed) returns (errors: map<Field, string>, valid: bool)
    ensures errors == ValidationErrors(data, parsed)
    ensures valid <==> errors == map[]
    ensures valid <==> IsValid(data, parsed)
  {
    var em, ea := ErrorOf(data, parsed, MontoInicial), ErrorOf(data, parsed, AporteMensual);
    var en, et := ErrorOf(data, parsed, Meses), ErrorOf(data, parsed, TasaInteres);
    errors := FillErrors(em, ea, en, et);
    valid := |errors| == 0;
    assert valid <==> em.None? && ea.None? && en.None? && et.None? by {
      if em.Some? { assert MontoInicial in errors; }
      if ea.Some? { assert AporteMensual in errors; }
      if en.Some? { assert Meses in errors; }
      if et.Some? { assert TasaInteres in errors; }
    }
    assert IsValid(data, parsed) <==> em.None? && ea.None? && en.None? && et.None? by {
      if em.None? && ea.None? && en.None? && et.None? {
        forall f ensures ErrorOf(data, parsed, f) == None {
          match f
          case MontoInicial =>
          case AporteMensual =>
          case Meses =>
          case TasaInteres =>
        }
      }
    }
  }

  // ---------------------------------------------------------------------
  // The projection: calculateInterest
  // ---------------------------------------------------------------------

  /** One row of the monthly breakdown. */
  datatype MonthEntry = MonthEntry(mes: nat, saldo: real, interesesMes: real, aporteMes: real)

  datatype SimulationResult = SimulationResult(
    montoTotal: real,
    totalInvertido: real,
    interesesGenerados: real,
    desgloseMensual: seq<MonthEntry>)

  /** The balance carried into month `i + 1`: the principal before the first
      month, the previous row's balance after that. */
  function Carried(p: real, es: seq<MonthEntry>, i: nat): real
    requires i <= |es|
  {
    if i == 0 then p else es[i - 1].saldo
  }

  /** Row `e` is month `i + 1` started with balance `carried`: its interest
      is the carried balance times `r`, its contribution is `a`, and its
      balance is carried balance plus interest plus contribution. */
  predicate RowFollows(e: MonthEntry, i: nat, carried: real, a: real, r: real)
  {
    && e.mes == i + 1
    && e.aporteMes == a
    && e.interesesMes == carried * r
    && e.saldo == carried + e.interesesMes + a
  }

  /** The whole breakdown obeys the monthly recurrence: the first row
      starts from the principal `p`, every later row from the balance of the
      row before it. */
  ghost predicate IsSchedule(p: real, a: real, r: real, es: seq<MonthEntry>)
  {
    && (es != [] ==> RowFollows(es[0], 0, p, a, r))
    && (forall i, j {:trigger es[i], es[j]} ::
          0 <= i && j == i + 1 && j < |es| ==> RowFollows(es[j], j, es[i].saldo, a, r))
  }

  /** Row `i` of a breakdown follows from the balance carried into it. */
  lemma RowAt(p: real, a: real, r: real, es: seq<MonthEntry>, i: nat)
    requires IsSchedule(p, a, r, es) && i < |es|
    ensures RowFollows(es[i], i, Carried(p, es, i), a, r)
  {
    if i > 0 {
      assert RowFollows(es[i], i, es[i - 1].saldo, a, r);
    }
  }

  /** Appending the next month's row keeps the recurrence. */
  lemma ScheduleExtend(p: real, a: real, r: real, es: seq<MonthEntry>, e: MonthEntry)
    requires IsSchedule(p, a, r, es)
    requires RowFollows(e, |es|, Carried(p, es, |es|), a, r)
    ensures IsSchedule(p, a, r, es + [e])
  {
    var es' := es + [e];
    if es != [] { assert es'[0] == es[0]; }
    forall i, j | 0 <= i && j == i + 1 && j < |es'|
      ensures RowFollows(es'[j], j, es'[i].saldo, a, r)
    {
      assert es'[i] == es[i];
      if j < |es| {
        assert es'[j] == es[j];
        assert RowFollows(es[j], j, es[i].saldo, a, r);
      }
    }
  }

  /** A prefix of a breakdown obeys the recurrence too. */
  lemma SchedulePrefix(p: real, a: real, r: real, es: seq<MonthEntry>, k: nat)
    requires IsSchedule(p, a, r, es) && k <= |es|
    ensures IsSchedule(p, a, r, es[..k])
    ensures Carried(p, es[..k], k) == Carried(p, es, k)
  {
    var front := es[..k];
    if k > 0 { assert front[0] == es[0]; }
    forall i, j | 0 <= i && j == i + 1 && j < k
      ensures RowFollows(front[j], j, front[i].saldo, a, r)
    {
      assert front[i] == es[i] && front[j] == es[j];
      assert RowFollows(es[j], j, es[i].saldo, a, r);
    }
    if k > 0 { assert front[k - 1] == es[k - 1]; }
  }

  /** What the projection promises for `n` months at monthly rate `r`. */
  ghost predicate Projects(p: real, a: real, r: real, n: nat, res: SimulationResult)
  {
    && |res.desgloseMensual| == n
    && IsSchedule(p, a, r, res.desgloseMensual)
    && res.montoTotal == Carried(p, res.desgloseMensual, n)
    && res.totalInvertido == p + a * n as real
    && res.interesesGenerados == res.montoTotal - res.totalInvertido
  }

  /** The loop of `calculateInterest`: carry the balance month by month,
      appending one row per month, then total up. */
  method Project(p: real, a: real, r: real, n: nat) returns (res: SimulationResult)
    ensures Projects(p, a, r, n, res)
  {
    var desgloseMensual: seq<MonthEntry> := [];
    var saldoActual := p;
    var mes := 1;
    while mes <= n
      invariant 1 <= mes <= n + 1
      invariant |desgloseMensual| == mes - 1
      invariant IsSchedule(p, a, r, desgloseMensual)
      invariant saldoActual == Carried(p, desgloseMensual, mes - 1)
    {
      var interesesMes := saldoActual * r;
      saldoActual := saldoActual + interesesMes + a;
      var row := MonthEntry(mes, saldoActual, interesesMes, a);
      ScheduleExtend(p, a, r, desgloseMensual, row);
      desgloseMensual := desgloseMensual + [row];
      mes := mes + 1;
    }
    var montoTotal := saldoActual;
    var totalInvertido := p + a * n as real;
    var interesesGenerados := montoTotal - totalInvertido;
    res := SimulationResult(montoTotal, totalInvertido, interesesGenerados, desgloseMensual);
  }

  /** The balance after `k` months, defined by recursion on the month. */
  function Balance(p: real, a: real, r: real, k: nat): real
  {
    if k == 0 then p
    else
      var prev := Balance(p, a, r, k - 1);
      prev + prev * r + a
  }

  lemma {:induction false} CarriedIsBalance(p: real, a: real, r: real, es: seq<MonthEntry>, i: nat)
    requires IsSchedule(p, a, r, es) && i <= |es|
    ensures Carried(p, es, i) == Balance(p, a, r, i)
  {
    if i > 0 {
      CarriedIsBalance(p, a, r, es, i - 1);
      RowAt(p, a, r, es, i - 1);
    }
  }

  /** A breakdown that obeys the recurrence is the recursive balance
      sequence: row `i` holds the balance after `i + 1` months and the
      interest on the balance after `i` months. */
  lemma RowIsBalance(p: real, a: real, r: real, es: seq<MonthEntry>, i: nat)
    requires IsSchedule(p, a, r, es) && i < |es|
    ensures es[i].saldo == Balance(p, a, r, i + 1)
    ensures es[i].interesesMes == Balance(p, a, r, i) * r
  {
    CarriedIsBalance(p, a, r, es, i);
    CarriedIsBalance(p, a, r, es, i + 1);
    assert Carried(p, es, i + 1) == es[i].saldo;
    RowAt(p, a, r, es, i);
  }

  /** The final amount is the balance after `n` months; with at least one
      month it is the last row's balance. */
  lemma ProjectionTotal(p: real, a: real, r: real, n: nat, res: SimulationResult)
    requires Projects(p, a, r, n, res)
    ensures res.montoTotal == Balance(p, a, r, n)
    ensures n > 0 ==> res.montoTotal == res.desgloseMensual[n - 1].saldo
    ensures res.interesesGenerados == Balance(p, a, r, n) - (p + a * n as real)
  {
    CarriedIsBalance(p, a, r, res.desgloseMensual, n);
  }

  /** Without interest the balance grows by the contribution each month. */
  lemma {:induction false} BalanceZeroRate(p: real, a: real, k: nat)
    ensures Balance(p, a, 0.0, k) == p + a * k as real
  {
    if k > 0 { BalanceZeroRate(p, a, k - 1); }
  }

  /** At rate 0 every month earns no interest, month `i + 1` ends with
      `p + a * (i + 1)`, and the generated interest is 0. */
  lemma ZeroRateProjection(p: real, a: real, n: nat, res: SimulationResult)
    requires Projects(p, a, 0.0, n, res)
    ensures forall i :: 0 <= i < n ==> res.desgloseMensual[i].interesesMes == 0.0
    ensures forall i :: 0 <= i < n ==> res.desgloseMensual[i].saldo == p + a * (i + 1) as real
    ensures res.montoTotal == p + a * n as real && res.interesesGenerados == 0.0
  {
    var es := res.desgloseMensual;
    forall i | 0 <= i < n
      ensures es[i].interesesMes == 0.0 && es[i].saldo == p + a * (i + 1) as real
    {
      ZeroRateRow(p, a, es, i);
    }
    ProjectionTotal(p, a, 0.0, n, res);
    BalanceZeroRate(p, a, n);
  }

  lemma ZeroRateRow(p: real, a: real, es: seq<MonthEntry>, i: nat)
    requires IsSchedule(p, a, 0.0, es) && i < |es|
    ensures es[i].interesesMes == 0.0 && es[i].saldo == p + a * (i + 1) as real
  {
    RowIsBalance(p, a, 0.0, es, i);
    BalanceZeroRate(p, a, i + 1);
  }

  /** With non-negative principal, contribution and rate the balance never
      falls below the principal and never decreases. */
  lemma {:induction false} BalanceGrows(p: real, a: real, r: real, k: nat)
    requires p >= 0.0 && a >= 0.0 && r >= 0.0
    ensures p <= Balance(p, a, r, k) <= Balance(p, a, r, k + 1)
  {
    if k > 0 { BalanceGrows(p, a, r, k - 1); }
    var b := Balance(p, a, r, k);
    assert b >= 0.0;
    assert b * r >= 0.0;
  }

  /** The breakdown is monotone: each month starts at or above the
      principal and ends with at least the balance it started with, and a
      later month never ends below an earlier one. */
  lemma ProjectionMonotone(p: real, a: real, r: real, n: nat, res: SimulationResult, i: nat, j: nat)
    requires Projects(p, a, r, n, res)
    requires p >= 0.0 && a >= 0.0 && r >= 0.0
    requires i <= j < n
    ensures p <= Carried(p, res.desgloseMensual, i) <= res.desgloseMensual[i].saldo
    ensures res.desgloseMensual[i].saldo <= res.desgloseMensual[j].saldo
  {
    var es := res.desgloseMensual;
    CarriedIsBalance(p, a, r, es, i);
    RowIsBalance(p, a, r, es, i);
    RowIsBalance(p, a, r, es, j);
    BalanceGrows(p, a, r, i);
    BalanceIncreasing(p, a, r, i + 1, j + 1);
  }

  lemma {:induction false} BalanceIncreasing(p: real, a: real, r: real, i: nat, j: nat)
    requires p >= 0.0 && a >= 0.0 && r >= 0.0 && i <= j
    ensures Balance(p, a, r, i) <= Balance(p, a, r, j)
    decreases j - i
  {
    if i < j {
      BalanceGrows(p, a, r, i);
      BalanceIncreasing(p, a, r, i + 1, j);
    }
  }

  /** The sum of the monthly interest column. */
  function SumInterest(es: seq<MonthEntry>): real
  {
    if es == [] then 0.0 else SumInterest(es[..|es| - 1]) + es[|es| - 1].interesesMes
  }

  lemma {:induction false} SumInterestOfSchedule(p: real, a: real, r: real, es: seq<MonthEntry>)
    requires IsSchedule(p, a, r, es)
    ensures SumInterest(es) == Carried(p, es, |es|) - p - a * |es| as real
  {
    if es != [] {
      var k := |es| - 1;
      SchedulePrefix(p, a, r, es, k);
      SumInterestOfSchedule(p, a, r, es[..k]);
      LastRowInterest(p, a, r, es);
      SumStep(SumInterest(es[..k]), Carried(p, es, k), p, a, k, es[k].interesesMes, es[k].saldo);
    }
  }

  lemma LastRowInterest(p: real, a: real, r: real, es: seq<MonthEntry>)
    requires IsSchedule(p, a, r, es) && es != []
    ensures var k := |es| - 1; es[k].interesesMes == es[k].saldo - Carried(p, es, k) - a
  {
    RowAt(p, a, r, es, |es| - 1);
  }

  lemma SumStep(sum: real, c: real, p: real, a: real, k: nat, interest: real, saldo: real)
    requires sum == c - p - a * k as real
    requires interest == saldo - c - a
    ensures sum + interest == saldo - p - a * (k + 1) as real
  {
  }

  /** The generated interest is the sum of the monthly interest amounts. */
  lemma InterestIsSumOfMonths(p: real, a: real, r: real, n: nat, res: SimulationResult)
    requires Projects(p, a, r, n, res)
    ensures res.interesesGenerados == SumInterest(res.desgloseMensual)
  {
    SumInterestOfSchedule(p, a, r, res.desgloseMensual);
  }

  function Pow(x: real, n: nat): real
  {
    if n == 0 then 1.0 else x * Pow(x, n - 1)
  }

  /** The annuity identity multiplied through by the rate. */
  lemma {:induction false} BalanceTimesRate(p: real, a: real, r: real, n: nat)
    ensures Balance(p, a, r, n) * r == p * Pow(1.0 + r, n) * r + a * (Pow(1.0 + r, n) - 1.0)
  {
    if n > 0 {
      BalanceTimesRate(p, a, r, n - 1);
      var b := Balance(p, a, r, n - 1);
      var q := Pow(1.0 + r, n - 1);
      assert Balance(p, a, r, n) == b + b * r + a;
      assert Pow(1.0 + r, n) == (1.0 + r) * q;
      AnnuityStep(b, q, p, a, r);
    }
  }

  /** One month of the annuity identity, as plain real algebra. */
  lemma AnnuityStep(b: real, q: real, p: real, a: real, r: real)
    requires b * r == p * q * r + a * (q - 1.0)
    ensures (b + b * r + a) * r == p * ((1.0 + r) * q) * r + a * ((1.0 + r) * q - 1.0)
  {
    calc {
      (b + b * r + a) * r;
      b * r * (1.0 + r) + a * r;
      (p * q * r + a * (q - 1.0)) * (1.0 + r) + a * r;
      p * ((1.0 + r) * q) * r + a * ((1.0 + r) * q - 1.0);
    }
  }

  /** Over exact reals the loop computes the annuity formula shown on the
      simulator page, VF = P (1 + r)^n + A ((1 + r)^n - 1) / r, whenever the
      monthly rate is not 0 (at rate 0 the formula divides by zero). */
  lemma BalanceClosedForm(p: real, a: real, r: real, n: nat)
    requires r != 0.0
    ensures Balance(p, a, r, n) == p * Pow(1.0 + r, n) + a * (Pow(1.0 + r, n) - 1.0) / r
  {
    var b, q := Balance(p, a, r, n), Pow(1.0 + r, n);
    BalanceTimesRate(p, a, r, n);
    assert b * r == p * q * r + a * (q - 1.0);
    SolveForBalance(b, p, q, a, r);
  }

  /** Dividing the rate back out of the annuity identity. */
  lemma SolveForBalance(b: real, p: real, q: real, a: real, r: real)
    requires r != 0.0 && b * r == p * q * r + a * (q - 1.0)
    ensures b == p * q + a * (q - 1.0) / r
  {
    var u := a * (q - 1.0);
    DivideThenMultiply(u, r);
    Distribute(p * q, u / r, r);
    CancelRate(b, p * q + u / r, r);
  }

  lemma DivideThenMultiply(u: real, r: real)
    requires r != 0.0
    ensures (u / r) * r == u
  {
  }

  lemma Distribute(x: real, y: real, r: real)
    ensures (x + y) * r == x * r + y * r
  {
  }

  lemma CancelRate(x: real, y: real, r: real)
    requires r != 0.0 && x * r == y * r
    ensures x == y
  {
    assert (x - y) * r == 0.0;
  }

  // ---------------------------------------------------------------------
  // Component state and handlers
  // ---------------------------------------------------------------------

  /** The form's React state: the input strings, the error record and the
      last simulation shown. */
  datatype State = State(formData: FormData, errors: map<Field, string>, result: Option<SimulationResult>)

  /** `tasaAnual / 12` with `tasaAnual = tasa / 100`. */
  function MonthlyRate(tasa: real): (r: real)
    ensures r * 1200.0 == tasa
    ensures 0.0 <= tasa ==> 0.0 <= r
  {
    tasa / 100.0 / 12.0
  }

  /** `calculateInterest`: validate (storing the error record), stop there
      when a field fails and leave the previous result in place; otherwise
      run the projection on the parsed numbers and store its result. */
  method CalculateInterest(s: State, parsed: Parsed) returns (t: State)
    ensures t.formData == s.formData
    ensures t.errors == ValidationErrors(s.formData, parsed)
    ensures !IsValid(s.formData, parsed) ==> t.result == s.result
    ensures IsValid(s.formData, parsed) ==>
      && parsed.montoInicial.Some? && parsed.aporteMensual.Some? && parsed.tasaInteres.Some?
      && parsed.meses.Some? && 1 <= parsed.meses.value <= 600
      && t.result.Some?
      && Projects(parsed.montoInicial.value, parsed.aporteMensual.value,
                  MonthlyRate(parsed.tasaInteres.value), parsed.meses.value, t.result.value)
  {
    var errors, valid := ValidateForm(s.formData, parsed);
    t := s.(errors := errors);
    if !valid {
      return;
    }
    assert ErrorOf(s.formData, parsed, Meses) == None;
    assert ErrorOf(s.formData, parsed, MontoInicial) == None;
    assert ErrorOf(s.formData, parsed, AporteMensual) == None;
    assert ErrorOf(s.formData, parsed, TasaInteres) == None;
    var p := parsed.montoInicial.value;
    var a := parsed.aporteMensual.value;
    var n: nat := parsed.meses.value;
    var tasaAnual := parsed.tasaInteres.value / 100.0;
    var r := tasaAnual / 12.0;
    var res := Project(p, a, r, n);
    t := t.(result := Some(res));
  }

  /** A validated projection has as many rows as months, numbered 1..n, a
      non-decreasing balance that starts at or above the principal, and
      interest equal to the sum of its monthly interest. */
  lemma ValidProjection(data: FormData, parsed: Parsed, res: SimulationResult)
    requires IsValid(data, parsed)
    requires parsed.montoInicial.Some? && parsed.aporteMensual.Some? && parsed.tasaInteres.Some?
    requires parsed.meses.Some? && parsed.meses.value >= 1
    requires Projects(parsed.montoInicial.value, parsed.aporteMensual.value,
                      MonthlyRate(parsed.tasaInteres.value), parsed.meses.value, res)
    ensures |res.desgloseMensual| == parsed.meses.value
    ensures forall i :: 0 <= i < |res.desgloseMensual| ==> res.desgloseMensual[i].mes == i + 1
    ensures forall i, j :: 0 <= i < j < |res.desgloseMensual| ==>
      res.desgloseMensual[i].saldo <= res.desgloseMensual[j].saldo
    ensures res.montoTotal >= parsed.montoInicial.value
    ensures res.interesesGenerados >= 0.0
  {
    assert ErrorOf(data, parsed, MontoInicial) == None;
    assert ErrorOf(data, parsed, AporteMensual) == None;
    assert ErrorOf(data, parsed, TasaInteres) == None;
    var p, a, r, n := parsed.montoInicial.value, parsed.aporteMensual.value,
                      MonthlyRate(parsed.tasaInteres.value), parsed.meses.value;
    assert r >= 0.0;
    ProjectionFacts(p, a, r, n, res);
  }

  /** The projection facts for non-negative inputs and at least one month. */
  lemma ProjectionFacts(p: real, a: real, r: real, n: nat, res: SimulationResult)
    requires Projects(p, a, r, n, res)
    requires p >= 0.0 && a >= 0.0 && r >= 0.0 && n >= 1
    ensures forall i :: 0 <= i < |res.desgloseMensual| ==> res.desgloseMensual[i].mes == i + 1
    ensures forall i, j :: 0 <= i < j < |res.desgloseMensual| ==>
      res.desgloseMensual[i].saldo <= res.desgloseMensual[j].saldo
    ensures res.montoTotal >= p
    ensures res.interesesGenerados >= 0.0
  {
    forall i | 0 <= i < n
      ensures res.desgloseMensual[i].mes == i + 1
    {
      RowAt(p, a, r, res.desgloseMensual, i);
    }
    forall i, j | 0 <= i < j < n
      ensures res.desgloseMensual[i].saldo <= res.desgloseMensual[j].saldo
    {
      ProjectionMonotone(p, a, r, n, res, i, j);
    }
    ProjectionTotal(p, a, r, n, res);
    ProjectionMonotone(p, a, r, n, res, n - 1, n - 1);
    InterestIsSumOfMonths(p, a, r, n, res);
    SumInterestNonNegative(p, a, r, res.desgloseMensual);
  }

  lemma {:induction false} SumInterestNonNegative(p: real, a: real, r: real, es: seq<MonthEntry>)
    requires IsSchedule(p, a, r, es) && p >= 0.0 && a >= 0.0 && r >= 0.0
    ensures SumInterest(es) >= 0.0
  {
    SumInterestOfSchedule(p, a, r, es);
    CarriedIsBalance(p, a, r, es, |es|);
    BalanceAtLeastInvested(p, a, r, |es|);
  }

  /** With non-negative inputs the balance is at least what was paid in. */
  lemma {:induction false} BalanceAtLeastInvested(p: real, a: real, r: real, k: nat)
    requires p >= 0.0 && a >= 0.0 && r >= 0.0
    ensures Balance(p, a, r, k) >= p + a * k as real
  {
    if k > 0 {
      BalanceAtLeastInvested(p, a, r, k - 1);
      BalanceGrows(p, a, r, k - 1);
      var b := Balance(p, a, r, k - 1);
      assert b * r >= 0.0;
    }
  }

  /** `handleInputChange`: store the new string in the named field (money
      fields pass through the formatter), clear that field's shown error,
      touch nothing else. */
  function HandleInputChange(s: State, f: Field, value: string): (t: State)
    ensures t.formData.Get(f) ==
      (if f == MontoInicial || f == AporteMensual then FormatNumberInput(value) else value)
    ensures forall g :: g != f ==> t.formData.Get(g) == s.formData.Get(g)
    ensures f in t.errors ==> t.errors[f] == ""
    ensures forall g :: g != f ==> (g in t.errors <==> g in s.errors)
    ensures forall g :: g != f && g in s.errors ==> t.errors[g] == s.errors[g]
    ensures t.result == s.result
  {
    var formattedValue := if f == MontoInicial || f == AporteMensual then FormatNumberInput(value) else value;
    var errors := if f in s.errors && s.errors[f] != "" then s.errors - {f} else s.errors;
    State(s.formData.Set(f, formattedValue), errors, s.result)
  }

  /** After typing into a money field the stored text is grouped by
      thousands, so removing its commas (as `validateForm` does before
      parsing) leaves exactly the digits that were typed. */
  lemma MoneyInputIsGrouped(s: State, f: Field, value: string)
    requires f == MontoInicial || f == AporteMensual
    ensures WellGrouped(HandleInputChange(s, f, value).formData.Get(f))
    ensures RemoveCommas(HandleInputChange(s, f, value).formData.Get(f)) == DigitsOf(value)
  {
  }

  /** `handleReset`: empty strings, the default rate "5", no errors, no result. */
  function HandleReset(s: State): (t: State)
    ensures forall f :: t.formData.Get(f) == if f == TasaInteres then "5" else ""
    ensures t.errors == map[] && t.result == None
  {
    State(FormData("", "", "", "5"), map[], None)
  }

  /** After a reset, simulating reports "required" for principal,
      contribution and term and nothing for the default rate of 5 %. */
  lemma ResetThenCalculate(s: State, parsed: Parsed)
    requires parsed.tasaInteres == Some(5.0)
    ensures var errors := ValidationErrors(HandleReset(s).formData, parsed);
      && errors.Keys == {MontoInicial, AporteMensual, Meses}
      && errors[MontoInicial] == "El monto inicial es requerido"
      && errors[AporteMensual] == "El aporte mensual es requerido"
      && errors[Meses] == "El plazo es requerido"
    ensures HandleReset(s).result == None
  {
    var errors := ValidationErrors(HandleReset(s).formData, parsed);
    assert ErrorOf(HandleReset(s).formData, parsed, TasaInteres) == None;
    assert MontoInicial in errors && AporteMensual in errors && Meses in errors;
    assert TasaInteres !in errors;
  }
}
