/** The purchase screen: a purchase names a supplier, a date, a status and
    lines of (supply, quantity, unit price), all held as the text of their
    inputs. Saving validates the form, then refuses a supply chosen on two
    lines, then submits. */
module Compras {
  import opened Wrappers
  import opened JsString
  import opened JsValue
  import opened Listing
  import opened LineItems
  import opened Forms

  /** A purchase line as typed: the supply id from a select, and the
      sanitised quantity and price text. */
  datatype Line = Line(idInsumo: string, cantidad: string, precio: string)

  /** The purchase being created. */
  datatype Form = Form(idProveedor: string, fecha: string, estado: string, lines: seq<Line>)

  /** A purchase as listed: its supplier's name is absent when the supplier
      record or its name is missing. */
  datatype Compra = Compra(id: int, proveedorNombre: Option<string>, fecha: string, estado: string)

  /** What is submitted. The source converts the ids and amounts with
      `parseInt`/`parseFloat`; here they travel as the text they were
      converted from. */
  datatype Payload = Payload(idProveedor: string, fecha: string, estado: string, lines: seq<Line>)

  const ComprasPerPage: nat := 6
  const DefaultEstado := "Completado"

  /** `handleCreate`: no supplier, no date, status "Completado", no line. */
  const NewForm := Form("", "", DefaultEstado, [])

  /** `handleAddDetalle`: the empty line. */
  const EmptyLine := Line("", "", "")

  // ---- validateForm ----

  /** The top-level checks of `validateForm`, in the source's order. */
  function FieldChecks(form: Form): seq<FieldCheck> {
    [FieldCheck("id_proveedor", RequiredError(form.idProveedor, "El proveedor es obligatorio")),
     FieldCheck("fecha_compra", RequiredError(form.fecha, "La fecha de compra es obligatoria")),
     FieldCheck("estado", RequiredError(form.estado, "El estado es obligatorio")),
     FieldCheck("detalleCompras",
                if form.lines == [] then Some("Debe agregar al menos un detalle de compra") else None)]
  }

  lemma FieldChecksWellFormed(form: Form)
    ensures WellFormedChecks(FieldChecks(form))
  {
    assert NoDigit("id_proveedor") && NoDigit("fecha_compra") && NoDigit("estado") && NoDigit("detalleCompras");
    assert "id_proveedor"[0] != "fecha_compra"[0];
  }

  /** `!x || x <= 0` on an input's text: empty, or converting to a number
      at most zero. Text that converts to `NaN` is NOT caught. */
  predicate NotPositiveAsWritten(x: string) {
    x == "" || AtMostZero(Str(x))
  }

  function InsumoCheck(d: Line): Option<string> {
    RequiredError(d.idInsumo, "El insumo es obligatorio")
  }

  function CantidadCheckAsWritten(d: Line): Option<string> {
    if NotPositiveAsWritten(d.cantidad) then Some("La cantidad debe ser mayor a 0") else None
  }

  function PrecioCheckAsWritten(d: Line): Option<string> {
    if NotPositiveAsWritten(d.precio) then Some("El precio unitario debe ser mayor a 0") else None
  }

  /** The intended quantity test: the text denotes a number above zero. */
  function CantidadCheck(d: Line): Option<string> {
    if !IsPositiveNumber(Str(d.cantidad)) then Some("La cantidad debe ser mayor a 0") else None
  }

  /** The intended price test. */
  function PrecioCheck(d: Line): Option<string> {
    if !IsPositiveNumber(Str(d.precio)) then Some("El precio unitario debe ser mayor a 0") else None
  }

  /** The `forEach` of `validateForm` as written. */
  const RowRulesAsWritten: seq<RowRule<Line>> :=
    [RowRule("insumo_", InsumoCheck), RowRule("cantidad_", CantidadCheckAsWritten),
     RowRule("precio_", PrecioCheckAsWritten)]

  /** The same tests with quantity and price required to be numbers above
      zero. */
  const RowRules: seq<RowRule<Line>> :=
    [RowRule("insumo_", InsumoCheck), RowRule("cantidad_", CantidadCheck),
     RowRule("precio_", PrecioCheck)]

  lemma RulesWellFormed()
    ensures WellFormedRules(RowRulesAsWritten) && WellFormedRules(RowRules)
  {
    assert NoDigit("insumo_") && NoDigit("cantidad_") && NoDigit("precio_");
  }

  /** `validateForm` with the given row tests: the top-level checks, then
      the row tests on every line; valid when nothing was recorded. */
  function ValidateWith(form: Form, rules: seq<RowRule<Line>>): (r: Errors)
    requires WellFormedRules(rules)
    ensures "id_proveedor" in r <==> form.idProveedor == ""
    ensures "fecha_compra" in r <==> form.fecha == ""
    ensures "estado" in r <==> form.estado == ""
    ensures "detalleCompras" in r <==> form.lines == []
    ensures forall i, a :: 0 <= i < |form.lines| && 0 <= a < |rules| ==>
              (RowKey(rules[a].prefix, i) in r <==> rules[a].check(form.lines[i]).Some?)
    ensures r == map[] <==>
              form.idProveedor != "" && form.fecha != "" && form.estado != "" && form.lines != []
              && AllRowsPass(rules, form.lines)
  {
    var checks := FieldChecks(form);
    FieldChecksWellFormed(form);
    var r := Validator(checks, form.lines, rules);
    assert checks[0].key == "id_proveedor" && checks[1].key == "fecha_compra"
           && checks[2].key == "estado" && checks[3].key == "detalleCompras";
    r
  }

  /** A line is complete for the intended validator. */
  predicate LineComplete(d: Line) {
    d.idInsumo != "" && IsPositiveNumber(Str(d.cantidad)) && IsPositiveNumber(Str(d.precio))
  }

  lemma RowRulesMeaning(d: Line)
    ensures RowPasses(RowRules, d) <==> LineComplete(d)
  {
    assert RowRules[0].check(d) == InsumoCheck(d);
    assert RowRules[1].check(d) == CantidadCheck(d);
    assert RowRules[2].check(d) == PrecioCheck(d);
    if LineComplete(d) {
      forall a | 0 <= a < 3 ensures RowRules[a].check(d).None? {
        if a == 0 {} else if a == 1 {} else {}
      }
    }
  }

  lemma RowRulesAsWrittenMeaning(d: Line)
    ensures RowPasses(RowRulesAsWritten, d) <==>
              d.idInsumo != "" && !NotPositiveAsWritten(d.cantidad) && !NotPositiveAsWritten(d.precio)
  {
    assert RowRulesAsWritten[0].check(d) == InsumoCheck(d);
    assert RowRulesAsWritten[1].check(d) == CantidadCheckAsWritten(d);
    assert RowRulesAsWritten[2].check(d) == PrecioCheckAsWritten(d);
    if d.idInsumo != "" && !NotPositiveAsWritten(d.cantidad) && !NotPositiveAsWritten(d.precio) {
      forall a | 0 <= a < 3 ensures RowRulesAsWritten[a].check(d).None? {
        if a == 0 {} else if a == 1 {} else {}
      }
    }
  }

  /** The intended validator accepts exactly a purchase with supplier, date,
      status and at least one line, every line naming a supply and holding a
      quantity and a price above zero; a failing line `i` is reported under
      "insumo_i", "cantidad_i" or "precio_i". */
  function Validate(form: Form): (r: Errors)
    ensures r == map[] <==>
              form.idProveedor != "" && form.fecha != "" && form.estado != "" && form.lines != []
              && forall i :: 0 <= i < |form.lines| ==> LineComplete(form.lines[i])
    ensures forall i :: 0 <= i < |form.lines| ==>
              (RowKey("insumo_", i) in r <==> form.lines[i].idInsumo == "")
              && (RowKey("cantidad_", i) in r <==> !IsPositiveNumber(Str(form.lines[i].cantidad)))
              && (RowKey("precio_", i) in r <==> !IsPositiveNumber(Str(form.lines[i].precio)))
  {
    RulesWellFormed();
    LinesPass(form.lines);
    ValidateRowKeys(form);
    ValidateWith(form, RowRules)
  }

  lemma ValidateRowKeys(form: Form)
    requires WellFormedRules(RowRules)
    ensures forall i :: 0 <= i < |form.lines| ==>
              (RowKey("insumo_", i) in ValidateWith(form, RowRules) <==> form.lines[i].idInsumo == "")
              && (RowKey("cantidad_", i) in ValidateWith(form, RowRules) <==> !IsPositiveNumber(Str(form.lines[i].cantidad)))
              && (RowKey("precio_", i) in ValidateWith(form, RowRules) <==> !IsPositiveNumber(Str(form.lines[i].precio)))
  {
    var r := ValidateWith(form, RowRules);
    assert RowRules[0].prefix == "insumo_" && RowRules[1].prefix == "cantidad_" && RowRules[2].prefix == "precio_";
    assert forall i :: 0 <= i < |form.lines| ==>
             (RowKey(RowRules[0].prefix, i) in r <==> InsumoCheck(form.lines[i]).Some?)
             && (RowKey(RowRules[1].prefix, i) in r <==> CantidadCheck(form.lines[i]).Some?)
             && (RowKey(RowRules[2].prefix, i) in r <==> PrecioCheck(form.lines[i]).Some?);
  }

  /** Every line passes the intended tests exactly when every line is
      complete. */
  lemma LinesPass(lines: seq<Line>)
    ensures AllRowsPass(RowRules, lines) <==> forall i :: 0 <= i < |lines| ==> LineComplete(lines[i])
  {
    forall i | 0 <= i < |lines| ensures RowPasses(RowRules, lines[i]) <==> LineComplete(lines[i]) {
      RowRulesMeaning(lines[i]);
    }
  }

  /** `validateForm` as written: a quantity or price is only caught when
      empty or converting to a number at most zero. */
  function ValidateAsWritten(form: Form): (r: Errors)
    ensures r == map[] <==>
              form.idProveedor != "" && form.fecha != "" && form.estado != "" && form.lines != []
              && forall i :: 0 <= i < |form.lines| ==>
                   form.lines[i].idInsumo != "" && !NotPositiveAsWritten(form.lines[i].cantidad)
                   && !NotPositiveAsWritten(form.lines[i].precio)
  {
    RulesWellFormed();
    forall d { RowRulesAsWrittenMeaning(d); }
    ValidateWith(form, RowRulesAsWritten)
  }

  // ---- Saving ----

  /** The supply ids of the lines, in order. */
  function SupplyIds(lines: seq<Line>): (ids: seq<string>)
    ensures |ids| == |lines| && forall i :: 0 <= i < |lines| ==> ids[i] == lines[i].idInsumo
  {
    seq(|lines|, i requires 0 <= i < |lines| => lines[i].idInsumo)
  }

  datatype SaveOutcome = Invalid(errors: Errors) | DuplicateSupplies | Submitted(payload: Payload)

  /** `handleSave` given the validator's verdict: stop on any validation
      error; then stop when `ids.length !== new Set(ids).size`; otherwise
      submit the purchase with its lines in order. */
  function SaveAfter(form: Form, errors: Errors): (r: SaveOutcome)
    ensures r.Invalid? <==> errors != map[]
    ensures r.DuplicateSupplies? <==> errors == map[] && HasRepeat(SupplyIds(form.lines))
    ensures r.Submitted? ==> r.payload.idProveedor == form.idProveedor && r.payload.fecha == form.fecha
                             && r.payload.estado == form.estado && r.payload.lines == form.lines
  {
    if errors != map[] then Invalid(errors)
    else
      var ids := SupplyIds(form.lines);
      DistinctCountDetectsRepeat(ids);
      if |ids| != DistinctCount(ids) then DuplicateSupplies
      else Submitted(Payload(form.idProveedor, form.fecha, form.estado, form.lines))
  }

  /** The purchase save with the intended validator: a purchase is submitted
      exactly when it is complete and no supply is chosen twice, and then
      every submitted line is complete. */
  function Save(form: Form): (r: SaveOutcome)
    ensures r.Submitted? <==> Validate(form) == map[] && !HasRepeat(SupplyIds(form.lines))
    ensures r.Submitted? ==> |r.payload.lines| == |form.lines| && r.payload.lines != []
                             && forall i :: 0 <= i < |r.payload.lines| ==> LineComplete(r.payload.lines[i])
  {
    SaveAfter(form, Validate(form))
  }

  /** The purchase save as written. */
  function SaveAsWritten(form: Form): (r: SaveOutcome)
    ensures r.Submitted? <==> ValidateAsWritten(form) == map[] && !HasRepeat(SupplyIds(form.lines))
  {
    SaveAfter(form, ValidateAsWritten(form))
  }

  /** Whether a purchase is refused for duplicate supplies does not depend
      on the order of its lines. */
  lemma DuplicateIgnoresLineOrder(xs: seq<Line>, ys: seq<Line>)
    requires multiset(xs) == multiset(ys)
    ensures HasRepeat(SupplyIds(xs)) <==> HasRepeat(SupplyIds(ys))
  {
    SupplyIdsMultiset(xs, ys);
    RepeatIgnoresOrder(SupplyIds(xs), SupplyIds(ys));
  }

  lemma {:induction false} SupplyIdsMultiset(xs: seq<Line>, ys: seq<Line>)
    requires multiset(xs) == multiset(ys)
    ensures multiset(SupplyIds(xs)) == multiset(SupplyIds(ys))
    decreases |xs|
  {
    if xs != [] {
      var x := xs[0];
      assert x in multiset(ys);
      var j :| 0 <= j < |ys| && ys[j] == x;
      var rest := ys[..j] + ys[j + 1..];
      TakeOutLine(ys, j);
      TakeOutId(ys, j);
      TakeOutFirst(xs);
      CancelOne(x, multiset(xs[1..]), multiset(rest));
      SupplyIdsMultiset(xs[1..], rest);
    } else {
      assert |multiset(ys)| == 0;
      assert ys == [];
    }
  }

  /** Taking out the first line. */
  lemma TakeOutFirst(xs: seq<Line>)
    requires xs != []
    ensures multiset(xs) == multiset{xs[0]} + multiset(xs[1..])
    ensures multiset(SupplyIds(xs)) == multiset{xs[0].idInsumo} + multiset(SupplyIds(xs[1..]))
  {
    assert xs == [xs[0]] + xs[1..];
    IdsSplit([xs[0]], xs[1..]);
    assert SupplyIds([xs[0]]) == [xs[0].idInsumo];
  }

  /** Taking line `j` out removes one occurrence of it. */
  lemma TakeOutLine(ys: seq<Line>, j: int)
    requires 0 <= j < |ys|
    ensures multiset(ys) == multiset{ys[j]} + multiset(ys[..j] + ys[j + 1..])
  {
    var pre, post := ys[..j], ys[j + 1..];
    assert ys == pre + [ys[j]] + post;
    assert multiset(ys) == multiset(pre) + multiset{ys[j]} + multiset(post);
    assert multiset(pre + post) == multiset(pre) + multiset(post);
  }

  /** Equal multisets stay equal when one shared occurrence goes. */
  lemma CancelOne<T>(x: T, a: multiset<T>, b: multiset<T>)
    requires multiset{x} + a == multiset{x} + b
    ensures a == b
  {
    forall y ensures a[y] == b[y] {
      assert (multiset{x} + a)[y] == (multiset{x} + b)[y];
    }
  }

  /** Taking line `j` out removes one occurrence of its supply id. */
  lemma TakeOutId(ys: seq<Line>, j: int)
    requires 0 <= j < |ys|
    ensures multiset(SupplyIds(ys)) == multiset{ys[j].idInsumo} + multiset(SupplyIds(ys[..j] + ys[j + 1..]))
  {
    var pre, post := ys[..j], ys[j + 1..];
    assert ys == pre + [ys[j]] + post;
    IdsSplit(pre + [ys[j]], post);
    IdsSplit(pre, [ys[j]]);
    IdsSplit(pre, post);
    assert SupplyIds([ys[j]]) == [ys[j].idInsumo];
    var a, b := SupplyIds(pre), SupplyIds(post);
    assert SupplyIds(ys) == a + [ys[j].idInsumo] + b;
    assert multiset(SupplyIds(ys)) == multiset(a) + multiset{ys[j].idInsumo} + multiset(b);
    assert multiset(SupplyIds(pre + post)) == multiset(a) + multiset(b);
  }

  lemma IdsSplit(a: seq<Line>, b: seq<Line>)
    ensures SupplyIds(a + b) == SupplyIds(a) + SupplyIds(b)
  {
  }

  // ---- Editing lines ----

  datatype Field = IdInsumo | Cantidad | PrecioUnitario

  predicate IsDigitOrDot(c: char) {
    IsDigit(c) || c == '.'
  }

  /** `value.replace(/\D/, "")`: only the first non-digit goes. */
  function SanitiseCantidad(value: string): string {
    RemoveFirstFailing(value, IsDigit)
  }

  /** `value.replace(/[^\d.]/, "")`: only the first character that is
      neither a digit nor '.' goes. */
  function SanitisePrecio(value: string): string {
    RemoveFirstFailing(value, IsDigitOrDot)
  }

  /** `handleDetalleChange(index, e)`: the quantity and price are sanitised,
      the supply id is stored as chosen, and no other line changes. */
  function EditLine(form: Form, index: int, field: Field, value: string): (r: Form)
    requires 0 <= index < |form.lines|
    ensures r.idProveedor == form.idProveedor && r.fecha == form.fecha && r.estado == form.estado
    ensures |r.lines| == |form.lines|
    ensures forall j :: 0 <= j < |form.lines| && j != index ==> r.lines[j] == form.lines[j]
    ensures field == IdInsumo ==> r.lines[index] == form.lines[index].(idInsumo := value)
    ensures field == Cantidad ==> r.lines[index] == form.lines[index].(cantidad := SanitiseCantidad(value))
    ensures field == PrecioUnitario ==> r.lines[index] == form.lines[index].(precio := SanitisePrecio(value))
  {
    var edit := (d: Line) =>
      match field
      case IdInsumo => d.(idInsumo := value)
      case Cantidad => d.(cantidad := SanitiseCantidad(value))
      case PrecioUnitario => d.(precio := SanitisePrecio(value));
    form.(lines := Update(form.lines, index, edit))
  }

  /** Typing one character into a quantity that holds only digits leaves
      only digits: the keystroke is dropped if it is not a digit. */
  lemma OneKeystrokeKeepsDigits(before: string, after: string, c: char)
    requires AllDigits(before) && AllDigits(after)
    ensures AllDigits(SanitiseCantidad(before + [c] + after))
    ensures IsDigit(c) ==> SanitiseCantidad(before + [c] + after) == before + [c] + after
  {
    var s := before + [c] + after;
    assert forall i :: 0 <= i < |s| && i != |before| ==> IsDigit(s[i]);
    var k := FirstFailing(s, IsDigit);
    if k < |s| {
      assert k == |before|;
      assert s[..k] + s[k + 1..] == before + after;
    }
  }

  /** Without the `g` flag a pasted value keeps its second non-digit. */
  lemma PastedQuantityKeepsLetter()
    ensures SanitiseCantidad("a1b") == "1b"
  {
    assert FirstFailing("a1b", IsDigit) == 0;
  }

  /** Dots are never removed, so a price can hold several. */
  lemma PriceKeepsEveryDot(value: string)
    requires forall i :: 0 <= i < |value| ==> IsDigitOrDot(value[i])
    ensures SanitisePrecio(value) == value
  {
  }

  /** The input's `name` attribute. */
  function InputName(field: Field): string {
    match field
    case IdInsumo => "id_insumo"
    case Cantidad => "cantidad"
    case PrecioUnitario => "precio_unitario"
  }

  /** The validator's key prefix for the same field. */
  function RulePrefix(field: Field): string {
    match field
    case IdInsumo => "insumo_"
    case Cantidad => "cantidad_"
    case PrecioUnitario => "precio_"
  }

  /** The errors `handleDetalleChange` passes to `setErrors`: the message
      under `${name}_${index}`, built from the input's name, blanked. */
  function DetalleChangeErrors(errors: Errors, field: Field, index: nat): Errors {
    errors[RowKey(InputName(field) + "_", index) := ""]
  }

  /** The errors the line input's `onChange` passes to `setErrors` right
      after calling `handleDetalleChange`: the validator's key blanked. */
  function OnChangeErrors(errors: Errors, field: Field, index: nat): Errors {
    errors[RowKey(RulePrefix(field), index) := ""]
  }

  /** Several `setErrors(value)` calls in one event handler: React keeps the
      last value passed, or the current errors when there is none. */
  function LastWrite(current: Errors, writes: seq<Errors>): Errors {
    if writes == [] then current else writes[|writes| - 1]
  }

  /** The errors after a line input's `onChange`. Both of its `setErrors`
      calls spread the same `errors`, so the second one decides: the message
      the validator stored for that field and row is blanked, every other
      message stays, and no other key appears. */
  function ClearAfterEdit(errors: Errors, field: Field, index: nat): (r: Errors)
    ensures RowKey(RulePrefix(field), index) in r && r[RowKey(RulePrefix(field), index)] == ""
    ensures forall k :: k in r <==> k in errors || k == RowKey(RulePrefix(field), index)
    ensures forall k :: k in errors && k != RowKey(RulePrefix(field), index) ==> r[k] == errors[k]
  {
    LastWrite(errors, [DetalleChangeErrors(errors, field, index), OnChangeErrors(errors, field, index)])
  }

  /** The write made by `handleDetalleChange` alone is lost for the price:
      its key "precio_unitario_i" is not the validator's "precio_i", and it
      does not survive the `onChange`'s own call. For the quantity the two
      calls write the same key. */
  lemma HandlerWriteOverridden(errors: Errors, index: nat)
    requires RowKey("precio_unitario_", index) !in errors
    ensures RowKey("precio_unitario_", index) in DetalleChangeErrors(errors, PrecioUnitario, index)
    ensures RowKey("precio_unitario_", index) !in ClearAfterEdit(errors, PrecioUnitario, index)
    ensures DetalleChangeErrors(errors, Cantidad, index) == ClearAfterEdit(errors, Cantidad, index)
  {
    var s := NatToString(index);
    assert InputName(PrecioUnitario) + "_" == "precio_unitario_";
    assert InputName(Cantidad) + "_" == RulePrefix(Cantidad);
    assert RowKey("precio_unitario_", index)[7] == 'u';
    assert RowKey("precio_", index)[7] == s[0];
  }

  /** `handleAddDetalle`: one empty line at the end. */
  function AddLine(form: Form): (r: Form)
    ensures |r.lines| == |form.lines| + 1 && r.lines[..|form.lines|] == form.lines
    ensures r.lines[|form.lines|] == EmptyLine
    ensures r.(lines := form.lines) == form
  {
    form.(lines := Append(form.lines, EmptyLine))
  }

  /** `handleRemoveDetalle(index)`: `splice(index, 1)`. */
  function RemoveLine(form: Form, index: int): (r: Form)
    ensures r.(lines := form.lines) == form
    ensures 0 <= index < |form.lines| ==> r.lines == form.lines[..index] + form.lines[index + 1..]
  {
    form.(lines := RemoveAt(form.lines, index))
  }

  /** Removing the line just added restores the form. */
  lemma RemoveAddedLine(form: Form)
    ensures RemoveLine(AddLine(form), |form.lines|) == form
  {
    RemoveUndoesAppend(form.lines, EmptyLine);
  }

  // ---- Listing ----

  /** `compra.proveedorCompra?.nombre?.toLowerCase().includes(...)`. */
  predicate ListedBy(search: string, c: Compra) {
    c.proveedorNombre.Some? && MatchesSearch(c.proveedorNombre.value, search)
  }

  /** `filterCompras`: purchases whose supplier name contains the search;
      a purchase without a supplier name is never listed, even for an empty
      search. */
  function Filter(compras: seq<Compra>, search: string): (r: seq<Compra>)
    ensures forall i :: 0 <= i < |r| ==> r[i] in compras && ListedBy(search, r[i])
    ensures forall i :: 0 <= i < |compras| && ListedBy(search, compras[i]) ==> compras[i] in r
  {
    Keep(compras, c => ListedBy(search, c))
  }

  /** A fetched purchase is listed exactly when it has a supplier name
      containing the search text. */
  lemma ListedIff(compras: seq<Compra>, search: string, c: Compra)
    requires c in compras
    ensures c in Filter(compras, search) <==> c.proveedorNombre.Some? && MatchesSearch(c.proveedorNombre.value, search)
  {
    var r := Filter(compras, search);
    if c in r {
      var i :| 0 <= i < |r| && r[i] == c;
    } else {
      var i :| 0 <= i < |compras| && compras[i] == c;
    }
  }

  /** With an empty search exactly the purchases with a supplier name are
      listed. */
  lemma EmptySearchListsNamed(compras: seq<Compra>, c: Compra)
    requires c in compras
    ensures c in Filter(compras, "") <==> c.proveedorNombre.Some?
  {
    if c.proveedorNombre.Some? {
      EmptySearchMatches(c.proveedorNombre.value);
      var i :| 0 <= i < |compras| && compras[i] == c;
    }
  }

  function Shown(compras: seq<Compra>, search: string, page: int): (r: seq<Compra>)
    ensures |r| <= ComprasPerPage
    ensures forall i :: 0 <= i < |r| ==> r[i] in compras && ListedBy(search, r[i])
  {
    PageItems(Filter(compras, search), page, ComprasPerPage)
  }

  // ---- The validator accepts text that is not a number ----

  /** Typing "1e-5" into the price, a number the input accepts: the
      sanitiser drops only the 'e', and `Number("1-5")` is `NaN`. */
  lemma ExponentPriceBecomesNaN()
    ensures SanitisePrecio("1e-5") == "1-5"
    ensures StringToNumber("1-5") == NaN
  {
    SanitiseExponentPrice();
    DashedDigitsNoLiteral();
    var t := "1-5";
    assert IsDigit(t[0]) && IsDigit(t[|t| - 1]);
    NotALiteral(t);
  }

  lemma SanitiseExponentPrice()
    ensures SanitisePrecio("1e-5") == "1-5"
  {
    var v := "1e-5";
    assert IsDigitOrDot(v[0]) && !IsDigitOrDot(v[1]);
    assert FirstFailing(v, IsDigitOrDot) == 1;
    assert v[..1] + v[2..] == "1-5";
  }

  lemma DashedDigitsNoLiteral()
    ensures UnsignedLiteral("1-5").None?
  {
    var t := "1-5";
    assert NotExponentMark(t[0]) && NotExponentMark(t[1]) && NotExponentMark(t[2]);
    assert FirstFailing(t, NotExponentMark) == 3;
    assert NotDot(t[0]) && NotDot(t[1]) && NotDot(t[2]);
    assert FirstFailing(t, NotDot) == 3;
    assert t[..3] == t;
    assert !IsDigit(t[1]);
  }

  /** A non-empty digit string spelling a number above zero passes both
      the quantity test as written and the intended one. */
  lemma PositiveDigitsPass(d: string)
    requires d != "" && AllDigits(d) && DigitsValue(d) > 0
    ensures IsPositiveNumber(Str(d)) && !NotPositiveAsWritten(d)
  {
    DigitStringToNumber(d);
  }

  /** A line with a supply, a positive whole quantity and a price whose
      text converts to `NaN` passes the tests as written and fails the
      intended ones. */
  lemma NaNPriceLinePassesAsWritten(id: string, q: string, p: string)
    requires id != "" && q != "" && AllDigits(q) && DigitsValue(q) > 0
    requires p != "" && StringToNumber(p) == NaN
    ensures RowPasses(RowRulesAsWritten, Line(id, q, p))
    ensures !RowPasses(RowRules, Line(id, q, p))
  {
    PositiveDigitsPass(q);
    RowRulesAsWrittenMeaning(Line(id, q, p));
    RowRulesMeaning(Line(id, q, p));
  }

  /** A purchase with one line whose price is still empty. */
  const BlankPriceForm := Form("1", "2024-05-01", DefaultEstado, [Line("3", "2", "")])

  /** The same purchase after "1e-5" is typed into the price. */
  const TypoForm := Form("1", "2024-05-01", DefaultEstado, [Line("3", "2", "1-5")])

  lemma TypingExponentPrice()
    ensures EditLine(BlankPriceForm, 0, PrecioUnitario, "1e-5") == TypoForm
  {
    ExponentPriceBecomesNaN();
  }

  /** As written, typing the price "1e-5" leaves "1-5", which passes
      validation, and the purchase is submitted, because `Number("1-5")` is
      `NaN` and `NaN <= 0` is false; the intended validator rejects it. */
  lemma ExponentPriceAcceptedAsWritten()
    ensures EditLine(BlankPriceForm, 0, PrecioUnitario, "1e-5") == TypoForm
    ensures ValidateAsWritten(TypoForm) == map[]
    ensures SaveAsWritten(TypoForm).Submitted?
    ensures Validate(TypoForm) != map[]
  {
    TypingExponentPrice();
    TypoLineFields();
    NaNPriceAcceptedAsWritten(TypoForm);
  }

  lemma TypoLineFields()
    ensures var d := TypoForm.lines[0];
            && d.idInsumo != "" && d.cantidad != "" && AllDigits(d.cantidad) && DigitsValue(d.cantidad) > 0
            && d.precio != "" && StringToNumber(d.precio) == NaN
  {
    ExponentPriceBecomesNaN();
    QuantityTwo();
  }

  lemma QuantityTwo()
    ensures AllDigits("2") && DigitsValue("2") == 2
  {
    assert IsDigit("2"[0]);
  }

  /** A complete header and one line with a supply, a positive whole
      quantity and a price that converts to `NaN`: the purchase is sent as
      written and refused by the intended validator. */
  lemma NaNPriceAcceptedAsWritten(form: Form)
    requires form.idProveedor != "" && form.fecha != "" && form.estado != "" && |form.lines| == 1
    requires var d := form.lines[0];
             && d.idInsumo != "" && d.cantidad != "" && AllDigits(d.cantidad) && DigitsValue(d.cantidad) > 0
             && d.precio != "" && StringToNumber(d.precio) == NaN
    ensures ValidateAsWritten(form) == map[]
    ensures SaveAsWritten(form).Submitted?
    ensures Validate(form) != map[]
  {
    var d := form.lines[0];
    NaNPriceLinePassesAsWritten(d.idInsumo, d.cantidad, d.precio);
    assert d == Line(d.idInsumo, d.cantidad, d.precio);
    assert AllRowsPass(RowRulesAsWritten, form.lines);
    RowRulesMeaning(d);
    assert !LineComplete(d);
    OneLineNoRepeat(form.lines);
  }

  lemma OneLineNoRepeat(lines: seq<Line>)
    requires |lines| == 1
    ensures !HasRepeat(SupplyIds(lines))
  {
    assert |SupplyIds(lines)| == 1;
  }

  /** The intended validator only lets through lines whose quantity and
      price are numbers above zero. */
  lemma ValidLinesArePositive(form: Form, i: int)
    requires Validate(form) == map[] && 0 <= i < |form.lines|
    ensures IsPositiveNumber(Str(form.lines[i].cantidad)) && IsPositiveNumber(Str(form.lines[i].precio))
    ensures form.lines[i].idInsumo != ""
  {
  }
}
