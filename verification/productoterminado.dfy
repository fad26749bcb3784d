/** The finished-product screen: a product has a name, a description and a
    price, each checked by a required test and then a pattern; a production
    run lists (product, quantity) rows whose quantities must be digits. */
module ProductoTerminado {
  import opened Wrappers
  import opened JsString
  import opened JsValue
  import opened NamePatterns
  import opened Listing
  import opened LineItems
  import opened Forms

  /** The product being created or edited; a fetched price may be a
      number. */
  datatype Producto = Producto(nombre: string, descripcion: string, precio: Value)

  /** A product as listed. */
  datatype Stored = Stored(id: int, nombre: string, descripcion: string, precio: Value)

  /** A production row: the product chosen and the quantity, stored as
      `Number(value)` once edited. */
  datatype ProdRow = ProdRow(idProducto: Value, cantidad: Value)

  const ProductosPerPage: nat := 3

  /** `handleCreate`. */
  const NewProducto := Producto("", "", Str(""))

  const EmptyProdRow := ProdRow(Str(""), Str(""))

  /** `handleProductionCreate`: one empty row. */
  const NewProduction: seq<ProdRow> := [EmptyProdRow]

  // ---- validateForm ----

  const NombreRequired := "El nombre es requerido"
  const NombrePattern := "El nombre debe tener al menos 3 caracteres y solo puede contener letras, tildes y espacios"
  const DescripcionRequired := "La descripción es requerida"
  const DescripcionPattern := "La descripción debe tener al menos 5 caracteres y solo puede contener letras, tildes y espacios"
  const PrecioRequired := "El precio es requerido"
  const PrecioPattern := "El precio solo puede contener números"

  /** The name: required, then `/^[a-zA-ZáéíóúÁÉÍÓÚñÑ\s]{3,}$/`. */
  function NombreError(nombre: string): (r: Option<string>)
    ensures r.None? <==> RepeatAtLeast(nombre, InEnyeClass, 3)
    ensures nombre == "" ==> r == Some(NombreRequired)
    ensures nombre != "" && r.Some? ==> r == Some(NombrePattern)
  {
    if nombre == "" then Some(NombreRequired)
    else if !RepeatAtLeast(nombre, InEnyeClass, 3) then Some(NombrePattern)
    else None
  }

  /** The description: required, then the same class five times or more. */
  function DescripcionError(descripcion: string): (r: Option<string>)
    ensures r.None? <==> RepeatAtLeast(descripcion, InEnyeClass, 5)
    ensures descripcion == "" ==> r == Some(DescripcionRequired)
    ensures descripcion != "" && r.Some? ==> r == Some(DescripcionPattern)
  {
    if descripcion == "" then Some(DescripcionRequired)
    else if !RepeatAtLeast(descripcion, InEnyeClass, 5) then Some(DescripcionPattern)
    else None
  }

  /** The price: truthy, then `/^\d+$/` on its text; typed text passes
      exactly when it is one or more ASCII digits. */
  function PrecioError(precio: Value): (r: Option<string>)
    ensures r.None? <==> Truthy(precio) && TestDigitsOnly(precio)
    ensures precio.Str? ==> (r.None? <==> precio.s != "" && AllDigits(precio.s))
    ensures !Truthy(precio) ==> r == Some(PrecioRequired)
  {
    if !Truthy(precio) then Some(PrecioRequired)
    else if !TestDigitsOnly(precio) then Some(PrecioPattern)
    else None
  }

  function FieldChecks(p: Producto): seq<FieldCheck> {
    [FieldCheck("nombre", NombreError(p.nombre)),
     FieldCheck("descripcion", DescripcionError(p.descripcion)),
     FieldCheck("precio", PrecioError(p.precio))]
  }

  lemma FieldChecksWellFormed(p: Producto)
    ensures WellFormedChecks(FieldChecks(p))
  {
    assert NoDigit("nombre") && NoDigit("descripcion") && NoDigit("precio");
  }

  /** `validateForm`: each failing field's message under its name; valid
      exactly when the name and description are letters of the class (at
      least 3 and 5) and the price is digits. */
  function Validate(p: Producto): (r: Errors)
    ensures "nombre" in r <==> !RepeatAtLeast(p.nombre, InEnyeClass, 3)
    ensures "descripcion" in r <==> !RepeatAtLeast(p.descripcion, InEnyeClass, 5)
    ensures "precio" in r <==> !(Truthy(p.precio) && TestDigitsOnly(p.precio))
    ensures "nombre" in r ==> r["nombre"] == NombreError(p.nombre).value
    ensures "descripcion" in r ==> r["descripcion"] == DescripcionError(p.descripcion).value
    ensures "precio" in r ==> r["precio"] == PrecioError(p.precio).value
    ensures r == map[] <==>
              RepeatAtLeast(p.nombre, InEnyeClass, 3) && RepeatAtLeast(p.descripcion, InEnyeClass, 5)
              && Truthy(p.precio) && TestDigitsOnly(p.precio)
  {
    var checks := FieldChecks(p);
    FieldChecksWellFormed(p);
    FieldMapEmpty(checks);
    var r := FieldMap(checks);
    assert checks[0].key == "nombre" && checks[1].key == "descripcion" && checks[2].key == "precio";
    r
  }

  /** A name holding a digit, such as "Harina2", is rejected. */
  lemma DigitNameRejected()
    ensures NombreError("Harina2") == Some(NombrePattern)
  {
    DigitInNoLetterClass("Harina2", 6);
  }

  datatype SaveOutcome = Invalid(errors: Errors) | Submitted(producto: Producto)

  /** `handleSave`: the product is submitted as it stands exactly when it
      validates. */
  function Save(p: Producto): (r: SaveOutcome)
    ensures r.Submitted? <==> Validate(p) == map[]
    ensures r.Submitted? ==> r.producto == p
    ensures r.Invalid? ==> r.errors == Validate(p)
  {
    var errors := Validate(p);
    if errors == map[] then Submitted(p) else Invalid(errors)
  }

  // ---- Production ----

  const ProductoRequired := "El producto es requerido"
  const CantidadRequired := "La cantidad es requerida"
  const CantidadPattern := "La cantidad solo puede contener números"

  function ProductoCheck(d: ProdRow): Option<string> {
    if !Truthy(d.idProducto) then Some(ProductoRequired) else None
  }

  function CantidadCheck(d: ProdRow): Option<string> {
    if !Truthy(d.cantidad) then Some(CantidadRequired)
    else if !TestDigitsOnly(d.cantidad) then Some(CantidadPattern)
    else None
  }

  const ProductionRules: seq<RowRule<ProdRow>> :=
    [RowRule("producto_", ProductoCheck), RowRule("cantidad_", CantidadCheck)]

  lemma RulesWellFormed()
    ensures WellFormedRules(ProductionRules)
  {
    assert NoDigit("producto_") && NoDigit("cantidad_");
  }

  /** A production row passes: a product, and a truthy quantity whose text
      is digits. */
  predicate RowReady(d: ProdRow) {
    Truthy(d.idProducto) && Truthy(d.cantidad) && TestDigitsOnly(d.cantidad)
  }

  lemma RulesMeaning(d: ProdRow)
    ensures RowPasses(ProductionRules, d) <==> RowReady(d)
  {
    assert ProductionRules[0].check(d) == ProductoCheck(d);
    assert ProductionRules[1].check(d) == CantidadCheck(d);
    if RowReady(d) {
      forall a | 0 <= a < 2 ensures ProductionRules[a].check(d).None? {
        if a == 0 {} else {}
      }
    }
  }

  /** `validateProductionForm`: valid exactly when every row is ready; an
      empty run is valid. */
  function ValidateProduction(rows: seq<ProdRow>): (r: Errors)
    ensures r == map[] <==> forall i :: 0 <= i < |rows| ==> RowReady(rows[i])
    ensures forall i :: 0 <= i < |rows| ==>
              (RowKey("producto_", i) in r <==> !Truthy(rows[i].idProducto))
              && (RowKey("cantidad_", i) in r <==> !(Truthy(rows[i].cantidad) && TestDigitsOnly(rows[i].cantidad)))
  {
    RulesWellFormed();
    forall d { RulesMeaning(d); }
    var r := Validator([], rows, ProductionRules);
    assert forall i :: 0 <= i < |rows| ==>
             (RowKey(ProductionRules[0].prefix, i) in r <==> ProductionRules[0].check(rows[i]).Some?)
             && (RowKey(ProductionRules[1].prefix, i) in r <==> ProductionRules[1].check(rows[i]).Some?);
    r
  }

  /** The row message for a quantity: the required message when it is
      falsy, the digits message when it is truthy but not digits. */
  lemma QuantityMessage(rows: seq<ProdRow>, i: int)
    requires 0 <= i < |rows|
    ensures !Truthy(rows[i].cantidad) ==> ValidateProduction(rows)[RowKey("cantidad_", i)] == CantidadRequired
    ensures Truthy(rows[i].cantidad) && !TestDigitsOnly(rows[i].cantidad) ==>
              ValidateProduction(rows)[RowKey("cantidad_", i)] == CantidadPattern
  {
    RulesWellFormed();
    var r := Validator([], rows, ProductionRules);
    assert ProductionRules[1].check(rows[i]) == CantidadCheck(rows[i]);
    assert ProductionRules[1].prefix == "cantidad_";
  }

  datatype ProdField = IdProducto | Cantidad

  /** `handleProductionChange(index, e)`: a quantity is stored as
      `Number(value)`, a product as the chosen text. */
  function EditProduction(rows: seq<ProdRow>, index: int, field: ProdField, value: string): (r: seq<ProdRow>)
    requires 0 <= index < |rows|
    ensures |r| == |rows| && forall j :: 0 <= j < |rows| && j != index ==> r[j] == rows[j]
    ensures field == Cantidad ==> r[index] == rows[index].(cantidad := StringToNumber(value))
    ensures field == IdProducto ==> r[index] == rows[index].(idProducto := Str(value))
  {
    var edit := (d: ProdRow) =>
      match field
      case IdProducto => d.(idProducto := Str(value))
      case Cantidad => d.(cantidad := StringToNumber(value));
    Update(rows, index, edit)
  }

  /** Clearing a quantity stores `Number("")`, which is 0, so the row is
      then reported with the required message. */
  lemma ClearedQuantityRequired(rows: seq<ProdRow>, index: int)
    requires 0 <= index < |rows|
    ensures var edited := EditProduction(rows, index, Cantidad, "");
            edited[index].cantidad == Num(0.0)
            && RowKey("cantidad_", index) in ValidateProduction(edited)
            && ValidateProduction(edited)[RowKey("cantidad_", index)] == CantidadRequired
  {
    var edited := EditProduction(rows, index, Cantidad, "");
    assert Trim("") == "";
    QuantityMessage(edited, index);
  }

  /** A typed quantity of digits such as "12" is stored as the number 12,
      which passes the digits test. */
  lemma DigitQuantityAccepted(rows: seq<ProdRow>, index: int, value: string)
    requires 0 <= index < |rows| && value != "" && AllDigits(value) && DigitsValue(value) > 0
    requires DigitsValue(value) < 1000000000000000000000
    ensures var edited := EditProduction(rows, index, Cantidad, value);
            RowKey("cantidad_", index) !in ValidateProduction(edited)
  {
    DigitStringToNumber(value);
    var q := StringToNumber(value);
    var n := DigitsValue(value);
    assert q == Num(n as real);
    assert (n as real).Floor == n;
    assert Truthy(q) && TestDigitsOnly(q);
    var edited := EditProduction(rows, index, Cantidad, value);
    assert edited[index].cantidad == q;
  }

  /** A quantity typed in exponent form is stored as the number it spells:
      "1e3" becomes 1000, whose text is digits, so the row's quantity
      passes. */
  lemma ExponentQuantityAccepted(rows: seq<ProdRow>, index: int)
    requires 0 <= index < |rows|
    ensures var edited := EditProduction(rows, index, Cantidad, "1e3");
            edited[index].cantidad == Num(1000.0)
            && RowKey("cantidad_", index) !in ValidateProduction(edited)
  {
    ThousandInExponentForm();
    var q := Num(1000.0);
    assert (1000.0).Floor == 1000;
    assert Truthy(q) && TestDigitsOnly(q);
  }

  /** `handleAddProductionDetalle`. */
  function AddRow(rows: seq<ProdRow>): (r: seq<ProdRow>)
    ensures |r| == |rows| + 1 && r[..|rows|] == rows && r[|rows|] == EmptyProdRow
  {
    Append(rows, EmptyProdRow)
  }

  /** `handleRemoveProductionDetalle(index)`: `splice(index, 1)`. */
  function RemoveRow(rows: seq<ProdRow>, index: int): (r: seq<ProdRow>)
    ensures 0 <= index < |rows| ==> r == rows[..index] + rows[index + 1..]
    ensures index >= |rows| ==> r == rows
  {
    RemoveAt(rows, index)
  }

  lemma RemoveAddedRow(rows: seq<ProdRow>)
    ensures RemoveRow(AddRow(rows), |rows|) == rows
  {
    RemoveUndoesAppend(rows, EmptyProdRow);
  }

  /** A new run starts with one empty row, which is not ready. */
  lemma NewProductionNotReady()
    ensures |NewProduction| == 1 && ValidateProduction(NewProduction) != map[]
  {
    assert !RowReady(NewProduction[0]);
  }

  /** `productionDetails.map(d => ({ ...d, cantidad: Number(d.cantidad) }))`. */
  function ProductionPayload(rows: seq<ProdRow>): (r: seq<ProdRow>)
    ensures |r| == |rows|
    ensures forall i :: 0 <= i < |rows| ==>
              r[i].idProducto == rows[i].idProducto && r[i].cantidad == ToNumber(rows[i].cantidad)
  {
    seq(|rows|, i requires 0 <= i < |rows| => rows[i].(cantidad := ToNumber(rows[i].cantidad)))
  }

  /** Quantities already stored as numbers by editing travel unchanged. */
  lemma NumericRowsUnchanged(rows: seq<ProdRow>)
    requires forall i :: 0 <= i < |rows| ==> rows[i].cantidad.Num?
    ensures ProductionPayload(rows) == rows
  {
  }

  datatype ProductionOutcome = ProductionInvalid(errors: Errors) | ProductionSubmitted(rows: seq<ProdRow>)

  /** `handleProductionSave`. */
  function SaveProduction(rows: seq<ProdRow>): (r: ProductionOutcome)
    ensures r.ProductionSubmitted? <==> forall i :: 0 <= i < |rows| ==> RowReady(rows[i])
    ensures r.ProductionSubmitted? ==> r.rows == ProductionPayload(rows)
  {
    var errors := ValidateProduction(rows);
    if errors == map[] then ProductionSubmitted(ProductionPayload(rows)) else ProductionInvalid(errors)
  }

  /** Every submitted quantity is a whole number at least zero, and above
      zero when it was stored by an edit (as a number). A typed "0" left as
      text would pass as 0, but edits never leave text behind. */
  lemma SubmittedQuantitiesWhole(rows: seq<ProdRow>, i: int)
    requires SaveProduction(rows).ProductionSubmitted? && 0 <= i < |rows|
    ensures var q := SaveProduction(rows).rows[i].cantidad;
            q.Num? && q.n >= 0.0 && q.n.Floor as real == q.n
    ensures rows[i].cantidad.Num? ==> SaveProduction(rows).rows[i].cantidad.n > 0.0
  {
    assert RowReady(rows[i]);
    if rows[i].cantidad.Str? {
      DigitStringToNumber(rows[i].cantidad.s);
    }
  }

  // ---- Listing ----

  function Shown(productos: seq<Stored>, search: string, page: int): (r: seq<Stored>)
    ensures |r| <= ProductosPerPage
    ensures forall i :: 0 <= i < |r| ==> r[i] in productos && MatchesSearch(r[i].nombre, search)
  {
    Listing.Shown(productos, (p: Stored) => p.nombre, search, page, ProductosPerPage)
  }
}
