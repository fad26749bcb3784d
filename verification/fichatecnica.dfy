/** The technical-sheet screen: a sheet ties a product to a description, a
    free-text list of supplies and rows of (supply, quantity). A row is added
    only when no supply repeats and every row is filled in; saving checks
    only that the fields and rows are filled in. A stored sheet can be
    loaded as a template for a new one. */
module FichaTecnica {
  import opened Wrappers
  import opened JsValue
  import opened Listing
  import opened LineItems
  import opened Forms

  /** A row of the working sheet: values chosen in a select or typed, or
      copied from a stored sheet. */
  datatype Row = Row(idInsumo: Value, cantidad: Value)

  /** The sheet being created or edited. */
  datatype Sheet = Sheet(idProducto: Value, descripcion: string, insumos: string, rows: seq<Row>)

  /** A stored row as fetched; its own id is not carried into a copy. */
  datatype StoredRow = StoredRow(id: int, idInsumo: Value, cantidad: Value)

  /** A stored sheet as fetched. */
  datatype Ficha = Ficha(id: int, idProducto: Value, descripcion: string, insumos: string,
                         rows: seq<StoredRow>)

  /** What is submitted: the sheet's fields with its rows copied as they are. */
  datatype Payload = Payload(idProducto: Value, descripcion: string, insumos: string, detalles: seq<Row>)

  const FichasPerPage: nat := 5

  const EmptyRow := Row(Str(""), Str(""))

  /** `handleCreate`: empty fields and one empty row. */
  const NewSheet := Sheet(Str(""), "", "", [EmptyRow])

  // ---- Adding a row ----

  /** The supply ids of the rows, in order. */
  function Ids(rows: seq<Row>): (ids: seq<Value>)
    ensures |ids| == |rows| && forall i :: 0 <= i < |rows| ==> ids[i] == rows[i].idInsumo
  {
    seq(|rows|, i requires 0 <= i < |rows| => rows[i].idInsumo)
  }

  /** `ids.some((id, index) => ids.indexOf(id) !== index)`. */
  predicate HasDuplicateByIndexOf(ids: seq<Value>) {
    exists i :: 0 <= i < |ids| && IndexOf(ids, ids[i]) != i
  }

  /** Without `NaN` among the ids, the `indexOf` test detects exactly a
      repeated id. */
  lemma IndexOfDuplicateIff(ids: seq<Value>)
    requires forall i :: 0 <= i < |ids| ==> !ids[i].NaN?
    ensures HasDuplicateByIndexOf(ids) <==> HasRepeat(ids)
  {
    if HasDuplicateByIndexOf(ids) {
      var i :| 0 <= i < |ids| && IndexOf(ids, ids[i]) != i;
      assert StrictEquals(ids[i], ids[i]);
      var k := IndexOf(ids, ids[i]);
      assert 0 <= k < i;
    }
    if HasRepeat(ids) {
      var i, j :| 0 <= i < j < |ids| && ids[i] == ids[j];
      assert StrictEquals(ids[i], ids[j]);
      assert IndexOf(ids, ids[j]) <= i;
    }
  }

  /** A `NaN` id equals nothing, not even itself, so its `indexOf` is -1 and
      the test reports a duplicate. */
  lemma NaNIdCountsAsDuplicate(ids: seq<Value>, i: int)
    requires 0 <= i < |ids| && ids[i].NaN?
    ensures HasDuplicateByIndexOf(ids)
  {
    assert IndexOf(ids, ids[i]) == -1;
  }

  /** `detalle.id_insumo === "" || detalle.cantidad === ""`. */
  predicate Blank(row: Row) {
    row.idInsumo == Str("") || row.cantidad == Str("")
  }

  datatype AddOutcome = DuplicateRefused | IncompleteRefused | Added(sheet: Sheet)

  /** `handleAddDetalle`: refused when the supply ids already hold a
      duplicate; otherwise refused when some row is blank; otherwise one
      empty row is appended and nothing else changes. */
  function AddRow(sheet: Sheet): (r: AddOutcome)
    ensures r.DuplicateRefused? <==> HasDuplicateByIndexOf(Ids(sheet.rows))
    ensures r.IncompleteRefused? <==>
              !HasDuplicateByIndexOf(Ids(sheet.rows)) && exists i :: 0 <= i < |sheet.rows| && Blank(sheet.rows[i])
    ensures r.Added? ==>
              |r.sheet.rows| == |sheet.rows| + 1 && r.sheet.rows[..|sheet.rows|] == sheet.rows
              && r.sheet.rows[|sheet.rows|] == EmptyRow && r.sheet.(rows := sheet.rows) == sheet
  {
    if HasDuplicateByIndexOf(Ids(sheet.rows)) then DuplicateRefused
    else if exists i :: 0 <= i < |sheet.rows| && Blank(sheet.rows[i]) then IncompleteRefused
    else Added(sheet.(rows := Append(sheet.rows, EmptyRow)))
  }

  /** When a row was added, the rows before it name distinct supplies and
      none is blank. */
  lemma AddedRowsAreDistinct(sheet: Sheet)
    requires AddRow(sheet).Added?
    ensures !HasRepeat(Ids(sheet.rows))
    ensures forall i :: 0 <= i < |sheet.rows| ==> !Blank(sheet.rows[i])
  {
    var ids := Ids(sheet.rows);
    forall i | 0 <= i < |ids| ensures !ids[i].NaN? {
      if ids[i].NaN? {
        NaNIdCountsAsDuplicate(ids, i);
      }
    }
    IndexOfDuplicateIff(ids);
  }

  /** The row just added is empty, so a second add is refused until it is
      filled in. */
  lemma AddedRowBlocksNextAdd(sheet: Sheet)
    requires AddRow(sheet).Added?
    ensures AddRow(AddRow(sheet).sheet) == IncompleteRefused
  {
    AddedRowsAreDistinct(sheet);
    var next := AddRow(sheet).sheet;
    var ids := Ids(sheet.rows);
    var more := Ids(next.rows);
    assert more == ids + [Str("")];
    forall i | 0 <= i < |more| ensures !more[i].NaN? {
      if i < |ids| {
        assert !Blank(sheet.rows[i]);
      }
    }
    forall i, j | 0 <= i < j < |more| ensures more[i] != more[j] {
      if j == |ids| {
        assert !Blank(sheet.rows[i]);
      } else {
        assert more[i] == ids[i] && more[j] == ids[j];
      }
    }
    IndexOfDuplicateIff(more);
    assert Blank(next.rows[|sheet.rows|]);
  }

  /** A new sheet starts with one empty row, so no row can be added to it
      before that row is filled in. */
  lemma NewSheetBlocksAdd()
    ensures |NewSheet.rows| == 1 && NewSheet.rows[0] == EmptyRow
    ensures AddRow(NewSheet) == IncompleteRefused
  {
    assert IndexOf(Ids(NewSheet.rows), Str("")) == 0;
    assert Blank(NewSheet.rows[0]);
  }

  /** `handleRemoveDetalle(index)`: `splice(index, 1)`. */
  function RemoveRow(sheet: Sheet, index: int): (r: Sheet)
    ensures r.(rows := sheet.rows) == sheet
    ensures 0 <= index < |sheet.rows| ==> r.rows == sheet.rows[..index] + sheet.rows[index + 1..]
    ensures index >= |sheet.rows| ==> r == sheet
  {
    sheet.(rows := RemoveAt(sheet.rows, index))
  }

  /** Removing the row just added restores the sheet. */
  lemma RemoveAddedRow(sheet: Sheet)
    requires AddRow(sheet).Added?
    ensures RemoveRow(AddRow(sheet).sheet, |sheet.rows|) == sheet
  {
    RemoveUndoesAppend(sheet.rows, EmptyRow);
  }

  // ---- Editing a row ----

  datatype Field = IdInsumo | Cantidad

  /** The input's `name`, which is also the validator's key prefix. */
  function InputName(field: Field): string {
    match field
    case IdInsumo => "id_insumo"
    case Cantidad => "cantidad"
  }

  /** `handleInsumoChange` and `handleDetalleChange`: the value is stored in
      row `index`, and the message under `${name}_${index}` is blanked. */
  function EditRow(sheet: Sheet, errors: Errors, index: int, field: Field, value: Value): (r: (Sheet, Errors))
    requires 0 <= index < |sheet.rows|
    ensures r.0.(rows := sheet.rows) == sheet && |r.0.rows| == |sheet.rows|
    ensures forall j :: 0 <= j < |sheet.rows| && j != index ==> r.0.rows[j] == sheet.rows[j]
    ensures field == IdInsumo ==> r.0.rows[index] == sheet.rows[index].(idInsumo := value)
    ensures field == Cantidad ==> r.0.rows[index] == sheet.rows[index].(cantidad := value)
    ensures RowKey(InputName(field) + "_", index) in r.1 && r.1[RowKey(InputName(field) + "_", index)] == ""
    ensures forall k :: k in errors && k != RowKey(InputName(field) + "_", index) ==> k in r.1 && r.1[k] == errors[k]
  {
    var edit := (d: Row) =>
      match field
      case IdInsumo => d.(idInsumo := value)
      case Cantidad => d.(cantidad := value);
    (sheet.(rows := Update(sheet.rows, index, edit)),
     errors[RowKey(InputName(field) + "_", index) := ""])
  }

  // ---- validateForm ----

  function ProductoError(p: Value): (r: Option<string>)
    ensures r.None? <==> Truthy(p)
  {
    if !Truthy(p) then Some("El producto es requerido") else None
  }

  function FieldChecks(producto: Option<string>, descripcion: Option<string>, insumos: Option<string>): seq<FieldCheck> {
    [FieldCheck("id_producto", producto), FieldCheck("descripcion", descripcion), FieldCheck("insumos", insumos)]
  }

  lemma FieldChecksWellFormed(producto: Option<string>, descripcion: Option<string>, insumos: Option<string>)
    ensures WellFormedChecks(FieldChecks(producto, descripcion, insumos))
  {
    assert NoDigit("id_producto") && NoDigit("descripcion") && NoDigit("insumos");
  }

  function InsumoCheck(d: Row): Option<string> {
    if !Truthy(d.idInsumo) then Some("El insumo es requerido") else None
  }

  function CantidadCheck(d: Row): Option<string> {
    if !Truthy(d.cantidad) then Some("La cantidad es requerida") else None
  }

  const RowRules: seq<RowRule<Row>> := [RowRule("id_insumo_", InsumoCheck), RowRule("cantidad_", CantidadCheck)]

  lemma RulesWellFormed()
    ensures WellFormedRules(RowRules)
  {
    assert NoDigit("id_insumo_") && NoDigit("cantidad_");
  }

  /** A row passes validation when both its values are truthy. */
  predicate RowFilled(d: Row) {
    Truthy(d.idInsumo) && Truthy(d.cantidad)
  }

  lemma RowRulesMeaning(d: Row)
    ensures RowPasses(RowRules, d) <==> RowFilled(d)
  {
    assert RowRules[0].check(d) == InsumoCheck(d);
    assert RowRules[1].check(d) == CantidadCheck(d);
    if RowFilled(d) {
      forall a | 0 <= a < 2 ensures RowRules[a].check(d).None? {
        if a == 0 {} else {}
      }
    }
  }

  /** The shared validator on the sheet's checks and row tests. */
  function RunValidator(producto: Option<string>, descripcion: Option<string>, insumos: Option<string>,
                        rows: seq<Row>): Errors {
    FieldChecksWellFormed(producto, descripcion, insumos);
    RulesWellFormed();
    Validator(FieldChecks(producto, descripcion, insumos), rows, RowRules)
  }

  /** Row `i`'s key for a test is present exactly when that field is falsy. */
  lemma RunValidatorRowKeys(producto: Option<string>, descripcion: Option<string>, insumos: Option<string>,
                            rows: seq<Row>)
    ensures var r := RunValidator(producto, descripcion, insumos, rows);
            forall i :: 0 <= i < |rows| ==>
              (RowKey("id_insumo_", i) in r <==> !Truthy(rows[i].idInsumo))
              && (RowKey("cantidad_", i) in r <==> !Truthy(rows[i].cantidad))
  {
    FieldChecksWellFormed(producto, descripcion, insumos);
    RulesWellFormed();
    var r := RunValidator(producto, descripcion, insumos, rows);
    assert RowRules[0].prefix == "id_insumo_" && RowRules[1].prefix == "cantidad_";
    assert forall i :: 0 <= i < |rows| ==>
             (RowKey(RowRules[0].prefix, i) in r <==> InsumoCheck(rows[i]).Some?)
             && (RowKey(RowRules[1].prefix, i) in r <==> CantidadCheck(rows[i]).Some?);
  }

  /** The error object for given header outcomes and rows: a key per
      failing header field, and per failing row test. */
  function Collect(producto: Option<string>, descripcion: Option<string>, insumos: Option<string>,
                   rows: seq<Row>): (r: Errors)
    ensures "id_producto" in r <==> producto.Some?
    ensures "descripcion" in r <==> descripcion.Some?
    ensures "insumos" in r <==> insumos.Some?
    ensures forall i :: 0 <= i < |rows| ==>
              (RowKey("id_insumo_", i) in r <==> !Truthy(rows[i].idInsumo))
              && (RowKey("cantidad_", i) in r <==> !Truthy(rows[i].cantidad))
    ensures r == map[] <==>
              producto.None? && descripcion.None? && insumos.None?
              && forall i :: 0 <= i < |rows| ==> RowFilled(rows[i])
  {
    var checks := FieldChecks(producto, descripcion, insumos);
    FieldChecksWellFormed(producto, descripcion, insumos);
    RulesWellFormed();
    var r := RunValidator(producto, descripcion, insumos, rows);
    RunValidatorRowKeys(producto, descripcion, insumos, rows);
    assert checks[0].key == "id_producto" && checks[1].key == "descripcion" && checks[2].key == "insumos";
    assert checks[0].error == producto && checks[1].error == descripcion && checks[2].error == insumos;
    assert r == map[] <==>
             producto.None? && descripcion.None? && insumos.None?
             && forall i :: 0 <= i < |rows| ==> RowFilled(rows[i]) by {
      FieldChecksPass(producto, descripcion, insumos);
      RowsPass(rows);
    }
    r
  }

  /** `validateForm`: a falsy product, an empty description or supplies
      text, or a row with a falsy supply or quantity is reported, row `i`
      under "id_insumo_i" and "cantidad_i". A sheet with no rows at all is
      not reported. */
  function Validate(sheet: Sheet): (r: Errors)
    ensures "id_producto" in r <==> !Truthy(sheet.idProducto)
    ensures "descripcion" in r <==> sheet.descripcion == ""
    ensures "insumos" in r <==> sheet.insumos == ""
    ensures forall i :: 0 <= i < |sheet.rows| ==>
              (RowKey("id_insumo_", i) in r <==> !Truthy(sheet.rows[i].idInsumo))
              && (RowKey("cantidad_", i) in r <==> !Truthy(sheet.rows[i].cantidad))
    ensures r == map[] <==>
              Truthy(sheet.idProducto) && sheet.descripcion != "" && sheet.insumos != ""
              && forall i :: 0 <= i < |sheet.rows| ==> RowFilled(sheet.rows[i])
  {
    Collect(ProductoError(sheet.idProducto), RequiredError(sheet.descripcion, "La descripción es requerida"),
            RequiredError(sheet.insumos, "Los insumos son requeridos"), sheet.rows)
  }

  /** Every header check passes exactly when the three outcomes are None. */
  lemma FieldChecksPass(producto: Option<string>, descripcion: Option<string>, insumos: Option<string>)
    ensures var checks := FieldChecks(producto, descripcion, insumos);
            (forall a :: 0 <= a < |checks| ==> checks[a].error.None?) <==>
              producto.None? && descripcion.None? && insumos.None?
  {
    var checks := FieldChecks(producto, descripcion, insumos);
    assert checks[0].error == producto && checks[1].error == descripcion && checks[2].error == insumos;
    if producto.None? && descripcion.None? && insumos.None? {
      forall a | 0 <= a < |checks| ensures checks[a].error.None? {
        if a == 0 {} else if a == 1 {} else {}
      }
    }
  }

  /** Every row passes the row tests exactly when every row is filled. */
  lemma RowsPass(rows: seq<Row>)
    ensures AllRowsPass(RowRules, rows) <==> forall i :: 0 <= i < |rows| ==> RowFilled(rows[i])
  {
    forall i | 0 <= i < |rows| ensures RowPasses(RowRules, rows[i]) <==> RowFilled(rows[i]) {
      RowRulesMeaning(rows[i]);
    }
  }

  /** The key blanked after an edit is the key the validator writes for
      that field, so an edited row's message is cleared and the next
      validation reports it exactly when the new value is falsy. */
  lemma EditClearsValidatorKey(sheet: Sheet, errors: Errors, index: int, field: Field, value: Value)
    requires 0 <= index < |sheet.rows|
    ensures var (edited, _) := EditRow(sheet, errors, index, field, value);
            RowKey(InputName(field) + "_", index) in Validate(edited) <==> !Truthy(value)
  {
    var edited := EditRow(sheet, errors, index, field, value).0;
    if field == IdInsumo {
      assert InputName(field) + "_" == "id_insumo_";
    } else {
      assert InputName(field) + "_" == "cantidad_";
    }
  }

  // ---- Saving ----

  datatype SaveOutcome = Invalid(errors: Errors) | Submitted(payload: Payload)

  /** `handleSave`: stop on any validation error; otherwise submit the
      sheet with its rows, in order and unchanged, as `detallesFichaTecnica`.
      No duplicate check happens here. */
  function Save(sheet: Sheet): (r: SaveOutcome)
    ensures r.Invalid? <==> Validate(sheet) != map[]
    ensures r.Invalid? ==> r.errors == Validate(sheet)
    ensures r.Submitted? ==>
              r.payload.idProducto == sheet.idProducto && r.payload.descripcion == sheet.descripcion
              && r.payload.insumos == sheet.insumos && r.payload.detalles == sheet.rows
  {
    var errors := Validate(sheet);
    if errors != map[] then Invalid(errors)
    else Submitted(Payload(sheet.idProducto, sheet.descripcion, sheet.insumos, sheet.rows))
  }

  /** Two filled-in rows naming the same supply (reachable by editing a row
      after it was added) are saved: only adding checks for duplicates. */
  lemma SaveAcceptsRepeatedSupply(p: Value, descripcion: string, insumos: string, id: Value, c: Value)
    requires Truthy(p) && descripcion != "" && insumos != "" && Truthy(id) && Truthy(c)
    ensures var s := Sheet(p, descripcion, insumos, [Row(id, c), Row(id, c)]);
            Save(s).Submitted? && HasRepeat(Ids(s.rows)) && AddRow(s) == DuplicateRefused
  {
    TwinRowsRepeat(id, c);
    FilledTwinRowsValidate(p, descripcion, insumos, id, c);
  }

  /** Two rows with the same id repeat it, and the `indexOf` test sees it. */
  lemma TwinRowsRepeat(id: Value, c: Value)
    requires Truthy(id)
    ensures HasRepeat(Ids([Row(id, c), Row(id, c)])) && HasDuplicateByIndexOf(Ids([Row(id, c), Row(id, c)]))
  {
    var ids := Ids([Row(id, c), Row(id, c)]);
    assert ids[0] == id && ids[1] == id;
    assert IndexOf(ids, ids[1]) == 0 by { assert StrictEquals(ids[0], id); }
  }

  lemma FilledTwinRowsValidate(p: Value, descripcion: string, insumos: string, id: Value, c: Value)
    requires Truthy(p) && descripcion != "" && insumos != "" && Truthy(id) && Truthy(c)
    ensures Validate(Sheet(p, descripcion, insumos, [Row(id, c), Row(id, c)])) == map[]
  {
    var rows := [Row(id, c), Row(id, c)];
    forall i | 0 <= i < |rows| ensures RowFilled(rows[i]) {
      assert rows[i] == Row(id, c);
    }
    FilledSheetValidates(Sheet(p, descripcion, insumos, rows));
  }

  /** A sheet whose fields and rows are all filled in has no errors. */
  lemma FilledSheetValidates(s: Sheet)
    requires Truthy(s.idProducto) && s.descripcion != "" && s.insumos != ""
    requires forall i :: 0 <= i < |s.rows| ==> RowFilled(s.rows[i])
    ensures Validate(s) == map[]
  {
  }

  /** A sheet without rows passes validation and is saved. */
  lemma RowlessSheetSaved(p: Value, descripcion: string, insumos: string)
    requires Truthy(p) && descripcion != "" && insumos != ""
    ensures Save(Sheet(p, descripcion, insumos, [])).Submitted?
  {
  }

  // ---- Loading a template ----

  /** The effect on `fichaSeleccionada`: product, description and supplies
      text, and of each row only its supply and quantity. */
  function TemplateCopy(f: Ficha): (r: Sheet)
    ensures r.idProducto == f.idProducto && r.descripcion == f.descripcion && r.insumos == f.insumos
    ensures |r.rows| == |f.rows|
    ensures forall i :: 0 <= i < |f.rows| ==> r.rows[i] == Row(f.rows[i].idInsumo, f.rows[i].cantidad)
  {
    Sheet(f.idProducto, f.descripcion, f.insumos,
          seq(|f.rows|, i requires 0 <= i < |f.rows| => Row(f.rows[i].idInsumo, f.rows[i].cantidad)))
  }

  predicate HasId(chosen: int, f: Ficha) {
    f.id == chosen
  }

  /** `handleFichaChange` and the effect it triggers: the first stored
      sheet with the chosen id (`parseInt` of the select's value; the
      placeholder gives no id) replaces the working sheet; with no such
      sheet nothing changes. */
  function LoadTemplate(sheet: Sheet, fichas: seq<Ficha>, chosen: Option<int>): (r: Sheet)
    ensures chosen.None? ==> r == sheet
    ensures chosen.Some? && (forall i :: 0 <= i < |fichas| ==> fichas[i].id != chosen.value) ==> r == sheet
    ensures chosen.Some? && (exists i :: 0 <= i < |fichas| && fichas[i].id == chosen.value) ==>
              exists i :: 0 <= i < |fichas| && fichas[i].id == chosen.value && r == TemplateCopy(fichas[i])
                          && forall j :: 0 <= j < i ==> fichas[j].id != chosen.value
  {
    if chosen.None? then sheet
    else
      match Find(fichas, f => HasId(chosen.value, f))
      case None => sheet
      case Some(f) => TemplateCopy(f)
  }

  /** Loading a template does not depend on what the sheet held before, so
      loading it twice is loading it once. */
  lemma LoadTemplateForgetsSheet(s1: Sheet, s2: Sheet, fichas: seq<Ficha>, id: int)
    requires exists i :: 0 <= i < |fichas| && fichas[i].id == id
    ensures LoadTemplate(s1, fichas, Some(id)) == LoadTemplate(s2, fichas, Some(id))
    ensures LoadTemplate(LoadTemplate(s1, fichas, Some(id)), fichas, Some(id)) == LoadTemplate(s1, fichas, Some(id))
  {
    var i :| 0 <= i < |fichas| && fichas[i].id == id && LoadTemplate(s1, fichas, Some(id)) == TemplateCopy(fichas[i])
             && forall j :: 0 <= j < i ==> fichas[j].id != id;
    var k :| 0 <= k < |fichas| && fichas[k].id == id && LoadTemplate(s2, fichas, Some(id)) == TemplateCopy(fichas[k])
             && forall j :: 0 <= j < k ==> fichas[j].id != id;
    assert i == k;
  }

  // ---- Listing ----

  function Shown(fichas: seq<Ficha>, search: string, page: int): (r: seq<Ficha>)
    ensures |r| <= FichasPerPage
    ensures forall i :: 0 <= i < |r| ==> r[i] in fichas && MatchesSearch(r[i].descripcion, search)
  {
    Listing.Shown(fichas, (f: Ficha) => f.descripcion, search, page, FichasPerPage)
  }
}
