/** The supplies screen: a supply has a name, a stock level and a category.
    Saving checks the name (not blank, then letters of the ü class) and that
    a category is chosen; the list shows six supplies a page. */
module Insumos {
  import opened Wrappers
  import opened JsString
  import opened JsValue
  import opened NamePatterns
  import opened Listing
  import opened Forms

  /** The supply being created or edited; the stock is not checked. */
  datatype Insumo = Insumo(nombre: string, stockActual: Value, idCategoria: Value)

  const InsumosPerPage: nat := 6

  /** `handleCreate`: an empty name, stock 0 and no category. */
  const NewInsumo := Insumo("", Num(0.0), Str(""))

  const NombreRequired := "Por favor, ingrese el nombre del insumo"
  const NombreLetters := "El nombre del insumo solo puede contener letras y espacios"
  const CategoriaRequired := "Por favor, ingrese la categoría del insumo"

  /** The name: not blank, then only characters of `[a-zA-ZáéíóúüÁÉÍÓÚÜ\s]`. */
  function NombreError(nombre: string): (r: Option<string>)
    ensures r.None? <==> !AllSpaces(nombre) && RepeatAtLeast(nombre, InUmlautClass, 1)
    ensures AllSpaces(nombre) ==> r == Some(NombreRequired)
  {
    BlankThenClassError(nombre, InUmlautClass, NombreRequired, NombreLetters)
  }

  function CategoriaError(idCategoria: Value): (r: Option<string>)
    ensures r.None? <==> Truthy(idCategoria)
  {
    if !Truthy(idCategoria) then Some(CategoriaRequired) else None
  }

  function FieldChecks(nombre: Option<string>, categoria: Option<string>): seq<FieldCheck> {
    [FieldCheck("nombre", nombre), FieldCheck("id_categoria", categoria)]
  }

  lemma FieldChecksWellFormed(nombre: Option<string>, categoria: Option<string>)
    ensures WellFormedChecks(FieldChecks(nombre, categoria))
  {
    assert NoDigit("nombre") && NoDigit("id_categoria");
  }

  /** The checks at the top of `handleSave`: each failing field's message
      under its name. */
  function Validate(i: Insumo): (r: Errors)
    ensures "nombre" in r <==> AllSpaces(i.nombre) || !RepeatAtLeast(i.nombre, InUmlautClass, 1)
    ensures "id_categoria" in r <==> !Truthy(i.idCategoria)
    ensures "nombre" in r ==> r["nombre"] == NombreError(i.nombre).value
    ensures "id_categoria" in r ==> r["id_categoria"] == CategoriaRequired
    ensures r == map[] <==>
              !AllSpaces(i.nombre) && RepeatAtLeast(i.nombre, InUmlautClass, 1) && Truthy(i.idCategoria)
  {
    var n, c := NombreError(i.nombre), CategoriaError(i.idCategoria);
    var checks := FieldChecks(n, c);
    FieldChecksWellFormed(n, c);
    FieldMapEmpty(checks);
    var r := FieldMap(checks);
    assert checks[0].key == "nombre" && checks[1].key == "id_categoria";
    r
  }

  datatype SaveOutcome = Invalid | Submitted(insumo: Insumo)

  /** `handleSave`: with errors, they replace the shown ones and nothing is
      sent; without, the supply is sent as it stands and the shown errors
      are left as they were (the dialog closes without clearing them). */
  function Save(shown: Errors, i: Insumo): (r: (SaveOutcome, Errors))
    ensures r.0.Submitted? <==> Validate(i) == map[]
    ensures r.0.Submitted? ==> r.0.insumo == i && r.1 == shown
    ensures r.0.Invalid? ==> r.1 == Validate(i) && r.1 != map[]
  {
    var errors := Validate(i);
    if errors != map[] then (Invalid, errors) else (Submitted(i), shown)
  }

  /** `handleCreate`: a fresh form; the shown errors are not reset. */
  function Create(shown: Errors): (r: (Insumo, Errors))
    ensures r.0.nombre == "" && r.0.stockActual == Num(0.0) && !Truthy(r.0.idCategoria)
    ensures r.1 == shown
  {
    (NewInsumo, shown)
  }

  /** A fresh form fails on both fields. */
  lemma NewInsumoRefused()
    ensures var r := Validate(Create(map[]).0);
            "nombre" in r && "id_categoria" in r
  {
    assert AllSpaces("");
  }

  /** `handleChange`, wired to the name input: the name takes the typed
      text and its shown message is blanked. */
  function ChangeNombre(shown: Errors, i: Insumo, nombre: string): (r: (Insumo, Errors))
    ensures r.0.nombre == nombre && r.0.stockActual == i.stockActual && r.0.idCategoria == i.idCategoria
    ensures "nombre" in r.1 && r.1["nombre"] == ""
    ensures forall k :: k in r.1 && k != "nombre" ==> k in shown && r.1[k] == shown[k]
    ensures forall k :: k in shown ==> k in r.1
  {
    (i.(nombre := nombre), shown["nombre" := ""])
  }

  /** The category select's own `onChange`: only the supply changes, so the
      category's shown message stays. */
  function ChooseCategoria(shown: Errors, i: Insumo, idCategoria: Value): (r: (Insumo, Errors))
    ensures r.0.idCategoria == idCategoria && r.0.nombre == i.nombre && r.0.stockActual == i.stockActual
    ensures r.1 == shown
  {
    (i.(idCategoria := idCategoria), shown)
  }

  /** A save refused for a missing category, then the category chosen and
      the name retyped, then a successful save: the next new-supply form
      opens still showing the category message, while the name's message
      was blanked by typing. */
  lemma StaleCategoryMessageReachesNewForm(bad: Insumo, nombre: string, idCategoria: Value)
    requires !Truthy(bad.idCategoria)
    requires Validate(Insumo(nombre, bad.stockActual, idCategoria)) == map[]
    ensures var (_, afterBad) := Save(map[], bad);
            var (named, afterName) := ChangeNombre(afterBad, bad, nombre);
            var (chosen, afterChoice) := ChooseCategoria(afterName, named, idCategoria);
            var (o, afterGood) := Save(afterChoice, chosen);
            var shownAgain := Create(afterGood).1;
            o.Submitted? && shownAgain["id_categoria"] == CategoriaRequired && shownAgain["nombre"] == ""
  {
    var afterBad := Save(map[], bad).1;
    assert "id_categoria" in afterBad && afterBad["id_categoria"] == CategoriaRequired;
    var named := ChangeNombre(afterBad, bad, nombre);
    var chosen := ChooseCategoria(named.1, named.0, idCategoria);
    assert chosen.0 == Insumo(nombre, bad.stockActual, idCategoria);
  }

  /** "Piña" is refused (ñ is outside the class) while "Pingüino" is
      accepted. */
  lemma EnyeRefusedUmlautAccepted()
    ensures NombreError("Piña") == Some(NombreLetters)
    ensures NombreError("Pingüino").None?
  {
    var p, q := "Piña", "Pingüino";
    assert !InUmlautClass(p[2]);
    assert !IsSpace(p[0]) && !IsSpace(q[0]);
    forall k | 0 <= k < |q| ensures InUmlautClass(q[k]) {
      assert q[k] in "Pingüino";
    }
  }

  /** The listed name. */
  function NombreOf(i: Insumo): string {
    i.nombre
  }

  /** The supplies matching the search, in their fetched order. */
  function Filtered(insumos: seq<Insumo>, search: string): (r: seq<Insumo>)
    ensures forall k :: 0 <= k < |r| ==> r[k] in insumos && MatchesSearch(r[k].nombre, search)
    ensures forall k :: 0 <= k < |insumos| && MatchesSearch(insumos[k].nombre, search) ==> insumos[k] in r
  {
    Search(insumos, NombreOf, search)
  }

  /** Page `page` of the matching supplies, six at most. */
  function Page(insumos: seq<Insumo>, search: string, page: int): (r: seq<Insumo>)
    ensures |r| <= InsumosPerPage
    ensures 1 <= page ==>
              var f := Filtered(insumos, search);
              r == f[Min((page - 1) * InsumosPerPage, |f|)..Min(page * InsumosPerPage, |f|)]
  {
    PageItems(Filtered(insumos, search), page, InsumosPerPage)
  }

  /** The filter keeps matching supplies in order: filtering a list made of
      two parts filters each part. */
  lemma FilterKeepsOrder(a: seq<Insumo>, b: seq<Insumo>, search: string)
    ensures Filtered(a + b, search) == Filtered(a, search) + Filtered(b, search)
  {
    SearchAppend(a, b, NombreOf, search);
  }
}
