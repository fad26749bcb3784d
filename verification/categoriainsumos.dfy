/** The supply-categories screen: a category has a name and a description.
    Saving checks the name as the supplies screen does and that the
    description is not blank; the list shows six categories a page. */
module CategoriaInsumos {
  import opened Wrappers
  import opened JsString
  import opened NamePatterns
  import opened Listing
  import opened Forms

  datatype Categoria = Categoria(nombre: string, descripcion: string)

  const CategoriasPerPage: nat := 6

  /** `handleCreate`. */
  const NewCategoria := Categoria("", "")

  const NombreRequired := "Por favor, ingrese el nombre de la categoría de insumos."
  const NombreLetters := "El nombre solo puede contener letras y espacios."
  const DescripcionRequired := "Por favor, ingrese la descripción de la categoría."

  /** The name: not blank, then only characters of `[a-zA-ZáéíóúüÁÉÍÓÚÜ\s]`. */
  function NombreError(nombre: string): (r: Option<string>)
    ensures r.None? <==> !AllSpaces(nombre) && RepeatAtLeast(nombre, InUmlautClass, 1)
    ensures AllSpaces(nombre) ==> r == Some(NombreRequired)
  {
    BlankThenClassError(nombre, InUmlautClass, NombreRequired, NombreLetters)
  }

  /** The description: anything that is not blank. */
  function DescripcionError(descripcion: string): (r: Option<string>)
    ensures r.None? <==> !AllSpaces(descripcion)
  {
    TrimEmptyIffAllSpaces(descripcion);
    if Trim(descripcion) == "" then Some(DescripcionRequired) else None
  }

  function FieldChecks(nombre: Option<string>, descripcion: Option<string>): seq<FieldCheck> {
    [FieldCheck("nombre", nombre), FieldCheck("descripcion", descripcion)]
  }

  lemma FieldChecksWellFormed(nombre: Option<string>, descripcion: Option<string>)
    ensures WellFormedChecks(FieldChecks(nombre, descripcion))
  {
    assert NoDigit("nombre") && NoDigit("descripcion");
  }

  /** The checks at the top of `handleSave`: each failing field's message
      under its name. */
  function Validate(c: Categoria): (r: Errors)
    ensures "nombre" in r <==> AllSpaces(c.nombre) || !RepeatAtLeast(c.nombre, InUmlautClass, 1)
    ensures "descripcion" in r <==> AllSpaces(c.descripcion)
    ensures "nombre" in r ==> r["nombre"] == NombreError(c.nombre).value
    ensures "descripcion" in r ==> r["descripcion"] == DescripcionRequired
    ensures r == map[] <==>
              !AllSpaces(c.nombre) && RepeatAtLeast(c.nombre, InUmlautClass, 1) && !AllSpaces(c.descripcion)
  {
    var n, d := NombreError(c.nombre), DescripcionError(c.descripcion);
    var checks := FieldChecks(n, d);
    FieldChecksWellFormed(n, d);
    FieldMapEmpty(checks);
    var r := FieldMap(checks);
    assert checks[0].key == "nombre" && checks[1].key == "descripcion";
    r
  }

  datatype SaveOutcome = Invalid | Submitted(categoria: Categoria)

  /** `handleSave`: with errors, they replace the shown ones and nothing is
      sent; without, the category is sent as it stands and the shown errors
      are left as they were. */
  function Save(shown: Errors, c: Categoria): (r: (SaveOutcome, Errors))
    ensures r.0.Submitted? <==> Validate(c) == map[]
    ensures r.0.Submitted? ==> r.0.categoria == c && r.1 == shown
    ensures r.0.Invalid? ==> r.1 == Validate(c) && r.1 != map[]
  {
    var errors := Validate(c);
    if errors != map[] then (Invalid, errors) else (Submitted(c), shown)
  }

  /** A description of spaces only is refused, however long. */
  lemma BlankDescriptionRefused(c: Categoria)
    requires AllSpaces(c.descripcion)
    ensures Validate(c)["descripcion"] == DescripcionRequired
  {
  }

  /** The listed name. */
  function NombreOf(c: Categoria): string {
    c.nombre
  }

  /** The categories matching the search, in their fetched order. */
  function Filtered(categorias: seq<Categoria>, search: string): (r: seq<Categoria>)
    ensures forall k :: 0 <= k < |r| ==> r[k] in categorias && MatchesSearch(r[k].nombre, search)
    ensures forall k :: 0 <= k < |categorias| && MatchesSearch(categorias[k].nombre, search) ==> categorias[k] in r
  {
    Search(categorias, NombreOf, search)
  }

  /** An empty search lists every category, in order. */
  lemma EmptySearchListsAll(categorias: seq<Categoria>)
    ensures Filtered(categorias, "") == categorias
  {
    SearchEmptyKeepsAll(categorias, NombreOf);
  }

  /** The filter keeps the fetched order. */
  lemma FilterKeepsOrder(a: seq<Categoria>, b: seq<Categoria>, search: string)
    ensures Filtered(a + b, search) == Filtered(a, search) + Filtered(b, search)
  {
    SearchAppend(a, b, NombreOf, search);
  }

  /** Page `page` of the matching categories. */
  function Page(categorias: seq<Categoria>, search: string, page: int): (r: seq<Categoria>)
    ensures |r| <= CategoriasPerPage
    ensures 1 <= page ==>
              var f := Filtered(categorias, search);
              r == f[Min((page - 1) * CategoriasPerPage, |f|)..Min(page * CategoriasPerPage, |f|)]
  {
    PageItems(Filtered(categorias, search), page, CategoriasPerPage)
  }

  /** The page buttons, 1 to `Math.ceil(filtered / 6)`. */
  function PageButtons(categorias: seq<Categoria>, search: string): (r: seq<int>)
    ensures |Filtered(categorias, search)| <= |r| * CategoriasPerPage
    ensures |r| == 0 || (|r| - 1) * CategoriasPerPage < |Filtered(categorias, search)|
    ensures forall i :: 0 <= i < |r| ==> r[i] == i + 1
  {
    PageNumbers(|Filtered(categorias, search)|, CategoriasPerPage)
  }

  /** Reading the pages of every button in order gives back the filtered
      list: no category is skipped or shown twice. */
  lemma ButtonsCoverFilteredList(categorias: seq<Categoria>, search: string)
    ensures Pages(Filtered(categorias, search), CategoriasPerPage, |PageButtons(categorias, search)|)
            == Filtered(categorias, search)
  {
    PagesCoverList(Filtered(categorias, search), CategoriasPerPage);
  }
}
