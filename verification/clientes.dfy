/** The customers screen: a customer has a name and a contact number; both
    are checked by length only. The list shows three customers a page with
    one button per page. */
module Clientes {
  import opened Wrappers
  import opened Listing
  import opened Forms

  datatype Cliente = Cliente(nombre: string, contacto: string)

  const ClientesPerPage: nat := 3

  /** The form's initial state. */
  const NewCliente := Cliente("", "")

  const NombreMessage := "El nombre debe contener al menos 3 letras."
  const ContactoMessage := "El número de teléfono debe contener al menos 7 caracteres."

  /** The name passes with three characters or more. */
  function NombreError(nombre: string): (r: Option<string>)
    ensures r.None? <==> |nombre| >= 3
    ensures r.Some? ==> r.value == NombreMessage
  {
    MinLengthError(nombre, 3, NombreMessage)
  }

  /** The contact passes with seven characters or more; any characters. */
  function ContactoError(contacto: string): (r: Option<string>)
    ensures r.None? <==> |contacto| >= 7
    ensures r.Some? ==> r.value == ContactoMessage
  {
    MinLengthError(contacto, 7, ContactoMessage)
  }

  function FieldChecks(nombre: Option<string>, contacto: Option<string>): seq<FieldCheck> {
    [FieldCheck("nombre", nombre), FieldCheck("contacto", contacto)]
  }

  lemma FieldChecksWellFormed(nombre: Option<string>, contacto: Option<string>)
    ensures WellFormedChecks(FieldChecks(nombre, contacto))
  {
    assert NoDigit("nombre") && NoDigit("contacto");
  }

  /** `validateFields`: each failing field's message under its name; it
      returns true exactly when no message was written. */
  function Validate(c: Cliente): (r: Errors)
    ensures "nombre" in r <==> |c.nombre| < 3
    ensures "contacto" in r <==> |c.contacto| < 7
    ensures "nombre" in r ==> r["nombre"] == NombreMessage
    ensures "contacto" in r ==> r["contacto"] == ContactoMessage
    ensures r == map[] <==> |c.nombre| >= 3 && |c.contacto| >= 7
  {
    var n, k := NombreError(c.nombre), ContactoError(c.contacto);
    var checks := FieldChecks(n, k);
    FieldChecksWellFormed(n, k);
    FieldMapEmpty(checks);
    var r := FieldMap(checks);
    assert checks[0].key == "nombre" && checks[1].key == "contacto";
    r
  }

  datatype SaveOutcome = Invalid(errors: Errors) | Submitted(cliente: Cliente)

  /** `handleSave`: the customer is sent as it stands exactly when the form
      validates. */
  function Save(c: Cliente): (r: SaveOutcome)
    ensures r.Submitted? <==> Validate(c) == map[]
    ensures r.Submitted? ==> r.cliente == c
    ensures r.Invalid? ==> r.errors == Validate(c) && r.errors != map[]
  {
    var errors := Validate(c);
    if errors == map[] then Submitted(c) else Invalid(errors)
  }

  /** Any seven characters make a contact: "abcdefg" is accepted. */
  lemma LettersAcceptedAsContact()
    ensures ContactoError("abcdefg").None?
  {
  }

  /** The customers matching the search, in their fetched order. */
  function Filtered(clientes: seq<Cliente>, search: string): (r: seq<Cliente>)
    ensures forall i :: 0 <= i < |r| ==> r[i] in clientes && MatchesSearch(r[i].nombre, search)
    ensures forall i :: 0 <= i < |clientes| && MatchesSearch(clientes[i].nombre, search) ==> clientes[i] in r
  {
    Search(clientes, (c: Cliente) => c.nombre, search)
  }

  /** Page `page`: `filtered[(page - 1) * 3 .. page * 3)` clipped to the
      list. */
  function Page(clientes: seq<Cliente>, search: string, page: int): (r: seq<Cliente>)
    ensures |r| <= ClientesPerPage
    ensures 1 <= page ==>
              var f := Filtered(clientes, search);
              r == f[Min((page - 1) * ClientesPerPage, |f|)..Min(page * ClientesPerPage, |f|)]
  {
    PageItems(Filtered(clientes, search), page, ClientesPerPage)
  }

  /** The page buttons, 1 to `Math.ceil(filtered / 3)`. */
  function PageButtons(clientes: seq<Cliente>, search: string): (r: seq<int>)
    ensures |Filtered(clientes, search)| <= |r| * ClientesPerPage
    ensures |r| == 0 || (|r| - 1) * ClientesPerPage < |Filtered(clientes, search)|
    ensures forall i :: 0 <= i < |r| ==> r[i] == i + 1
  {
    PageNumbers(|Filtered(clientes, search)|, ClientesPerPage)
  }

  /** Every matching customer is on the page of some button: customer `i`
      of the filtered list is entry `i % 3` of page `i / 3 + 1`. */
  lemma EveryMatchHasAPage(clientes: seq<Cliente>, search: string, i: int)
    requires 0 <= i < |Filtered(clientes, search)|
    ensures var b := PageButtons(clientes, search);
            var page := i / ClientesPerPage + 1;
            && page in b
            && i % ClientesPerPage < |Page(clientes, search, page)|
            && Page(clientes, search, page)[i % ClientesPerPage] == Filtered(clientes, search)[i]
  {
    var f := Filtered(clientes, search);
    ItemOnItsPage(f, ClientesPerPage, i);
    var page := i / ClientesPerPage + 1;
    assert PageButtons(clientes, search)[page - 1] == page;
  }

  /** A page number past the last button shows nobody. */
  lemma NoCustomerPastLastButton(clientes: seq<Cliente>, search: string, page: int)
    requires page > |PageButtons(clientes, search)|
    ensures Page(clientes, search, page) == []
  {
    PagePastEndEmpty(Filtered(clientes, search), ClientesPerPage, page);
  }
}
