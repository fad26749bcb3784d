/** The suppliers screen: a supplier has a name, a contact number and the
    name of an adviser. Both names go through the same three tests (present
    once trimmed, at least four characters once trimmed, letters and spaces
    only); the contact must be seven digits or more. */
module Proveedores {
  import opened Wrappers
  import opened JsString
  import opened NamePatterns
  import opened Listing
  import opened Forms

  datatype Proveedor = Proveedor(nombre: string, contacto: string, asesor: string)

  const ProveedoresPerPage: nat := 3

  /** The form's initial state. */
  const NewProveedor := Proveedor("", "", "")

  /** The three messages of one name field, in the order the tests run. */
  datatype NameMessages = NameMessages(required: string, tooShort: string, letters: string)

  const NombreMessages := NameMessages(
    "El nombre del proveedor es requerido.",
    "El nombre del proveedor debe contener al menos 4 letras.",
    "El nombre del proveedor solo puede contener letras y espacios.")

  const AsesorMessages := NameMessages(
    "El nombre del asesor es requerido.",
    "El nombre del asesor debe contener al menos 4 letras.",
    "El nombre del asesor solo puede contener letras y espacios.")

  const ContactoRequired := "El número de contacto es requerido."
  const ContactoPattern := "El número de contacto debe contener al menos 7 dígitos numéricos."

  /** What a name field must be to pass: four characters or more between
      its first and last non-blank ones, and nothing outside
      `[a-zA-ZáéíóúÁÉÍÓÚñÑ\s]` anywhere (the pattern sees the untrimmed
      text). */
  predicate NameAccepted(s: string) {
    |Trim(s)| >= 4 && RepeatAtLeast(s, InEnyeClass, 1)
  }

  /** One name field's `if / else if / else if` chain: blank, then short,
      then a character outside the class. */
  function NameError(s: string, m: NameMessages): (r: Option<string>)
    ensures r.None? <==> NameAccepted(s)
    ensures AllSpaces(s) ==> r == Some(m.required)
    ensures !AllSpaces(s) && |Trim(s)| < 4 ==> r == Some(m.tooShort)
    ensures |Trim(s)| >= 4 && r.Some? ==> r == Some(m.letters)
  {
    TrimEmptyIffAllSpaces(s);
    if Trim(s) == "" then Some(m.required)
    else if |Trim(s)| < 4 then Some(m.tooShort)
    else if !RepeatAtLeast(s, InEnyeClass, 1) then Some(m.letters)
    else None
  }

  /** The contact number: present once trimmed, then `/^\d{7,}$/` on the
      untrimmed text, so passing means seven ASCII digits or more and
      nothing else. */
  function ContactoError(contacto: string): (r: Option<string>)
    ensures r.None? <==> RepeatAtLeast(contacto, IsDigit, 7)
    ensures AllSpaces(contacto) ==> r == Some(ContactoRequired)
    ensures !AllSpaces(contacto) && r.Some? ==> r == Some(ContactoPattern)
  {
    TrimEmptyIffAllSpaces(contacto);
    if Trim(contacto) == "" then Some(ContactoRequired)
    else if !RepeatAtLeast(contacto, IsDigit, 7) then Some(ContactoPattern)
    else None
  }

  /** The three checks in the order `validateForm` runs them, given each
      field's outcome. */
  function FieldChecks(nombre: Option<string>, contacto: Option<string>, asesor: Option<string>): seq<FieldCheck> {
    [FieldCheck("nombre", nombre), FieldCheck("contacto", contacto), FieldCheck("asesor", asesor)]
  }

  lemma FieldChecksWellFormed(nombre: Option<string>, contacto: Option<string>, asesor: Option<string>)
    ensures WellFormedChecks(FieldChecks(nombre, contacto, asesor))
  {
    assert NoDigit("nombre") && NoDigit("contacto") && NoDigit("asesor");
    assert "nombre"[0] != "asesor"[0];
  }

  /** The error object for given field outcomes: a key per failing field,
      holding its message. */
  function Collect(nombre: Option<string>, contacto: Option<string>, asesor: Option<string>): (r: Errors)
    ensures "nombre" in r <==> nombre.Some?
    ensures "contacto" in r <==> contacto.Some?
    ensures "asesor" in r <==> asesor.Some?
    ensures nombre.Some? ==> "nombre" in r && r["nombre"] == nombre.value
    ensures contacto.Some? ==> "contacto" in r && r["contacto"] == contacto.value
    ensures asesor.Some? ==> "asesor" in r && r["asesor"] == asesor.value
    ensures r == map[] <==> nombre.None? && contacto.None? && asesor.None?
  {
    var checks := FieldChecks(nombre, contacto, asesor);
    FieldChecksWellFormed(nombre, contacto, asesor);
    FieldMapEmpty(checks);
    assert checks[0].key == "nombre" && checks[1].key == "contacto" && checks[2].key == "asesor";
    FieldMap(checks)
  }

  /** `validateForm`: each failing field's message under its name; it
      returns true exactly when no message was written. */
  function Validate(p: Proveedor): (r: Errors)
    ensures "nombre" in r <==> !NameAccepted(p.nombre)
    ensures "contacto" in r <==> !RepeatAtLeast(p.contacto, IsDigit, 7)
    ensures "asesor" in r <==> !NameAccepted(p.asesor)
    ensures "nombre" in r ==> r["nombre"] == NameError(p.nombre, NombreMessages).value
    ensures "contacto" in r ==> r["contacto"] == ContactoError(p.contacto).value
    ensures "asesor" in r ==> r["asesor"] == NameError(p.asesor, AsesorMessages).value
    ensures r == map[] <==>
              NameAccepted(p.nombre) && RepeatAtLeast(p.contacto, IsDigit, 7) && NameAccepted(p.asesor)
  {
    Collect(NameError(p.nombre, NombreMessages), ContactoError(p.contacto), NameError(p.asesor, AsesorMessages))
  }

  datatype SaveOutcome = Invalid(errors: Errors) | Submitted(proveedor: Proveedor)

  /** `handleSave`: the supplier is sent as it stands exactly when the form
      validates. */
  function Save(p: Proveedor): (r: SaveOutcome)
    ensures r.Submitted? <==> Validate(p) == map[]
    ensures r.Submitted? ==> r.proveedor == p
    ensures r.Invalid? ==> r.errors == Validate(p) && r.errors != map[]
  {
    var errors := Validate(p);
    if errors == map[] then Submitted(p) else Invalid(errors)
  }

  /** The empty form is refused with every field marked as missing. */
  lemma NewProveedorRefused()
    ensures var r := Validate(NewProveedor);
            && r["nombre"] == NombreMessages.required
            && r["contacto"] == ContactoRequired
            && r["asesor"] == AsesorMessages.required
  {
    assert AllSpaces("");
  }

  /** A digit anywhere in a name fails the letters test. */
  lemma DigitNameRejected(s: string, i: int)
    requires 0 <= i < |s| && IsDigit(s[i])
    ensures !NameAccepted(s)
  {
    DigitInNoLetterClass(s, i);
  }

  /** What "at least 4 letters" guarantees: an accepted name has two
      non-blank characters, the ends of its trimmed text, and they are
      letters of the class. */
  lemma AcceptedNameHasTwoLetters(s: string)
    requires NameAccepted(s)
    ensures exists i, j :: 0 <= i < j < |s| && !IsSpace(s[i]) && !IsSpace(s[j])
  {
    TrimEndsNotBlank(s);
  }

  /** The bound above is the most the tests promise: "a  b" has two
      letters, trims to four characters and is accepted. */
  lemma TwoLetterNameAccepted()
    ensures NameAccepted("a  b")
    ensures NameError("a  b", NombreMessages).None?
  {
    var s := "a  b";
    assert s[0] == 'a' && s[3] == 'b';
    TrimOfTrimmed(s);
    assert |Trim(s)| == 4;
    forall i | 0 <= i < |s| ensures InEnyeClass(s[i]) {
      assert s[i] == 'a' || s[i] == ' ' || s[i] == 'b';
    }
  }

  /** Seven digits or more make a contact; the same digits after a space
      do not, since the pattern sees the untrimmed text. */
  lemma PaddedContactRejected(d: string)
    requires |d| >= 7 && AllDigits(d)
    ensures ContactoError(d).None?
    ensures ContactoError(" " + d) == Some(ContactoPattern)
  {
    var padded := " " + d;
    assert !IsDigit(padded[0]);
    assert padded[1] == d[0] && !IsSpace(d[0]);
  }

  /** The list: suppliers whose name contains the search text, three to a
      page. */
  function Shown(proveedores: seq<Proveedor>, search: string, page: int): (r: seq<Proveedor>)
    ensures |r| <= ProveedoresPerPage
    ensures forall i :: 0 <= i < |r| ==> r[i] in proveedores && MatchesSearch(r[i].nombre, search)
  {
    Listing.Shown(proveedores, (p: Proveedor) => p.nombre, search, page, ProveedoresPerPage)
  }
}
