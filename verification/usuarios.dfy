/** The users screen: a user has a name, an e-mail address, a password and
    a role. The form checks lengths, the e-mail pattern and that a role is
    chosen; the list shows each user's role by looking it up among the
    fetched roles. A field the record lacks (`undefined`) behaves like the
    empty string here, since every test starts with `!field`. */
module Usuarios {
  import opened Wrappers
  import opened JsString
  import opened JsValue
  import opened NamePatterns
  import opened Listing
  import opened Forms

  /** The user being created or edited. The role comes from the backend as
      a number and from the select as the text of that number. */
  datatype User = User(nombre: string, email: string, password: string, idRol: Value)

  /** A fetched role: its id and name. */
  datatype Role = Role(idRol: Value, nombre: string)

  const UsuariosPerPage: nat := 3

  /** `handleCreate`. */
  const NewUser := User("", "", "", Str(""))

  const NombreMessage := "El nombre debe contener al menos 3 letras y no debe incluir números ni caracteres especiales."
  const EmailMessage := "Ingrese un formato de correo electrónico válido."
  const PasswordMessage := "La contraseña debe tener al menos 5 cáracteres."
  const RolMessage := "Debe seleccionar un rol."

  /** The name passes with three characters or more, whatever they are. */
  function NombreError(nombre: string): (r: Option<string>)
    ensures r.None? <==> |nombre| >= 3
    ensures r.Some? ==> r.value == NombreMessage
  {
    MinLengthError(nombre, 3, NombreMessage)
  }

  /** The address passes exactly when the e-mail regular expression
      accepts it (which the empty string never is). */
  function EmailError(email: string): (r: Option<string>)
    ensures r.None? <==> EmailRegexAccepts(email)
    ensures r.Some? ==> r.value == EmailMessage
  {
    IsEmailIffRegexAccepts(email);
    if email == "" || !IsEmail(email) then Some(EmailMessage) else None
  }

  /** The password passes with five characters or more. */
  function PasswordError(password: string): (r: Option<string>)
    ensures r.None? <==> |password| >= 5
    ensures r.Some? ==> r.value == PasswordMessage
  {
    MinLengthError(password, 5, PasswordMessage)
  }

  /** The role passes when one is chosen: any truthy value. */
  function RolError(idRol: Value): (r: Option<string>)
    ensures r.None? <==> Truthy(idRol)
    ensures r.Some? ==> r.value == RolMessage
  {
    if !Truthy(idRol) then Some(RolMessage) else None
  }

  function FieldChecks(nombre: Option<string>, email: Option<string>, password: Option<string>,
                       rol: Option<string>): seq<FieldCheck> {
    [FieldCheck("nombre", nombre), FieldCheck("email", email),
     FieldCheck("password", password), FieldCheck("id_rol", rol)]
  }

  lemma FieldChecksWellFormed(nombre: Option<string>, email: Option<string>, password: Option<string>,
                              rol: Option<string>)
    ensures WellFormedChecks(FieldChecks(nombre, email, password, rol))
  {
    var checks := FieldChecks(nombre, email, password, rol);
    assert checks[0].key[0] == 'n' && checks[1].key[0] == 'e' && checks[2].key[0] == 'p' && checks[3].key[0] == 'i';
    DistinctFirstChars(checks);
    assert NoDigit("nombre") && NoDigit("email") && NoDigit("password") && NoDigit("id_rol");
  }

  /** The error object for given field outcomes: a key per failing field,
      holding its message. */
  function Collect(nombre: Option<string>, email: Option<string>, password: Option<string>,
                   rol: Option<string>): (r: Errors)
    ensures "nombre" in r <==> nombre.Some?
    ensures "email" in r <==> email.Some?
    ensures "password" in r <==> password.Some?
    ensures "id_rol" in r <==> rol.Some?
    ensures nombre.Some? ==> "nombre" in r && r["nombre"] == nombre.value
    ensures email.Some? ==> "email" in r && r["email"] == email.value
    ensures password.Some? ==> "password" in r && r["password"] == password.value
    ensures rol.Some? ==> "id_rol" in r && r["id_rol"] == rol.value
    ensures r == map[] <==> nombre.None? && email.None? && password.None? && rol.None?
  {
    var checks := FieldChecks(nombre, email, password, rol);
    FieldChecksWellFormed(nombre, email, password, rol);
    FieldMapEmpty(checks);
    assert checks[0].key == "nombre" && checks[1].key == "email"
        && checks[2].key == "password" && checks[3].key == "id_rol";
    FieldMap(checks)
  }

  /** `validateFields`: each failing field's message under its name; it
      returns true exactly when no message was written. */
  function Validate(u: User): (r: Errors)
    ensures "nombre" in r <==> |u.nombre| < 3
    ensures "email" in r <==> !EmailRegexAccepts(u.email)
    ensures "password" in r <==> |u.password| < 5
    ensures "id_rol" in r <==> !Truthy(u.idRol)
    ensures "nombre" in r ==> r["nombre"] == NombreMessage
    ensures "email" in r ==> r["email"] == EmailMessage
    ensures "password" in r ==> r["password"] == PasswordMessage
    ensures "id_rol" in r ==> r["id_rol"] == RolMessage
    ensures r == map[] <==>
              |u.nombre| >= 3 && EmailRegexAccepts(u.email) && |u.password| >= 5 && Truthy(u.idRol)
  {
    Collect(NombreError(u.nombre), EmailError(u.email), PasswordError(u.password), RolError(u.idRol))
  }

  datatype SaveOutcome = Invalid(errors: Errors) | Submitted(user: User)

  /** `handleSave`: the user is sent as it stands exactly when the form
      validates. */
  function Save(u: User): (r: SaveOutcome)
    ensures r.Submitted? <==> Validate(u) == map[]
    ensures r.Submitted? ==> r.user == u
    ensures r.Invalid? ==> r.errors == Validate(u) && r.errors != map[]
  {
    var errors := Validate(u);
    if errors == map[] then Submitted(u) else Invalid(errors)
  }

  /** The name's message promises no digits and no special characters, but
      only the length is tested: "a1!" passes. */
  lemma NameWithDigitAccepted()
    ensures NombreError("a1!").None?
  {
  }

  /** A new user's form is refused on every field. */
  lemma NewUserRefused()
    ensures var r := Validate(NewUser);
            "nombre" in r && "email" in r && "password" in r && "id_rol" in r
  {
    IsEmailIffRegexAccepts("");
  }

  /** The select's `onChange`: the chosen role's id as text. */
  function ChooseRole(u: User, value: string): (r: User)
    ensures r.idRol == Str(value)
    ensures r.nombre == u.nombre && r.email == u.email && r.password == u.password
  {
    u.(idRol := Str(value))
  }

  function HasRole(idRol: Value): Role -> bool {
    (role: Role) => StrictEquals(role.idRol, idRol)
  }

  const RolNotFound := "Rol no encontrado"

  /** The role column: the name of the first role whose id is `===` to the
      user's, or "Rol no encontrado" when there is none or its name is
      empty. */
  function RoleLabel(roles: seq<Role>, idRol: Value): (r: string)
    ensures (forall i :: 0 <= i < |roles| ==> !StrictEquals(roles[i].idRol, idRol)) ==> r == RolNotFound
    ensures r != RolNotFound ==>
              exists i :: 0 <= i < |roles| && StrictEquals(roles[i].idRol, idRol) && roles[i].nombre == r
    ensures var k := FirstIndex(roles, HasRole(idRol));
            k < |roles| && roles[k].nombre != "" ==> r == roles[k].nombre
  {
    match Find(roles, HasRole(idRol))
    case None => RolNotFound
    case Some(role) => if role.nombre == "" then RolNotFound else role.nombre
  }

  /** The first role whose id is `===` to the user's names the column, when
      its name is not empty. */
  lemma FirstMatchingRoleShown(roles: seq<Role>, idRol: Value, i: int)
    requires 0 <= i < |roles| && StrictEquals(roles[i].idRol, idRol) && roles[i].nombre != ""
    requires forall j :: 0 <= j < i ==> !StrictEquals(roles[j].idRol, idRol)
    ensures RoleLabel(roles, idRol) == roles[i].nombre
  {
    var k := FirstIndex(roles, HasRole(idRol));
    assert HasRole(idRol)(roles[i]);
    assert k == i;
    assert Find(roles, HasRole(idRol)) == Some(roles[i]);
  }

  /** With the ids the backend sends (numbers), a role id chosen in the form
      (text) is `===` to none of them, so the role-column lookup applied to
      the form's value gives "Rol no encontrado". */
  lemma ChosenRoleNotFound(roles: seq<Role>, u: User, value: string)
    requires forall i :: 0 <= i < |roles| ==> roles[i].idRol.Num?
    ensures RoleLabel(roles, ChooseRole(u, value).idRol) == RolNotFound
  {
  }

  /** The list: users whose name contains the search text, three to a
      page. */
  function Shown(users: seq<User>, search: string, page: int): (r: seq<User>)
    ensures |r| <= UsuariosPerPage
    ensures forall i :: 0 <= i < |r| ==> r[i] in users && MatchesSearch(r[i].nombre, search)
  {
    Listing.Shown(users, (u: User) => u.nombre, search, page, UsuariosPerPage)
  }
}
