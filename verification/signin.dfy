/** The sign-in page: the two inputs are checked locally; only when both
    pass does the page log in, fetch the users to find the one with the
    entered address, fetch that user's role and start the session with the
    role's permission names. The three backend answers are parameters. */
module SignIn {
  import opened Wrappers
  import opened JsValue
  import opened Listing

  /** A fetched user: the address it is found by and its role id. */
  datatype UserRec = UserRec(email: string, idRol: Value)

  /** One entry of a role's `permisosRol`. */
  datatype Permiso = Permiso(nombrePermiso: string)

  /** The role request: it fails (`Unreachable`), or answers with or
      without a `permisosRol` list. */
  datatype RoleAnswer = Unreachable | Answered(permisosRol: Option<seq<Permiso>>)

  /** What the backend answers, for one attempt: the login status (None
      when the request throws), the user list (None when that request
      throws) and the role answer for each role id. */
  datatype Backend = Backend(loginStatus: Option<int>, users: Option<seq<UserRec>>, role: Value -> RoleAnswer)

  const EmailRequired := "El campo de correo electrónico es obligatorio."
  const EmailInvalid := "Ingrese un correo electrónico válido."
  const PasswordRequired := "El campo de contraseña es obligatorio."
  const PasswordShort := "La contraseña debe tener al menos 4 caracteres."

  /** The address: required, then four characters or more holding an '@'. */
  function EmailError(email: string): (r: Option<string>)
    ensures r.None? <==> |email| >= 4 && '@' in email
    ensures email == "" ==> r == Some(EmailRequired)
    ensures email != "" && r.Some? ==> r == Some(EmailInvalid)
  {
    if email == "" then Some(EmailRequired)
    else if |email| < 4 || '@' !in email then Some(EmailInvalid)
    else None
  }

  /** The password: required, then four characters or more. */
  function PasswordError(password: string): (r: Option<string>)
    ensures r.None? <==> |password| >= 4
    ensures password == "" ==> r == Some(PasswordRequired)
    ensures password != "" && r.Some? ==> r == Some(PasswordShort)
  {
    if password == "" then Some(PasswordRequired)
    else if |password| < 4 then Some(PasswordShort)
    else None
  }

  /** The result of one press of the button. */
  datatype Outcome =
    | InputRejected(emailError: string, passwordError: string)
    | CredentialsRejected
    | PermissionsUnavailable
    | LoggedIn(user: UserRec, permisos: seq<string>)

  /** The shown message for a field: its error, or the "" it was reset to. */
  function Shown(e: Option<string>): string {
    e.GetOr("")
  }

  function HasEmail(email: string): UserRec -> bool {
    (u: UserRec) => u.email == email
  }

  function PermissionNames(ps: seq<Permiso>): (r: seq<string>)
    ensures |r| == |ps|
    ensures forall i :: 0 <= i < |ps| ==> r[i] == ps[i].nombrePermiso
  {
    seq(|ps|, i requires 0 <= i < |ps| => ps[i].nombrePermiso)
  }

  /** `handleSignIn`. Failing local checks stop before any request; a
      thrown request, a status other than 200 or an address no fetched user
      has ends in the invalid-credentials toast; a failed role request or a
      role without `permisosRol` ends in the permissions toast. */
  function Attempt(email: string, password: string, b: Backend): (r: Outcome)
    ensures r.InputRejected? <==> EmailError(email).Some? || PasswordError(password).Some?
    ensures r.InputRejected? ==>
              r.emailError == Shown(EmailError(email)) && r.passwordError == Shown(PasswordError(password))
    ensures r.LoggedIn? ==>
              && b.loginStatus == Some(200) && b.users.Some?
              && r.user.email == email && r.user in b.users.value
  {
    var emailError, passwordError := EmailError(email), PasswordError(password);
    if emailError.Some? || passwordError.Some? then
      InputRejected(Shown(emailError), Shown(passwordError))
    else if b.loginStatus != Some(200) || b.users.None? then
      CredentialsRejected
    else
      match Find(b.users.value, HasEmail(email))
      case None => CredentialsRejected
      case Some(user) =>
        match b.role(user.idRol)
        case Unreachable => PermissionsUnavailable
        case Answered(None) => PermissionsUnavailable
        case Answered(Some(ps)) => LoggedIn(user, PermissionNames(ps))
  }

  /** When a local check fails nothing is asked of the backend: the outcome
      is the same whatever it would have answered. */
  lemma RejectedInputSendsNothing(email: string, password: string, b1: Backend, b2: Backend)
    requires EmailError(email).Some? || PasswordError(password).Some?
    ensures Attempt(email, password, b1) == Attempt(email, password, b2)
  {
  }

  /** The session user is the FIRST fetched user whose address equals the
      entered one exactly, and the session permissions are that user's
      role's permission names, in the role's order. */
  lemma SessionUserAndPermissions(email: string, password: string, b: Backend)
    requires Attempt(email, password, b).LoggedIn?
    ensures var r := Attempt(email, password, b);
            var users := b.users.value;
            var k := FirstIndex(users, HasEmail(email));
            && k < |users| && r.user == users[k]
            && (forall j :: 0 <= j < k ==> users[j].email != email)
            && b.role(r.user.idRol).Answered?
            && b.role(r.user.idRol).permisosRol.Some?
            && var ps := b.role(r.user.idRol).permisosRol.value;
               |r.permisos| == |ps| && forall i :: 0 <= i < |ps| ==> r.permisos[i] == ps[i].nombrePermiso
  {
    var users := b.users.value;
    var k := FirstIndex(users, HasEmail(email));
    assert Find(users, HasEmail(email)) == if k < |users| then Some(users[k]) else None;
  }

  /** Conversely, the session starts whenever the inputs pass, the login
      answers 200, some fetched user holds the address and every role
      answers with its permissions. */
  lemma KnownUserLogsIn(email: string, password: string, b: Backend, i: int)
    requires EmailError(email).None? && PasswordError(password).None?
    requires b.loginStatus == Some(200) && b.users.Some?
    requires 0 <= i < |b.users.value| && b.users.value[i].email == email
    requires forall v :: b.role(v).Answered? && b.role(v).permisosRol.Some?
    ensures Attempt(email, password, b).LoggedIn?
  {
    assert HasEmail(email)(b.users.value[i]);
  }

  /** With no fetched user holding the address, the attempt fails even
      though the login request succeeded. */
  lemma UnknownAddressRejected(email: string, password: string, b: Backend)
    requires EmailError(email).None? && PasswordError(password).None?
    requires b.loginStatus == Some(200) && b.users.Some?
    requires forall i :: 0 <= i < |b.users.value| ==> b.users.value[i].email != email
    ensures Attempt(email, password, b) == CredentialsRejected
  {
  }

  /** The local address check is loose: "@@@@" passes it. */
  lemma LooseEmailCheck()
    ensures EmailError("@@@@").None?
  {
    assert "@@@@"[0] == '@';
  }
}
