/** The role screen: a role is a name and the list of permission ids it
    grants. The permission checkboxes toggle ids in and out of the list,
    except that the "roles" permission cannot be unticked on the role named
    "administrador", and saving that role always adds it. */
module Roles {
  import opened Wrappers
  import opened JsString
  import opened Listing

  /** A permission of the catalogue fetched from the backend. */
  datatype Permiso = Permiso(id: int, nombre: string)

  /** A role record as fetched; `permisos` is absent on a role that has
      none. */
  datatype Role = Role(id: int, nombre: string, permisos: Option<seq<Permiso>>)

  /** The role being created or edited: its name and the granted ids. */
  datatype RoleForm = RoleForm(nombre: string, permisos: seq<int>)

  /** What is sent to the backend on save. */
  datatype Payload = Payload(nombre: string, permisos: seq<int>)

  const RolesPerPage: nat := 5
  const NombreRequired := "Por favor ingrese un nombre para el rol"

  predicate IsAdminName(nombre: string) {
    ToLower(nombre) == "administrador"
  }

  predicate IsRolesPermiso(p: Permiso) {
    ToLower(p.nombre) == "roles"
  }

  /** `permisos.find(p => p.nombre_permiso.toLowerCase() === 'roles')`. */
  function FindRolesPermiso(catalogue: seq<Permiso>): (r: Option<Permiso>)
    ensures r.None? <==> forall i :: 0 <= i < |catalogue| ==> !IsRolesPermiso(catalogue[i])
    ensures r.Some? ==> IsRolesPermiso(r.value) && r.value in catalogue
  {
    Find(catalogue, IsRolesPermiso)
  }

  /** `handleEdit`: the form takes the role's name and the ids of its
      permission records, in order, or no id when the role has none. */
  function Edit(role: Role): (r: RoleForm)
    ensures r.nombre == role.nombre
    ensures role.permisos.None? ==> r.permisos == []
    ensures role.permisos.Some? ==>
              |r.permisos| == |role.permisos.value|
              && forall i :: 0 <= i < |r.permisos| ==> r.permisos[i] == role.permisos.value[i].id
  {
    match role.permisos
    case None => RoleForm(role.nombre, [])
    case Some(ps) => RoleForm(role.nombre, seq(|ps|, i requires 0 <= i < |ps| => ps[i].id))
  }

  /** `handleCreate`: an empty name and no permission. */
  const NewRole := RoleForm("", [])

  /** The id is the catalogue's "roles" permission and the role is the
      administrator: that box cannot be changed. */
  predicate Locked(form: RoleForm, catalogue: seq<Permiso>, id: int) {
    IsAdminName(form.nombre)
    && exists i :: 0 <= i < |catalogue| && catalogue[i].id == id && IsRolesPermiso(catalogue[i])
  }

  predicate NotId(id: int, x: int) {
    x != id
  }

  /** The test of `filter(p => p !== id)`. */
  function OtherThan(id: int): int -> bool {
    x => NotId(id, x)
  }

  /** `handlePermissionChange(id)`. A locked box does nothing; an id already
      granted is removed wherever it occurs, the other ids keeping their
      order; a new id is granted at the end of the list. */
  function Toggle(form: RoleForm, catalogue: seq<Permiso>, id: int): (r: RoleForm)
    ensures r.nombre == form.nombre
    ensures Locked(form, catalogue, id) ==> r == form
    ensures !Locked(form, catalogue, id) && id in form.permisos ==>
              id !in r.permisos
              && (forall x :: x in r.permisos <==> x in form.permisos && x != id)
              && |r.permisos| < |form.permisos|
              && r.permisos == Keep(form.permisos, OtherThan(id))
    ensures !Locked(form, catalogue, id) && id !in form.permisos ==>
              |r.permisos| == |form.permisos| + 1
              && r.permisos[..|form.permisos|] == form.permisos && r.permisos[|form.permisos|] == id
  {
    if Locked(form, catalogue, id) then form
    else if id in form.permisos then
      var kept := Keep(form.permisos, OtherThan(id));
      KeptWithout(form.permisos, id);
      form.(permisos := kept)
    else
      form.(permisos := form.permisos + [id])
  }

  /** Removing an id keeps every other id and shortens the list. */
  lemma KeptWithout(xs: seq<int>, id: int)
    requires id in xs
    ensures forall x :: x in Keep(xs, OtherThan(id)) <==> x in xs && x != id
    ensures |Keep(xs, OtherThan(id))| < |xs|
  {
    var k :| 0 <= k < |xs| && xs[k] == id;
    assert xs == xs[..k] + [id] + xs[k + 1..];
    KeepAppend(xs[..k] + [id], xs[k + 1..], OtherThan(id));
    KeepAppend(xs[..k], [id], OtherThan(id));
    assert Keep([id], OtherThan(id)) == [];
    forall x | x in xs && x != id ensures x in Keep(xs, OtherThan(id)) {
      var j :| 0 <= j < |xs| && xs[j] == x;
    }
  }

  /** Ticking an unticked box and unticking it again restores the list. */
  lemma ToggleTwiceRestores(form: RoleForm, catalogue: seq<Permiso>, id: int)
    requires !Locked(form, catalogue, id) && id !in form.permisos
    ensures Toggle(Toggle(form, catalogue, id), catalogue, id) == form
  {
    var once := Toggle(form, catalogue, id);
    assert once.permisos == form.permisos + [id];
    assert !Locked(once, catalogue, id);
    KeepAppend(form.permisos, [id], OtherThan(id));
    assert Keep([id], OtherThan(id)) == [];
    assert forall i :: 0 <= i < |form.permisos| ==> OtherThan(id)(form.permisos[i]);
    KeepAllPass(form.permisos, OtherThan(id));
  }

  /** Unticking an id held once removes exactly that entry: the ids before
      and after it are kept, in order. */
  lemma UntickRemovesTheEntry(form: RoleForm, catalogue: seq<Permiso>, id: int, before: seq<int>, after: seq<int>)
    requires !Locked(form, catalogue, id)
    requires form.permisos == before + [id] + after && id !in before + after
    ensures Toggle(form, catalogue, id).permisos == before + after
  {
    assert form.permisos[|before|] == id;
    DropSingle(before, after, id);
  }

  lemma DropSingle(before: seq<int>, after: seq<int>, id: int)
    requires id !in before + after
    ensures Keep(before + [id] + after, OtherThan(id)) == before + after
  {
    var f := OtherThan(id);
    forall i | 0 <= i < |before| ensures f(before[i]) {
      assert before[i] in before + after;
    }
    forall i | 0 <= i < |after| ensures f(after[i]) {
      assert after[i] in before + after;
    }
    KeepAllPass(before, f);
    KeepAllPass(after, f);
    var pre := before + [id];
    KeepAppend(before, [id], f);
    assert Keep([id], f) == [];
    assert Keep(pre, f) == before;
    KeepAppend(pre, after, f);
  }

  /** The permission list sent on save: the administrator role gains the
      "roles" permission if it lacks it. */
  function SavedPermisos(form: RoleForm, catalogue: seq<Permiso>): (r: seq<int>)
    ensures IsAdminName(form.nombre) && FindRolesPermiso(catalogue).Some? ==>
              FindRolesPermiso(catalogue).value.id in r
    ensures IsAdminName(form.nombre) && FindRolesPermiso(catalogue).Some?
            && FindRolesPermiso(catalogue).value.id !in form.permisos ==>
              r == form.permisos + [FindRolesPermiso(catalogue).value.id]
    ensures !(IsAdminName(form.nombre) && FindRolesPermiso(catalogue).Some?
              && FindRolesPermiso(catalogue).value.id !in form.permisos) ==>
              r == form.permisos
  {
    if IsAdminName(form.nombre) then
      match FindRolesPermiso(catalogue)
      case Some(p) => if p.id !in form.permisos then form.permisos + [p.id] else form.permisos
      case None => form.permisos
    else form.permisos
  }

  datatype SaveOutcome = Rejected(nombreError: string) | Submitted(payload: Payload)

  /** `handleSave`: `validateForm` rejects a name that is empty after
      trimming; otherwise the name and the completed permission list are
      submitted. */
  function Save(form: RoleForm, catalogue: seq<Permiso>): (r: SaveOutcome)
    ensures r.Rejected? <==> AllSpaces(form.nombre)
    ensures r.Rejected? ==> r.nombreError == NombreRequired
    ensures r.Submitted? ==> r.payload.nombre == form.nombre
                             && r.payload.permisos == SavedPermisos(form, catalogue)
  {
    TrimEmptyIffAllSpaces(form.nombre);
    if Trim(form.nombre) == "" then Rejected(NombreRequired)
    else Submitted(Payload(form.nombre, SavedPermisos(form, catalogue)))
  }

  /** A saved administrator role always carries the "roles" permission of
      the catalogue, exactly once more than it had it if it was missing and
      never duplicated if present; any other role is saved with its list
      unchanged. */
  lemma AdminKeepsRolesPermission(form: RoleForm, catalogue: seq<Permiso>, p: Permiso)
    requires Save(form, catalogue).Submitted?
    requires IsAdminName(form.nombre) && FindRolesPermiso(catalogue) == Some(p)
    ensures p.id in Save(form, catalogue).payload.permisos
    ensures p.id in form.permisos ==> Save(form, catalogue).payload.permisos == form.permisos
  {
  }

  /** What the list shows: page `page` of the roles whose name contains the
      search text, five per page. */
  function Shown(roles: seq<Role>, search: string, page: int): (r: seq<Role>)
    ensures |r| <= RolesPerPage
    ensures forall i :: 0 <= i < |r| ==> r[i] in roles && MatchesSearch(r[i].nombre, search)
  {
    Listing.Shown(roles, (x: Role) => x.nombre, search, page, RolesPerPage)
  }
}
