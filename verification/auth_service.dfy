/**
 * `getUserRole`: which role the signed-in user has, decided from the rows
 * the user id finds in the `docente` and `administrador` tables. The
 * database lookups are inputs: each is the row found for the user, if any.
 */
module AuthService {
  import opened Common

  datatype AuthUser = AuthUser(id: string)

  /** A `docente` row; only its presence matters to the role. */
  datatype DocenteRow = DocenteRow(id_docente: Field, activo: Field)

  /** An `administrador` row; a null faculty (`Undef`) marks the general administrator. */
  datatype AdministradorRow = AdministradorRow(id_facultad: Field, activo: Field)

  /**
   * The object handed to the login page. `activo` is `Undef` when the
   * object has no such property.
   */
  datatype UserRole = UserRole(rol: string, activo: Field)

  /**
   * `getUserRole()` as written: no user gives null; a teacher row wins over
   * an administrator row; an administrator is `admin_general` when its
   * faculty is null and `decano` otherwise. The object holds only `rol`.
   */
  function GetUserRole(user: Option<AuthUser>, docente: Option<DocenteRow>, admin: Option<AdministradorRow>)
    : (r: Option<UserRole>)
    ensures r.None? <==> user.None? || (docente.None? && admin.None?)
    ensures user.Some? && docente.Some? ==> r == Some(UserRole("docente", Undef))
    ensures user.Some? && docente.None? && admin.Some? ==>
              r == Some(UserRole(if admin.value.id_facultad.Undef? then "admin_general" else "decano", Undef))
    ensures r.Some? ==> r.value.activo == Undef
  {
    if user.None? then None
    else if docente.Some? then Some(UserRole("docente", Undef))
    else if admin.Some? then
      if admin.value.id_facultad.Undef? then Some(UserRole("admin_general", Undef))
      else Some(UserRole("decano", Undef))
    else None
  }

  /**
   * The role lookup the login page needs: the same precedence, with the
   * matched row's `activo` flag carried in the result.
   */
  function GetUserRoleWithStatus(user: Option<AuthUser>, docente: Option<DocenteRow>, admin: Option<AdministradorRow>)
    : (r: Option<UserRole>)
    ensures r.None? <==> user.None? || (docente.None? && admin.None?)
    ensures user.Some? && docente.Some? ==> r == Some(UserRole("docente", docente.value.activo))
    ensures user.Some? && docente.None? && admin.Some? ==> r.value.activo == admin.value.activo
  {
    if user.None? then None
    else if docente.Some? then Some(UserRole("docente", docente.value.activo))
    else if admin.Some? then
      if admin.value.id_facultad.Undef? then Some(UserRole("admin_general", admin.value.activo))
      else Some(UserRole("decano", admin.value.activo))
    else None
  }

  /** Carrying the status changes no role decision. */
  lemma StatusDoesNotChangeRole(user: Option<AuthUser>, docente: Option<DocenteRow>, admin: Option<AdministradorRow>)
    ensures GetUserRole(user, docente, admin).Some? <==> GetUserRoleWithStatus(user, docente, admin).Some?
    ensures GetUserRole(user, docente, admin).Some? ==>
              GetUserRole(user, docente, admin).value.rol == GetUserRoleWithStatus(user, docente, admin).value.rol
  {
  }
}
