/**
 * The login page: sign-in, the decision chain that follows it, the forced
 * password change with its client-side password policy, and cancelling it.
 * The sign-in service, the role lookup and the password request are inputs.
 */
module Login {
  import opened Common
  import opened AuthService

  // ---------------------------------------------------------------------
  // Password policy
  // ---------------------------------------------------------------------

  /** `s.length`: UTF-16 code units, two for a character above U+FFFF. */
  function Utf16Length(s: string): (n: nat)
    ensures n >= |s|
  {
    if |s| == 0 then 0 else (if s[0] as int > 0xFFFF then 2 else 1) + Utf16Length(s[1..])
  }

  /** For text inside the Basic Multilingual Plane the length is the character count. */
  lemma {:induction false} BmpLength(s: string)
    requires forall i :: 0 <= i < |s| ==> s[i] as int <= 0xFFFF
    ensures Utf16Length(s) == |s|
  {
    if |s| > 0 {
      BmpLength(s[1..]);
    }
  }

  predicate IsAsciiUpper(c: char) { 'A' <= c <= 'Z' }
  predicate IsAsciiLower(c: char) { 'a' <= c <= 'z' }
  predicate IsAsciiDigit(c: char) { '0' <= c <= '9' }

  /** `[^a-zA-Z0-9]`: anything but an ASCII letter or digit, accented letters and spaces included. */
  predicate IsSpecial(c: char) { !IsAsciiUpper(c) && !IsAsciiLower(c) && !IsAsciiDigit(c) }

  predicate HasUpper(s: string) { exists i :: 0 <= i < |s| && IsAsciiUpper(s[i]) }
  predicate HasLower(s: string) { exists i :: 0 <= i < |s| && IsAsciiLower(s[i]) }
  predicate HasDigit(s: string) { exists i :: 0 <= i < |s| && IsAsciiDigit(s[i]) }
  predicate HasSpecial(s: string) { exists i :: 0 <= i < |s| && IsSpecial(s[i]) }

  const TooShortMessage: string := "La contrase\U{00F1}a debe tener al menos 8 caracteres."
  const NoUpperMessage: string := "La contrase\U{00F1}a debe contener al menos una letra may\U{00FA}scula."
  const NoLowerMessage: string := "La contrase\U{00F1}a debe contener al menos una letra min\U{00FA}scula."
  const NoDigitMessage: string := "La contrase\U{00F1}a debe contener al menos un n\U{00FA}mero."
  const NoSpecialMessage: string := "La contrase\U{00F1}a debe contener al menos un car\U{00E1}cter especial (ej: !@#$%^&*)."
  const MismatchMessage: string := "Las contrase\U{00F1}as no coinciden."

  /** The checks of `handleForcePasswordUpdate`, in order; only the first failure is reported. */
  function PasswordError(newPassword: string, confirmPassword: string): (r: Option<string>)
    ensures r.None? <==> Utf16Length(newPassword) >= 8 && HasUpper(newPassword) && HasLower(newPassword)
                         && HasDigit(newPassword) && HasSpecial(newPassword) && newPassword == confirmPassword
    ensures Utf16Length(newPassword) < 8 ==> r == Some(TooShortMessage)
    ensures Utf16Length(newPassword) >= 8 && !HasUpper(newPassword) ==> r == Some(NoUpperMessage)
    ensures Utf16Length(newPassword) >= 8 && HasUpper(newPassword) && !HasLower(newPassword) ==>
              r == Some(NoLowerMessage)
    ensures (Utf16Length(newPassword) >= 8 && HasUpper(newPassword) && HasLower(newPassword)
             && !HasDigit(newPassword)) ==> r == Some(NoDigitMessage)
    ensures (Utf16Length(newPassword) >= 8 && HasUpper(newPassword) && HasLower(newPassword)
             && HasDigit(newPassword) && !HasSpecial(newPassword)) ==> r == Some(NoSpecialMessage)
    ensures Utf16Length(newPassword) >= 8 && HasUpper(newPassword) && HasLower(newPassword)
            && HasDigit(newPassword) && HasSpecial(newPassword) && newPassword != confirmPassword ==>
              r == Some(MismatchMessage)
  {
    if Utf16Length(newPassword) < 8 then Some(TooShortMessage)
    else if !HasUpper(newPassword) then Some(NoUpperMessage)
    else if !HasLower(newPassword) then Some(NoLowerMessage)
    else if !HasDigit(newPassword) then Some(NoDigitMessage)
    else if !HasSpecial(newPassword) then Some(NoSpecialMessage)
    else if newPassword != confirmPassword then Some(MismatchMessage)
    else None
  }

  /** A text of at least eight BMP characters that shows each class at some position passes the policy. */
  lemma PolicyAccepts(s: string, u: nat, l: nat, d: nat, x: nat)
    requires |s| >= 8 && forall i :: 0 <= i < |s| ==> s[i] as int <= 0xFFFF
    requires u < |s| && l < |s| && d < |s| && x < |s|
    requires IsAsciiUpper(s[u]) && IsAsciiLower(s[l]) && IsAsciiDigit(s[d]) && IsSpecial(s[x])
    ensures PasswordError(s, s).None?
  {
    BmpLength(s);
  }

  /** A long enough BMP text without an ASCII capital fails on the upper-case rule. */
  lemma PolicyWantsUpper(s: string)
    requires |s| >= 8 && forall i :: 0 <= i < |s| ==> s[i] as int <= 0xFFFF && !IsAsciiUpper(s[i])
    ensures PasswordError(s, s) == Some(NoUpperMessage)
  {
    BmpLength(s);
  }

  /** An accented capital is not an upper-case letter for the policy. */
  lemma AccentedCapitalIsNotUpper()
    ensures PasswordError("\U{00C1}bcdefg1!", "\U{00C1}bcdefg1!") == Some(NoUpperMessage)
  {
    PolicyWantsUpper("\U{00C1}bcdefg1!");
  }

  /** An accented letter counts as the special character. */
  lemma AccentedLetterIsSpecial()
    ensures PasswordError("Abcdefg1\U{00F1}", "Abcdefg1\U{00F1}").None?
  {
    PolicyAccepts("Abcdefg1\U{00F1}", 0, 1, 7, 8);
  }

  /** A space counts as the special character. */
  lemma SpaceIsSpecial()
    ensures PasswordError("Abcd efg1", "Abcd efg1").None?
  {
    PolicyAccepts("Abcd efg1", 0, 1, 8, 4);
  }

  // ---------------------------------------------------------------------
  // Role routing and the login decision
  // ---------------------------------------------------------------------

  /** `redirectByRole(rol)`: the page for each known role, nowhere for anything else. */
  function RedirectByRole(rol: string): (path: Option<string>)
    ensures rol == "docente" <==> path == Some("/docente")
    ensures rol == "decano" <==> path == Some("/decano")
    ensures rol == "admin_general" <==> path == Some("/admin")
    ensures path.None? <==> rol != "docente" && rol != "decano" && rol != "admin_general"
  {
    if rol == "docente" then Some("/docente")
    else if rol == "decano" then Some("/decano")
    else if rol == "admin_general" then Some("/admin")
    else None
  }

  const BadCredentialsMessage: string := "Correo o contrase\U{00F1}a incorrectos."
  const NoRoleMessage: string := "El usuario no est\U{00E1} asociado a ning\U{00FA}n rol."
  const InactiveMessage: string := "El usuario se encuentra inactivo. Contacte al administrador."

  datatype PendingUser = PendingUser(id: string, rol: string)

  /** How `handleLogin` ends. */
  datatype LoginOutcome =
    | Rejected(message: string, signOut: bool)
    | MustChangePassword(pending: PendingUser)
    | Redirected(path: Option<string>)

  /** The decision chain of `handleLogin` after the sign-in call returns. */
  function LoginDecision(authError: bool, userId: string, role: Option<UserRole>, needsPasswordChange: Field)
    : (o: LoginOutcome)
    ensures authError ==> o == Rejected(BadCredentialsMessage, false)
    ensures !authError && role.None? ==> o == Rejected(NoRoleMessage, true)
    ensures !authError && role.Some? && !Truthy(role.value.activo) ==> o == Rejected(InactiveMessage, true)
    ensures o.MustChangePassword? <==>
              !authError && role.Some? && Truthy(role.value.activo) && Truthy(needsPasswordChange)
    ensures o.MustChangePassword? ==> o.pending == PendingUser(userId, role.value.rol)
    ensures o.Redirected? ==> role.Some? && Truthy(role.value.activo) && o.path == RedirectByRole(role.value.rol)
  {
    if authError then Rejected(BadCredentialsMessage, false)
    else if role.None? then Rejected(NoRoleMessage, true)
    else if !Truthy(role.value.activo) then Rejected(InactiveMessage, true)
    else if Truthy(needsPasswordChange) then MustChangePassword(PendingUser(userId, role.value.rol))
    else Redirected(RedirectByRole(role.value.rol))
  }

  /**
   * As written, `getUserRole` never sets `activo`, so every sign-in that
   * finds a role is rejected as inactive and signed out again.
   */
  lemma AsWrittenLoginAlwaysRejects(user: AuthUser, docente: Option<DocenteRow>, admin: Option<AdministradorRow>,
                                    needsPasswordChange: Field)
    ensures LoginDecision(false, user.id, GetUserRole(Some(user), docente, admin), needsPasswordChange).Rejected?
    ensures docente.Some? || admin.Some? ==>
              LoginDecision(false, user.id, GetUserRole(Some(user), docente, admin), needsPasswordChange)
              == Rejected(InactiveMessage, true)
  {
  }

  /**
   * With the status carried by the role lookup, an active teacher, dean or
   * general administrator reaches their page (or the password change).
   */
  lemma ActiveUserIsAdmitted(user: AuthUser, docente: Option<DocenteRow>, admin: Option<AdministradorRow>)
    requires docente.Some? ==> docente.value.activo == Int(1)
    requires docente.None? ==> admin.Some? && admin.value.activo == Int(1)
    ensures var o := LoginDecision(false, user.id, GetUserRoleWithStatus(Some(user), docente, admin), Undef);
            o.Redirected? && o.path.Some?
    ensures docente.Some? ==>
              LoginDecision(false, user.id, GetUserRoleWithStatus(Some(user), docente, admin), Undef)
              == Redirected(Some("/docente"))
  {
  }

  // ---------------------------------------------------------------------
  // The page state
  // ---------------------------------------------------------------------

  datatype View = LoginView | ForcePasswordChangeView

  /** The body of the password-change request. */
  datatype PasswordRequest = PasswordRequest(id_auth_user: string, nueva_password: string)

  const PasswordUpdatedMessage: string := "\U{00A1}Contrase\U{00F1}a actualizada con \U{00E9}xito! Bienvenido al sistema."
  const PasswordUpdateFailedMessage: string := "Error al actualizar la contrase\U{00F1}a"

  class LoginScreen {
    var currentView: View
    var newPassword: string
    var confirmPassword: string
    var error: string
    var isLoading: bool
    var pendingUser: Option<PendingUser>

    constructor ()
      ensures currentView == LoginView && newPassword == "" && confirmPassword == ""
      ensures error == "" && !isLoading && pendingUser.None?
    {
      currentView := LoginView;
      newPassword := "";
      confirmPassword := "";
      error := "";
      isLoading := false;
      pendingUser := None;
    }

    method SetNewPassword(value: string, confirm: string)
      modifies this
      ensures newPassword == value && confirmPassword == confirm
      ensures currentView == old(currentView) && error == old(error)
      ensures isLoading == old(isLoading) && pendingUser == old(pendingUser)
    {
      newPassword := value;
      confirmPassword := confirm;
    }

    /**
     * `handleLogin`, from the answers of the sign-in call and the role
     * lookup. Returns where it navigates and whether it signs out.
     */
    method HandleLogin(authError: bool, userId: string, role: Option<UserRole>, needsPasswordChange: Field)
      returns (navigate: Option<string>, signOut: bool)
      modifies this
      ensures var o := LoginDecision(authError, userId, role, needsPasswordChange);
              && !isLoading
              && (o.Rejected? ==> error == o.message && signOut == o.signOut && navigate.None?
                                  && currentView == old(currentView) && pendingUser == old(pendingUser))
              && (o.MustChangePassword? ==> error == "" && !signOut && navigate.None?
                                            && currentView == ForcePasswordChangeView && pendingUser == Some(o.pending))
              && (o.Redirected? ==> error == "" && !signOut && navigate == o.path
                                    && currentView == old(currentView) && pendingUser == old(pendingUser))
      ensures newPassword == old(newPassword) && confirmPassword == old(confirmPassword)
    {
      error := "";
      isLoading := true;
      var o := LoginDecision(authError, userId, role, needsPasswordChange);
      isLoading := false;
      navigate := None;
      signOut := false;
      match o
      case Rejected(message, so) =>
        error := message;
        signOut := so;
      case MustChangePassword(p) =>
        pendingUser := Some(p);
        currentView := ForcePasswordChangeView;
      case Redirected(path) =>
        navigate := path;
    }

    /**
     * `handleForcePasswordUpdate`, with `serverError` the failure of the
     * request (its message), if it failed. A policy failure sends nothing and
     * leaves `isLoading` alone. A missing pending user makes the request
     * throw before anything is sent.
     */
    method HandleForcePasswordUpdate(serverError: Option<string>)
      returns (sent: Option<PasswordRequest>, alert: Option<string>, navigate: Option<string>)
      modifies this
      ensures var check := PasswordError(newPassword, confirmPassword);
              && (check.Some? ==> error == check.value && sent.None? && alert.None? && navigate.None?
                                  && isLoading == old(isLoading))
              && (check.None? ==> !isLoading)
      ensures sent.Some? ==> PasswordError(newPassword, confirmPassword).None? && pendingUser.Some?
                             && sent.value == PasswordRequest(pendingUser.value.id, newPassword)
      ensures PasswordError(newPassword, confirmPassword).None? && pendingUser.Some? ==> sent.Some?
      ensures sent.Some? && serverError.None? ==>
                error == "" && alert == Some(PasswordUpdatedMessage) && navigate == RedirectByRole(pendingUser.value.rol)
      ensures sent.Some? && serverError.Some? ==>
                error == (if serverError.value != "" then serverError.value else PasswordUpdateFailedMessage)
                && alert.None? && navigate.None?
      ensures newPassword == old(newPassword) && confirmPassword == old(confirmPassword)
      ensures currentView == old(currentView) && pendingUser == old(pendingUser)
    {
      error := "";
      sent, alert, navigate := None, None, None;
      var check := PasswordError(newPassword, confirmPassword);
      if check.Some? {
        error := check.value;
        return;
      }
      isLoading := true;
      if pendingUser.None? {
        isLoading := false;
        error := PasswordUpdateFailedMessage;
        return;
      }
      sent := Some(PasswordRequest(pendingUser.value.id, newPassword));
      if serverError.None? {
        alert := Some(PasswordUpdatedMessage);
        isLoading := false;
        navigate := RedirectByRole(pendingUser.value.rol);
      } else {
        isLoading := false;
        error := if serverError.value != "" then serverError.value else PasswordUpdateFailedMessage;
      }
    }

    /** `handleCancelUpdate`: signs out and returns to a clean login form. */
    method HandleCancelUpdate() returns (signOut: bool)
      modifies this
      ensures signOut
      ensures currentView == LoginView && pendingUser.None?
      ensures newPassword == "" && confirmPassword == "" && error == ""
      ensures isLoading == old(isLoading)
    {
      signOut := true;
      pendingUser := None;
      newPassword := "";
      confirmPassword := "";
      error := "";
      currentView := LoginView;
    }
  }
}
