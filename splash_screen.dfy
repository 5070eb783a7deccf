/**
 * The entry screen's login/register machine. `Splash` values carry the component's fields; the
 * functions give the state each event leads to, and the `SplashScreen` class holds the fields and
 * updates them in place. The stored user, read and parsed on mount, is a parameter, and the
 * `onAuthenticated` call a handler makes is its result.
 */
module Entry {
  import opened Wrappers
  import opened JsText
  import opened Types

  datatype AuthMode = Register | Login

  datatype Splash = Splash(mode: AuthMode, name: string, password: string, storedPassword: string,
                           error: string, loading: bool)

  const Fresh: Splash := Splash(Register, "", "", "", "", false)

  /** The stored user as parsed: each field may be missing. */
  datatype SavedUser = SavedUser(name: Option<string>, password: Option<string>)

  /** `onAuthenticated(name, isNewUser)`. */
  datatype Auth = Auth(name: string, isNewUser: bool)

  const MissingFields: string := "Por favor completa todos los campos."
  const WrongPassword: string := "Contraseña incorrecta."

  /** The mount effect: a stored user with a name and a password switches to login with both loaded. */
  function Mount(s: Splash, saved: Option<SavedUser>): Splash {
    if saved.Some? && Truthy(saved.value.name) && Truthy(saved.value.password) then
      s.(name := saved.value.name.value, storedPassword := saved.value.password.value, mode := Login)
    else s
  }

  /** `handleRegister`: an error for a blank name or password, else the new user authenticates. */
  function Registered(s: Splash): (Splash, Option<Auth>) {
    if IsBlank(s.name) || IsBlank(s.password) then (s.(error := MissingFields), None)
    else (s.(loading := true), Some(Auth(s.name, true)))
  }

  /** `handleLogin`: an error for a password other than the stored one, else the returning user authenticates. */
  function LoggedIn(s: Splash): (Splash, Option<Auth>) {
    if s.password != s.storedPassword then (s.(error := WrongPassword), None)
    else (s.(loading := true), Some(Auth(s.name, false)))
  }

  /** Typing in the password field clears the error. */
  function EditPassword(s: Splash, p: string): Splash {
    s.(password := p, error := "")
  }

  /** "Cambiar de cuenta": back to registering, with name and both passwords cleared. */
  function ChangeAccount(s: Splash): Splash {
    s.(mode := Register, name := "", password := "", storedPassword := "")
  }

  /** In login mode there is a stored password to compare against. */
  predicate Consistent(s: Splash) {
    s.mode == Login ==> s.storedPassword != ""
  }

  /** Mounting switches to login exactly when the stored user has a non-empty name and password, and loads them. */
  lemma MountSpec(saved: Option<SavedUser>)
    ensures Mount(Fresh, saved).mode == Login <==>
      saved.Some? && Truthy(saved.value.name) && Truthy(saved.value.password)
    ensures Mount(Fresh, saved).mode == Login ==>
      Some(Mount(Fresh, saved).name) == saved.value.name && Some(Mount(Fresh, saved).storedPassword) == saved.value.password
    ensures Mount(Fresh, saved).mode == Register ==> Mount(Fresh, saved) == Fresh
  {
  }

  /**
   * Registering fails, with the error, exactly when the name or the password is all whitespace;
   * otherwise it authenticates the name as typed as a new user.
   */
  lemma RegisterSpec(s: Splash)
    ensures Registered(s).1.None? <==> AllWhitespace(s.name) || AllWhitespace(s.password)
    ensures Registered(s).1.None? ==> Registered(s).0.error == MissingFields
    ensures Registered(s).1.Some? ==> Registered(s).1.value == Auth(s.name, true)
  {
    BlankIffAllWhitespace(s.name);
    BlankIffAllWhitespace(s.password);
  }

  /**
   * Logging in succeeds exactly with the stored password, as a returning user; since login mode
   * always has a stored password, an empty password never logs in.
   */
  lemma LoginSpec(s: Splash)
    ensures LoggedIn(s).1.Some? <==> s.password == s.storedPassword
    ensures LoggedIn(s).1.Some? ==> LoggedIn(s).1.value == Auth(s.name, false)
    ensures LoggedIn(s).1.None? ==> LoggedIn(s).0.error == WrongPassword
    ensures Consistent(s) && s.mode == Login && s.password == "" ==> LoggedIn(s).1.None?
  {
  }

  /** Every event keeps the screen consistent. */
  lemma ConsistentInvariant(s: Splash, saved: Option<SavedUser>, p: string)
    requires Consistent(s)
    ensures Consistent(Fresh)
    ensures Consistent(Mount(s, saved)) && Consistent(Registered(s).0) && Consistent(LoggedIn(s).0)
    ensures Consistent(EditPassword(s, p)) && Consistent(ChangeAccount(s))
    ensures EditPassword(s, p).error == "" && ChangeAccount(s) == s.(mode := Register, name := "", password := "", storedPassword := "")
  {
  }

  class SplashScreen {
    var mode: AuthMode
    var name: string
    var password: string
    var storedPassword: string
    var error: string
    var loading: bool

    function State(): Splash
      reads this
    {
      Splash(mode, name, password, storedPassword, error, loading)
    }

    constructor()
      ensures State() == Fresh
    {
      mode := Register;
      name := "";
      password := "";
      storedPassword := "";
      error := "";
      loading := false;
    }

    method OnMount(saved: Option<SavedUser>)
      modifies this
      ensures State() == Mount(old(State()), saved)
    {
      if saved.Some? {
        var user := saved.value;
        if Truthy(user.name) && Truthy(user.password) {
          name := user.name.value;
          storedPassword := user.password.value;
          mode := Login;
        }
      }
    }

    method HandleRegister() returns (auth: Option<Auth>)
      modifies this
      ensures (State(), auth) == Registered(old(State()))
    {
      if IsBlank(name) || IsBlank(password) {
        error := MissingFields;
        return None;
      }
      loading := true;
      auth := Some(Auth(name, true));
    }

    method HandleLogin() returns (auth: Option<Auth>)
      modifies this
      ensures (State(), auth) == LoggedIn(old(State()))
    {
      if password != storedPassword {
        error := WrongPassword;
        return None;
      }
      loading := true;
      auth := Some(Auth(name, false));
    }

    method OnPasswordChange(p: string)
      modifies this
      ensures State() == EditPassword(old(State()), p)
    {
      password := p;
      error := "";
    }

    method OnChangeAccount()
      modifies this
      ensures State() == ChangeAccount(old(State()))
    {
      mode := Register;
      name := "";
      password := "";
      storedPassword := "";
    }
  }
}
