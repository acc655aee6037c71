/** The end-to-end tests' connection settings (`clio.E2E.Common.Environment`): taken from
    the CREATIO_* environment variables when the four needed ones are usable, and from the
    settings file otherwise. The environment is the map of its variables. */
module E2EEnvironment {
  import opened Common
  import opened Text

  const IsNetCoreVar := "CREATIO_IS_NETCORE"
  const UrlVar := "CREATIO_URL"
  const LoginVar := "CREATIO_LOGIN"
  const PasswordVar := "CREATIO_PASSWORD"
  const ClientIdVar := "CREATIO_CLIENT_ID"
  const ClientSecretVar := "CREATIO_CLIENT_SECRET"
  const AuthAppUriVar := "CREATIO_AUTH_APP_URI"
  const InvalidSettingsFile := "Invalid settings file."

  /** The `EnvironmentSettings` record, fields in its declaration order. */
  datatype EnvironmentSettings = EnvironmentSettings(
    password: string, login: string, clientId: string, clientSecret: string,
    authAppUri: string, url: string, isNetCore: bool)

  /** A variable that is set and not white space only. */
  predicate Usable(env: map<string, string>, name: string) {
    name in env && !IsNullOrWhiteSpace(env[name])
  }

  /** The settings the environment yields: all of CREATIO_IS_NETCORE as a bool, and
      CREATIO_URL, CREATIO_LOGIN and CREATIO_PASSWORD usable, or nothing. The three other
      variables are optional and copied as they are, "" when unset. */
  function FromEnvironment(env: map<string, string>): Option<EnvironmentSettings> {
    var netCore := if IsNetCoreVar in env then ParseBool(env[IsNetCoreVar]) else None;
    if netCore.Some? && Usable(env, UrlVar) && Usable(env, LoginVar) && Usable(env, PasswordVar) then
      Some(EnvironmentSettings(env[PasswordVar], env[LoginVar], Arg(env, ClientIdVar), Arg(env, ClientSecretVar),
                               Arg(env, AuthAppUriVar), env[UrlVar], netCore.value))
    else None
  }

  /** `InitEnvSettings`: one flag per required variable, set while reading it, and the
      record only when all four flags are set. */
  method InitEnvSettings(env: map<string, string>) returns (r: Option<EnvironmentSettings>)
    ensures r == FromEnvironment(env)
  {
    var isNetCore := false;
    var login, password, clientId, clientSecret, url, authAppUri := "", "", "", "", "", "";
    var t1, t2, t3, t4 := false, false, false, false;
    if IsNetCoreVar in env {
      var parsed := ParseBool(env[IsNetCoreVar]);
      t1 := parsed.Some?;
      isNetCore := if parsed.Some? then parsed.value else false;
    }
    if UrlVar in env {
      url := env[UrlVar];
      t2 := !IsNullOrWhiteSpace(url);
    }
    if LoginVar in env {
      login := env[LoginVar];
      t3 := !IsNullOrWhiteSpace(login);
    }
    if PasswordVar in env {
      password := env[PasswordVar];
      t4 := !IsNullOrWhiteSpace(password);
    }
    if ClientIdVar in env {
      clientId := env[ClientIdVar];
    }
    if ClientSecretVar in env {
      clientSecret := env[ClientSecretVar];
    }
    if AuthAppUriVar in env {
      authAppUri := env[AuthAppUriVar];
    }
    if t1 && t2 && t3 && t4 {
      return Some(EnvironmentSettings(password, login, clientId, clientSecret, authAppUri, url, isNetCore));
    }
    return None;
  }

  /** The gate is all or nothing: settings come back exactly when the four required
      variables are usable, and then every field is the variable's text as it is. */
  lemma EnvironmentGate(env: map<string, string>)
    ensures var r := FromEnvironment(env);
      && (r.Some? <==>
            && IsNetCoreVar in env && ParseBool(env[IsNetCoreVar]).Some?
            && Usable(env, UrlVar) && Usable(env, LoginVar) && Usable(env, PasswordVar))
      && (r.Some? ==>
            && r.value.url == env[UrlVar] && r.value.login == env[LoginVar] && r.value.password == env[PasswordVar]
            && Some(r.value.isNetCore) == ParseBool(env[IsNetCoreVar])
            && r.value.clientId == Arg(env, ClientIdVar) && r.value.clientSecret == Arg(env, ClientSecretVar)
            && r.value.authAppUri == Arg(env, AuthAppUriVar))
  {
  }

  /** The optional variables never decide whether the environment is used. */
  lemma OptionalVariablesIrrelevant(env: map<string, string>, name: string, value: string)
    requires name == ClientIdVar || name == ClientSecretVar || name == AuthAppUriVar
    ensures FromEnvironment(env[name := value]).Some? == FromEnvironment(env).Some?
  {
    assert name != IsNetCoreVar && name != UrlVar && name != LoginVar && name != PasswordVar;
  }

  /** `InitSettingsFromFile`: the file's deserialized record, or an exception when it
      cannot be read, is not a settings object, or deserializes to null. */
  function FromFile(file: Attempt<Option<EnvironmentSettings>>): (r: Attempt<EnvironmentSettings>)
    ensures file.Value? && file.value.Some? <==> r.Value?
    ensures r.Value? ==> r.value == file.value.value
    ensures file.Value? && file.value.None? ==> r == Threw(InvalidSettingsFile)
  {
    match file
    case Threw(m) => Threw(m)
    case Value(None) => Threw(InvalidSettingsFile)
    case Value(Some(s)) => Value(s)
  }

  /** `InitEnvSettings() ?? InitSettingsFromFile("appsettings.json")`. */
  function Settings(env: map<string, string>, file: Attempt<Option<EnvironmentSettings>>): Attempt<EnvironmentSettings> {
    match FromEnvironment(env)
    case Some(s) => Value(s)
    case None => FromFile(file)
  }

  /** The environment wins: a usable environment decides the settings whatever the file
      holds, and only an unusable one falls back to the file. */
  lemma EnvironmentFirst(env: map<string, string>, file: Attempt<Option<EnvironmentSettings>>, other: Attempt<Option<EnvironmentSettings>>)
    ensures FromEnvironment(env).Some? ==> Settings(env, file) == Settings(env, other) == Value(FromEnvironment(env).value)
    ensures FromEnvironment(env).None? ==> Settings(env, file) == FromFile(file)
  {
  }
}
