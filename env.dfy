/**
  The Hugging Face credentials: the stored pair, the process environment the
  setter writes into, the environment handed to command-line children, and
  the credentials reported to the dashboard.
 */
module Env {

  const UserVar := "HF_USER"
  const TokenVar := "HUGGINGFACE_TOKEN"

  /** What `get_hf_credentials` reports. */
  datatype Credentials = Credentials(hfUser: string, hfToken: string, hasUser: bool, hasToken: bool, source: string)

  /** `a or b` on texts. */
  function Or(a: string, b: string): (r: string)
    ensures a != [] ==> r == a
    ensures a == [] ==> r == b
  {
    if a != [] then a else b
  }

  /** `os.environ.get(name, '')`. */
  function EnvGet(environ: map<string, string>, name: string): (v: string)
    ensures name in environ ==> v == environ[name]
    ensures name !in environ ==> v == ""
  {
    if name in environ then environ[name] else ""
  }

  /** The module's global `hf_credentials` together with the process environment. */
  class HfCredentials {
    var storedUser: string
    var storedToken: string
    var environ: map<string, string>

    /** Both stored values start empty; the environment is what the process was started with. */
    constructor(initial: map<string, string>)
      ensures storedUser == "" && storedToken == "" && environ == initial
    {
      storedUser := "";
      storedToken := "";
      environ := initial;
    }

    /**
      `set_hf_credentials`: both stored values are overwritten, empty or not;
      only a non-empty value is also written into the environment, which is
      otherwise left as it was.
     */
    method Set(user: string, token: string)
      modifies this
      ensures storedUser == user && storedToken == token
      ensures UserVar in environ <==> user != [] || UserVar in old(environ)
      ensures TokenVar in environ <==> token != [] || TokenVar in old(environ)
      ensures user != [] ==> environ[UserVar] == user
      ensures token != [] ==> environ[TokenVar] == token
      ensures forall name :: name in old(environ) && (name != UserVar || user == []) && (name != TokenVar || token == []) ==>
        name in environ && environ[name] == old(environ)[name]
      ensures forall name :: name in environ ==> name in old(environ) || name == UserVar || name == TokenVar
    {
      storedUser := user;
      storedToken := token;
      if user != [] {
        environ := environ[UserVar := user];
      }
      if token != [] {
        environ := environ[TokenVar := token];
      }
    }

    /** `get_hf_env_for_cli`: exactly the non-empty stored values, under their variable names. */
    method EnvForCli() returns (env: map<string, string>)
      ensures UserVar in env <==> storedUser != []
      ensures TokenVar in env <==> storedToken != []
      ensures UserVar in env ==> env[UserVar] == storedUser
      ensures TokenVar in env ==> env[TokenVar] == storedToken
      ensures forall name :: name in env ==> name == UserVar || name == TokenVar
    {
      env := map[];
      if storedUser != [] {
        env := env[UserVar := storedUser];
      }
      if storedToken != [] {
        env := env[TokenVar := storedToken];
      }
    }

    /**
      `get_hf_credentials`: field by field a non-empty environment value wins
      over the stored one; the flags say whether the chosen values are
      non-empty, and the source is "system" exactly when either environment
      value is non-empty.
     */
    method Get() returns (c: Credentials)
      ensures c.hfUser == (if EnvGet(environ, UserVar) != [] then EnvGet(environ, UserVar) else storedUser)
      ensures c.hfToken == (if EnvGet(environ, TokenVar) != [] then EnvGet(environ, TokenVar) else storedToken)
      ensures c.hasUser <==> c.hfUser != []
      ensures c.hasToken <==> c.hfToken != []
      ensures c.source == "system" <==> EnvGet(environ, UserVar) != [] || EnvGet(environ, TokenVar) != []
      ensures c.source == "stored" <==> EnvGet(environ, UserVar) == [] && EnvGet(environ, TokenVar) == []
    {
      var systemUser := EnvGet(environ, UserVar);
      var systemToken := EnvGet(environ, TokenVar);
      var user := Or(systemUser, storedUser);
      var token := Or(systemToken, storedToken);
      c := Credentials(user, token, user != [], token != [],
                       if systemUser != [] || systemToken != [] then "system" else "stored");
    }
  }

  /** After setting credentials, the children's environment holds exactly the non-empty ones. */
  method SetThenEnvForCli(h: HfCredentials, user: string, token: string) returns (env: map<string, string>)
    modifies h
    ensures UserVar in env <==> user != []
    ensures TokenVar in env <==> token != []
    ensures UserVar in env ==> env[UserVar] == user
    ensures TokenVar in env ==> env[TokenVar] == token
    ensures forall name :: name in env ==> name == UserVar || name == TokenVar
  {
    h.Set(user, token);
    env := h.EnvForCli();
  }

  /**
    Setting a non-empty user makes it the reported user, and the source is
    then reported as "system": the setter wrote it into the environment.
   */
  method SetThenGet(h: HfCredentials, user: string, token: string) returns (c: Credentials)
    requires user != []
    modifies h
    ensures c.hfUser == user && c.hasUser && c.source == "system"
  {
    h.Set(user, token);
    c := h.Get();
  }
}
