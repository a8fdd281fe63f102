/** Reading settings from the process environment. Java asks `getOrDefault`, where a variable
    that is present wins even when it is empty; JavaScript writes `process.env.X || fallback`,
    where an empty value is as good as a missing one. */
module Env {
  import opened Wrappers
  import opened Numbers

  type Environment = map<string, string>

  const DefaultPort: string := "20041"
  const DefaultDest: string := "www.microsoft.com:443"
  const DefaultServerNames: string := "www.microsoft.com"

  /** Java `System.getenv().getOrDefault(name, fallback)`. */
  function GetOrDefault(env: Environment, name: string, fallback: string): (r: string)
    ensures name in env ==> r == env[name]
    ensures name !in env ==> r == fallback
  {
    if name in env then env[name] else fallback
  }

  /** The value of `process.env[name]` if it is truthy, i.e. present and non-empty. */
  function Truthy(env: Environment, name: string): (r: Option<string>)
    ensures r.Some? <==> name in env && env[name] != ""
    ensures r.Some? ==> r.value == env[name]
  {
    if name in env && env[name] != "" then Some(env[name]) else None
  }

  /** JavaScript `process.env[name] || fallback`. */
  function OrElse(env: Environment, name: string, fallback: string): (r: string)
    ensures Truthy(env, name).Some? ==> r == env[name]
    ensures Truthy(env, name).None? ==> r == fallback
  {
    match Truthy(env, name)
    case Some(v) => v
    case None => fallback
  }

  /** The port text the Java servers parse: PORT, else SERVER_PORT, else "20041". */
  function JavaPortText(env: Environment): (r: string)
    ensures "PORT" in env ==> r == env["PORT"]
    ensures "PORT" !in env && "SERVER_PORT" in env ==> r == env["SERVER_PORT"]
    ensures "PORT" !in env && "SERVER_PORT" !in env ==> r == DefaultPort
  {
    GetOrDefault(env, "PORT", GetOrDefault(env, "SERVER_PORT", DefaultPort))
  }

  /** The Java constructors' `Integer.parseInt` of the port text: `None` where it throws. */
  function JavaPort(env: Environment): (r: Option<int>)
    ensures r.Some? ==> IntMin <= r.value <= IntMax
    ensures "PORT" !in env && "SERVER_PORT" !in env ==> r == Some(20041)
    ensures "PORT" in env && env["PORT"] == "" ==> r.None?
  {
    var t := JavaPortText(env);
    DefaultPortValue();
    JavaParseInt(t)
  }

  /** "20041" is the decimal rendering of 20041, so both parsers read it back. */
  lemma DefaultPortValue()
    ensures DefaultPort == IntToString(20041)
    ensures JavaParseInt(DefaultPort) == Some(20041) && JsParseInt(DefaultPort) == Some(20041)
  {
    assert Digits(2) == "2";
    assert Digits(20) == "20";
    assert Digits(200) == "200";
    assert Digits(2004) == "2004";
    assert Digits(20041) == "20041";
    JavaParseIntOfString(20041);
    JsParseIntOfString(20041);
  }

  /** The port text of the three scripts: `PORT || SERVER_PORT || '20041'`. */
  function JsPortText(env: Environment): (r: string)
    ensures r != ""
    ensures Truthy(env, "PORT").Some? ==> r == env["PORT"]
    ensures Truthy(env, "PORT").None? && Truthy(env, "SERVER_PORT").Some? ==> r == env["SERVER_PORT"]
    ensures Truthy(env, "PORT").None? && Truthy(env, "SERVER_PORT").None? ==> r == DefaultPort
  {
    OrElse(env, "PORT", OrElse(env, "SERVER_PORT", DefaultPort))
  }

  /** An empty PORT stops the Java servers but not the scripts, which fall through to the
      next setting. */
  lemma EmptyPortDiverges(env: Environment)
    requires "PORT" in env && env["PORT"] == ""
    ensures JavaPort(env).None?
    ensures JsPortText(env) == OrElse(env, "SERVER_PORT", DefaultPort)
  {
  }

  /** Where PORT, if set, is non-empty, and SERVER_PORT, if it is the setting consulted next, is
      non-empty too, the two languages read the same port text. */
  lemma PortTextsAgree(env: Environment)
    requires "PORT" in env ==> env["PORT"] != ""
    requires "PORT" !in env && "SERVER_PORT" in env ==> env["SERVER_PORT"] != ""
    ensures JavaPortText(env) == JsPortText(env)
  {
  }
}
