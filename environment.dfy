/** The process environment as the three programs read it (after dotenv has filled it in). */
module Environment {
  import opened Wrappers

  type Env = map<string, string>

  /** os.getenv(key). */
  function Getenv(env: Env, key: string): Option<string> {
    if key in env then Some(env[key]) else None
  }

  /** os.getenv(key, default): the default only when the variable is unset, not when it is "". */
  function GetenvOr(env: Env, key: string, default: string): (r: string)
    ensures key in env ==> r == env[key]
    ensures key !in env ==> r == default
  {
    if key in env then env[key] else default
  }

  function MissingVariable(key: string): Error {
    EnvironmentError("Missing required environment variable: " + key)
  }

  /** env_or_fail(key) of both ETL files: the value, unless it is unset or empty. */
  function EnvOrFail(env: Env, key: string): (r: Result<string>)
    ensures r.Ok? <==> Truthy(Getenv(env, key))
    ensures r.Ok? ==> r.value == env[key] && r.value != ""
    ensures r.Err? ==> r.error == MissingVariable(key)
  {
    if key in env && env[key] != "" then Ok(env[key]) else Err(MissingVariable(key))
  }

  /** env_or_fail over a list of names, in order: the values, or the error for the first name
      that is unset or empty. */
  function RequireAll(env: Env, keys: seq<string>): Result<seq<string>>
    decreases |keys|
  {
    if keys == [] then Ok([])
    else
      var v :- EnvOrFail(env, keys[0]);
      var rest :- RequireAll(env, keys[1..]);
      Ok([v] + rest)
  }

  lemma {:induction false} RequireAllFirstMissing(env: Env, keys: seq<string>)
    ensures RequireAll(env, keys).Ok? <==> forall i :: 0 <= i < |keys| ==> Truthy(Getenv(env, keys[i]))
    ensures RequireAll(env, keys).Ok? ==>
              |RequireAll(env, keys).value| == |keys| &&
              forall i :: 0 <= i < |keys| ==> RequireAll(env, keys).value[i] == env[keys[i]]
    ensures RequireAll(env, keys).Err? ==>
              exists i :: 0 <= i < |keys| && !Truthy(Getenv(env, keys[i]))
                          && RequireAll(env, keys).error == MissingVariable(keys[i])
                          && forall j :: 0 <= j < i ==> Truthy(Getenv(env, keys[j]))
    decreases |keys|
  {
    if keys != [] {
      var rest := keys[1..];
      RequireAllFirstMissing(env, rest);
      assert forall i :: 1 <= i < |keys| ==> keys[i] == rest[i - 1];
      if Truthy(Getenv(env, keys[0])) && RequireAll(env, rest).Err? {
        var i :| 0 <= i < |rest| && !Truthy(Getenv(env, rest[i]))
                 && RequireAll(env, rest).error == MissingVariable(rest[i])
                 && forall j :: 0 <= j < i ==> Truthy(Getenv(env, rest[j]));
        assert keys[i + 1] == rest[i];
        forall j | 0 <= j < i + 1 ensures Truthy(Getenv(env, keys[j])) {
          if j > 0 { assert keys[j] == rest[j - 1]; }
        }
      }
    }
  }
}
