/**
 * The process environment (`process.env`) as a map from variable name to value.
 * A variable that is not in the map reads as `undefined`.
 */
module Environment {
  import opened Wrappers

  type Env = map<string, string>

  /** `process.env[name]`: the value, or None for `undefined`. */
  function Lookup(env: Env, name: string): (r: Option<string>)
    ensures r.Some? <==> name in env
    ensures r.Some? ==> r.value == env[name]
  {
    if name in env then Some(env[name]) else None
  }

  /** `process.env[name] || ""`: `undefined` reads as the empty string. */
  function ValueOrEmpty(env: Env, name: string): (r: string)
    ensures name in env ==> r == env[name]
    ensures name !in env ==> r == ""
  {
    Lookup(env, name).GetOr("")
  }

  /** JavaScript truthiness of `process.env[name]`: defined and not the empty string. */
  predicate IsSet(env: Env, name: string) {
    name in env && env[name] != ""
  }
}
