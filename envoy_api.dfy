/** The package-level helper `get_allowlist`: the names closed mode always
    seeds from the real environment, plus any extra names. */
module EnvoyApi {
  import opened Base
  import opened Environment

  /** `get_allowlist(extra)`: the core and envoy variables, with `extra` added
      when it is given and non-empty. */
  function GetAllowlist(extra: Option<seq<string>>): (r: set<string>)
    ensures CoreEnvVars + EnvoyEnvVars <= r
    ensures forall x :: x in r <==> x in CoreEnvVars || x in EnvoyEnvVars || (extra.Some? && x in extra.value)
  {
    var base := CoreEnvVars + EnvoyEnvVars;
    if extra.Some? && extra.value != [] then base + set x | x in extra.value else base
  }

  /** Without extra names, or with an empty list, the allowlist is exactly
      the core and envoy variables. */
  lemma DefaultAllowlist()
    ensures GetAllowlist(None) == CoreEnvVars + EnvoyEnvVars
    ensures GetAllowlist(Some([])) == CoreEnvVars + EnvoyEnvVars
  {
  }

  /** More extra names never remove a name. */
  lemma AllowlistMonotone(a: seq<string>, b: seq<string>)
    requires forall x :: x in a ==> x in b
    ensures GetAllowlist(Some(a)) <= GetAllowlist(Some(b))
    ensures GetAllowlist(None) <= GetAllowlist(Some(a))
  {
  }

  /** The allowlist names exactly the variables a closed-mode environment
      with those extra names copies from the real environment. */
  lemma AllowlistIsClosedSeed(extra: seq<string>, environ: Env)
    ensures Seed(Manager(false, set x | x in extra), environ).Keys == GetAllowlist(Some(extra)) * environ.Keys
  {
  }
}
