/** Environment variables as the scripts read them with os.getenv: a variable
    is either unset (None) or holds a string. */
module Env {
  import opened Wrappers

  type EnvValue = Option<string>

  /** Python's `if not value` on an os.getenv result fails for an unset
      variable and for an empty string alike. */
  predicate IsSet(v: EnvValue) {
    v.Some? && v.value != ""
  }
}
