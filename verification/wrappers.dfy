/** Optional values: the model's stand-in for TypeScript's optional (`?`) properties. */
module Wrappers {

  datatype Option<+T> = None | Some(value: T)

  /** `override` when present, else `fallback`: the meaning of `{...base, ...updates}` for one field. */
  function Override<T>(override: Option<T>, fallback: T): T {
    if override.Some? then override.value else fallback
  }

  /** The same for a field that is itself optional. */
  function OverrideOpt<T>(override: Option<T>, fallback: Option<T>): Option<T> {
    if override.Some? then override else fallback
  }
}
