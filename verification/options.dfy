/** An optional value: the model's stand-in for a TypeScript `T | null`,
    an `undefined` prop or the result of `Array.prototype.find`. */
module Options {

  datatype Option<+T> = None | Some(value: T) {

    /** The value, or `default` when there is none (the `??` / `||` fallback). */
    function GetOr(default: T): T {
      match this
      case Some(v) => v
      case None => default
    }
  }

  /** `s || fallback` on an optional string: JavaScript's `||` treats both
      a missing value and the empty string as false, so either gives the
      fallback. */
  function StringOr(s: Option<string>, fallback: string): (r: string)
    ensures s.Some? && s.value != "" ==> r == s.value
    ensures s.None? || s.value == "" ==> r == fallback
    ensures r != "" <==> (s.Some? && s.value != "") || fallback != ""
  {
    if s.Some? && s.value != "" then s.value else fallback
  }
}
