/** Optional values and results: the model's stand-ins for `null`/`undefined`
    and for promises that resolve or reject. */
module Wrappers {

  datatype Option<+T> = None | Some(value: T) {
    function GetOr(default: T): T {
      match this
      case Some(v) => v
      case None => default
    }
  }

  /** The outcome of an awaited call: it resolved with a value or rejected
      with an error message. */
  datatype Result<+T> = Ok(value: T) | Err(message: string)

  /** JavaScript truthiness of an optional string: `null`, `undefined`
      and `""` are falsy. */
  predicate TruthyString(s: Option<string>) {
    s.Some? && s.value != ""
  }

  /** `s || fallback` on an optional string: the text itself when it is
      truthy, the fallback text when it is missing or empty. */
  function OrText(s: Option<string>, fallback: string): (t: string)
    ensures TruthyString(s) ==> t == s.value
    ensures !TruthyString(s) ==> t == fallback
    ensures t == fallback || (s.Some? && t == s.value && t != "")
  {
    if TruthyString(s) then s.value else fallback
  }

  /** JavaScript truthiness of an optional integer: `null`, `undefined` and
      `0` are falsy. */
  predicate TruthyInt(n: Option<int>) {
    n.Some? && n.value != 0
  }
}
