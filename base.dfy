/** Failure-carrying wrappers shared by the other modules. */
module Base {

  datatype Option<T> = None | Some(value: T)

  /** The value of a call that either returns normally or raises. */
  datatype Result<T, E> = Ok(value: T) | Err(error: E)

  /** `d.get(key, default)` on a string-keyed dictionary. */
  function Get<V>(d: map<string, V>, key: string, default: V): (v: V)
    ensures key in d ==> v == d[key]
    ensures key !in d ==> v == default
  {
    if key in d then d[key] else default
  }
}
