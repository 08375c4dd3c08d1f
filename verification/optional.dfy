/** A value that Python code may leave as `None` or omit altogether. */
module Optional {

  datatype Option<T> = None | Some(value: T)

  /** `config.get(key, fallback)`: the stored value, or `fallback` when the key is absent. */
  function Or<T>(o: Option<T>, fallback: T): (r: T) {
    if o.Some? then o.value else fallback
  }
}
