/** Values that may be absent: a JavaScript `null`/`undefined`, a failed call or a missing key. */
module Common {

  datatype Option<+T> = None | Some(value: T)

  function Min(a: int, b: int): int
  {
    if a <= b then a else b
  }
}
