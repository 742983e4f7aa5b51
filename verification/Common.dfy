// Small things every part of the model uses.

module Common {
  datatype Option<+T> = None | Some(value: T)

  /** A Python object, by identity. */
  type Object = nat

  function Min(a: nat, b: nat): nat {
    if a <= b then a else b
  }

  lemma Associate<T>(a: seq<T>, b: seq<T>, c: seq<T>)
    ensures a + (b + c) == (a + b) + c
  {
  }
}
