/** Small value types shared by the modules of this model. */
module Base {

  /** A value that may be absent: Kotlin's nullable references (`T?`). */
  datatype Option<+T> = None | Some(value: T)

  function Min(a: nat, b: nat): nat { if a <= b then a else b }

  /** A non-empty sequence is its head followed by its tail. */
  lemma SplitHead<T>(x: seq<T>)
    requires x != []
    ensures x == [x[0]] + x[1..]
  {
  }

  /** Concatenation is associative. */
  lemma AppendAssoc<T>(a: seq<T>, b: seq<T>, c: seq<T>)
    ensures a + b + c == a + (b + c)
  {
  }
}
