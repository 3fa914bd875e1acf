/** Small types that several modules share. */
module Prelude {
  function Min(a: nat, b: nat): nat { if a < b then a else b }

  datatype Option<T> = None | Some(value: T)

  // A verdict.  Dafny checks a claim that a function of this type returns
  // `Intact` as one fact, and not conjunct by conjunct.
  datatype Sealed = Intact | Broken
}
