/** Small facts shared by the other modules. */
module Basics {

  function Min(a: nat, b: nat): nat {
    if a <= b then a else b
  }

  lemma AppendAssoc<T>(a: seq<T>, b: seq<T>, c: seq<T>)
    ensures (a + b) + c == a + (b + c)
  {
  }
}
