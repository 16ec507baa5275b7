/** Small vocabulary shared by all parts. */
module Wrappers {

  datatype Option<T> = None | Some(value: T)

  function Max0(x: int): nat { if x < 0 then 0 else x }

  predicate Distinct<T(==)>(items: seq<T>) {
    forall i, j :: 0 <= i < j < |items| ==> items[i] != items[j]
  }
}
