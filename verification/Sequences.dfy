/** Searching a sequence. */
module Sequences {

  /** Position of the first such item, or the number of items. */
  function Lookup<T(==)>(items: seq<T>, item: T): (k: nat)
    ensures k <= |items|
    ensures k < |items| ==> items[k] == item
    ensures forall j :: 0 <= j < k ==> items[j] != item
  {
    if items == [] then 0 else if items[0] == item then 0 else 1 + Lookup(items[1..], item)
  }
}
