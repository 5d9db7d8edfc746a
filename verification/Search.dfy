/** Finding the first occurrence of an element. */
module Search {

  /** Where `c` first stands in `s`, else |s|. */
  function Find<T(==)>(s: seq<T>, c: T): (n: nat)
    ensures n <= |s| && (n < |s| ==> s[n] == c) && forall i :: 0 <= i < n ==> s[i] != c
  {
    if s == [] || s[0] == c then 0 else 1 + Find(s[1..], c)
  }
}
