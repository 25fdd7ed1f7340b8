// Code that is written out with its variables in shifted order: n variables stand in an
// array, and after r shifts variable number k stands at Place(n, r, k).
module Renaming {
  function Place(n: nat, r: nat, k: nat): (p: nat)
    requires r <= n && k < n
    ensures p < n
  {
    if k >= r then k - r else k + n - r
  }

  // A shift gives each place the next name, and no place two names.
  lemma PlacesShift(n: nat, r: nat)
    requires r < n
    ensures Place(n, r + 1, 0) == Place(n, r, n - 1)
    ensures forall k :: 0 <= k < n - 1 ==> Place(n, r + 1, k + 1) == Place(n, r, k)
    ensures forall j, k :: 0 <= j < k < n ==> Place(n, r, j) != Place(n, r, k)
  {}
}
