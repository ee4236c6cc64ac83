// Lookup in a list: the primary-key and unique-index reads of the tables and the library.
module FirstMatch {

  // The first position whose element satisfies the test, or the length.
  function First<T>(rows: seq<T>, test: T -> bool): (i: nat)
    ensures i <= |rows|
    ensures i < |rows| ==> test(rows[i])
    ensures forall k :: 0 <= k < i ==> !test(rows[k])
  {
    if rows == [] || test(rows[0]) then 0 else 1 + First(rows[1..], test)
  }
}
