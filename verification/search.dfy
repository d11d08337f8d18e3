/** Optional values and first-match search over sequences, the two shapes
    behind JavaScript's `Array.prototype.find`, `findIndex` and the
    datastore's "first record or null" lookups. */
module Search {

  /** A value that may be absent (`null` / `undefined` in the program). */
  datatype Option<+T> = None | Some(value: T)

  /** Index of the first element of `s` satisfying `p`, scanning in order. */
  function First<T>(s: seq<T>, p: T -> bool): (r: Option<nat>)
    ensures r.Some? ==> r.value < |s| && p(s[r.value])
    ensures r.Some? ==> forall j :: 0 <= j < r.value ==> !p(s[j])
    ensures r.None? <==> forall j :: 0 <= j < |s| ==> !p(s[j])
  {
    if |s| == 0 then None
    else if p(s[0]) then Some(0)
    else
      match First(s[1..], p)
      case None => None
      case Some(i) => Some(i + 1)
  }
}
