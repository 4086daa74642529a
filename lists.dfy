/** Searching a list, as `Array.prototype.findIndex` does. */
module Lists {
  import opened Options

  /** The position of the first element that `matches`, or `None` when no
      element does. */
  function FirstIndex<T>(xs: seq<T>, matches: T -> bool): (r: Option<nat>)
    ensures r.Some? ==> r.value < |xs| && matches(xs[r.value])
    ensures r.Some? ==> forall j :: 0 <= j < r.value ==> !matches(xs[j])
    ensures r.None? ==> forall j :: 0 <= j < |xs| ==> !matches(xs[j])
  {
    if xs == [] then None
    else if matches(xs[0]) then Some(0)
    else
      match FirstIndex(xs[1..], matches)
      case None => None
      case Some(k) => Some(k + 1)
  }

  /** The first match is determined by the elements up to it: a match at
      `k` with none before it is the first one. */
  lemma FirstIndexAt<T>(xs: seq<T>, matches: T -> bool, k: nat)
    requires k < |xs| && matches(xs[k])
    requires forall j :: 0 <= j < k ==> !matches(xs[j])
    ensures FirstIndex(xs, matches) == Some(k)
  {
  }
}
