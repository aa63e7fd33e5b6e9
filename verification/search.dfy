/** First-success search over an ordered list: the control shape shared by the
    readiness probe (selectors tried in order) and the asset-URL resolver
    (patterns tried in priority order). */
module Search {
  import opened Wrappers

  /** Position of the first element of `xs` that satisfies `p`; elements after it are
      never consulted. */
  function FirstIndex<T>(xs: seq<T>, p: T -> bool): (r: Option<nat>)
    ensures r.Some? ==> r.value < |xs| && p(xs[r.value])
    ensures r.Some? ==> forall j :: 0 <= j < r.value ==> !p(xs[j])
    ensures r.None? <==> forall j :: 0 <= j < |xs| ==> !p(xs[j])
  {
    if |xs| == 0 then None
    else if p(xs[0]) then Some(0)
    else
      match FirstIndex(xs[1..], p)
      case None => None
      case Some(k) => Some(k + 1)
  }

  /** The search only depends on the elements up to and including the one it stops at:
      any two tests that agree there give the same answer. */
  lemma FirstIndexIgnoresLater<T>(xs: seq<T>, p: T -> bool, q: T -> bool)
    requires FirstIndex(xs, p).Some?
    requires forall j :: 0 <= j <= FirstIndex(xs, p).value ==> p(xs[j]) == q(xs[j])
    ensures FirstIndex(xs, q) == FirstIndex(xs, p)
  {
  }
}
