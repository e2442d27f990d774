/** First-match search, the shape shared by every "first entry that qualifies" loop of the probe. */
module Search {
  import opened Optional

  /** Index of the first element of `xs` satisfying `p`, or `|xs|` when none does. */
  function FirstIndex<T>(xs: seq<T>, p: T -> bool): (k: nat)
    ensures k <= |xs|
    ensures forall j :: 0 <= j < k ==> !p(xs[j])
    ensures k < |xs| ==> p(xs[k])
    decreases |xs|
  {
    if |xs| == 0 then 0
    else if p(xs[0]) then 0
    else 1 + FirstIndex(xs[1..], p)
  }

  /** `k` is the first index of `xs` whose element satisfies `p`. */
  predicate IsFirst<T>(xs: seq<T>, p: T -> bool, k: int) {
    0 <= k < |xs| && p(xs[k]) && forall j :: 0 <= j < k ==> !p(xs[j])
  }

  /** The first qualifying index is the one `FirstIndex` finds. */
  lemma FirstIndexIsFirst<T>(xs: seq<T>, p: T -> bool, k: int)
    requires IsFirst(xs, p, k)
    ensures FirstIndex(xs, p) == k
  {
  }

  /** The least `k` with `lo <= k < n` satisfying `ok`, or `None` when there is none. */
  function FirstFrom(lo: nat, n: nat, ok: int -> bool): (k: Option<nat>)
    requires lo <= n
    ensures k.Some? ==> lo <= k.value < n && ok(k.value)
    ensures k.Some? ==> forall j :: lo <= j < k.value ==> !ok(j)
    ensures k.None? ==> forall j :: lo <= j < n ==> !ok(j)
    decreases n - lo
  {
    if lo == n then None
    else if ok(lo) then Some(lo)
    else FirstFrom(lo + 1, n, ok)
  }
}
