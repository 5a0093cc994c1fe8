/** Picking the seed for the classical minimiser: the most frequent outcome
    of the sampled measurement histogram. The histogram maps each measured
    outcome, with its bits folded into an integer, to its count. */
module Seed {

  datatype Option<T> = None | Some(value: T)

  type Histogram = map<nat, nat>

  /** `key` is an outcome with a count no other outcome exceeds. */
  predicate IsMostCommon(counts: Histogram, key: nat)
  {
    key in counts && forall k :: k in counts ==> counts[k] <= counts[key]
  }

  /** Most common outcome of the histogram, or None when it is empty (where
      taking the first of the most common entries fails). Among tied
      outcomes any one may be returned. */
  method MostCommon(counts: Histogram) returns (seed: Option<nat>)
    ensures seed.None? <==> counts == map[]
    ensures seed.Some? ==> IsMostCommon(counts, seed.value)
  {
    if counts == map[] {
      return None;
    }
    var best :| best in counts;
    var rest := counts.Keys - {best};
    while rest != {}
      invariant best in counts && rest <= counts.Keys
      invariant forall k :: k in counts && k !in rest ==> counts[k] <= counts[best]
      decreases rest
    {
      var k :| k in rest;
      if counts[k] > counts[best] {
        best := k;
      }
      rest := rest - {k};
    }
    return Some(best);
  }
}
