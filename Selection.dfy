/**
 * The running minimum the graph center and optimal location agents keep:
 * a candidate replaces the current best only when it is strictly smaller, so
 * among equal scores the earliest one wins.
 */
module Selection {

  /** `k` holds a smallest score, and every earlier score is strictly larger. */
  ghost predicate IsFirstMin(scores: seq<real>, k: int)
  {
    && 0 <= k < |scores|
    && (forall i :: 0 <= i < |scores| ==> scores[k] <= scores[i])
    && (forall i :: 0 <= i < k ==> scores[k] < scores[i])
  }

  /** The index a strict-`<` scan from the front ends with. */
  function FirstMin(scores: seq<real>): (k: nat)
    requires |scores| > 0
    ensures IsFirstMin(scores, k)
    decreases |scores|
  {
    if |scores| == 1 then 0
    else
      var k := FirstMin(scores[..|scores| - 1]);
      if scores[|scores| - 1] < scores[k] then |scores| - 1 else k
  }

  /**
   * One step of the running minimum: scanning one more score moves the best
   * index to it exactly when it is strictly below the best so far.
   */
  lemma FirstMinStep(scores: seq<real>, i: nat)
    requires 0 < i < |scores|
    ensures FirstMin(scores[..i + 1]) ==
              if scores[i] < scores[FirstMin(scores[..i])] then i else FirstMin(scores[..i])
  {
    assert scores[..i + 1][..i] == scores[..i];
  }
}
