/** Counting arguments about finite sets. */
module Sets {

  lemma SubsetSize<T>(a: set<T>, b: set<T>)
    requires a <= b
    ensures |a| <= |b|
  {
    assert b == a + (b - a);
  }

  function Upto(n: nat): (ids: set<nat>)
    ensures |ids| == n && forall i: nat :: i in ids <==> i < n
  {
    if n == 0 then {} else Upto(n - 1) + {n - 1}
  }

  /** Two sets inside `u` that together outnumber `u` by more than `b` members share a member outside `b`. */
  lemma Intersect(a: set<nat>, c: set<nat>, u: set<nat>, b: set<nat>) returns (j: nat)
    requires a <= u && c <= u && |a| + |c| > |u| + |b|
    ensures j in a && j in c && j !in b
  {
    SubsetSize(a + c, u);
    if forall x :: x in a * c ==> x in b {
      SubsetSize(a * c, b);
    }
    j :| j in a * c && j !in b;
  }
}
