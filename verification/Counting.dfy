/** How many elements of a sequence satisfy a predicate: "the number of processes inside". */
module Counting {

  function Count<T>(s: seq<T>, p: T -> bool): nat {
    if s == [] then 0 else Count(s[..|s| - 1], p) + (if p(s[|s| - 1]) then 1 else 0)
  }

  /** Replacing one element moves the count by what that element contributed. */
  lemma {:induction false} CountUpdate<T>(s: seq<T>, i: nat, v: T, p: T -> bool)
    requires i < |s|
    ensures Count(s[i := v], p) == Count(s, p) - (if p(s[i]) then 1 else 0) + (if p(v) then 1 else 0)
  {
    var m := |s| - 1;
    if i < m {
      CountUpdate(s[..m], i, v, p);
      assert s[i := v][..m] == s[..m][i := v];
    } else {
      assert s[i := v][..m] == s[..m];
    }
  }

  /** A zero count means that no element qualifies. */
  lemma {:induction false} CountZero<T>(s: seq<T>, p: T -> bool)
    ensures Count(s, p) == 0 <==> forall i | 0 <= i < |s| :: !p(s[i])
  {
    if s != [] {
      CountZero(s[..|s| - 1], p);
      assert forall i | 0 <= i < |s| - 1 :: s[i] == s[..|s| - 1][i];
    }
  }

  /** A count of one means that the qualifying element is unique. */
  lemma {:induction false} CountOne<T>(s: seq<T>, p: T -> bool, i: nat, k: nat)
    requires Count(s, p) <= 1 && i < |s| && k < |s| && p(s[i]) && p(s[k])
    ensures i == k
  {
    var m := |s| - 1;
    CountZero(s[..m], p);
    assert forall h | 0 <= h < m :: s[..m][h] == s[h];
    if i < m && k < m {
      CountOne(s[..m], p, i, k);
    }
  }
}
