/** Counting the positions of a sequence that satisfy a predicate. */
module Counting {

  function Count<T>(f: T -> bool, s: seq<T>): (n: nat)
    ensures n <= |s|
  {
    if |s| == 0 then 0 else Count(f, s[..|s| - 1]) + (if f(s[|s| - 1]) then 1 else 0)
  }

  lemma {:induction false} CountUpdate<T>(f: T -> bool, s: seq<T>, t: nat, x: T)
    requires t < |s|
    ensures Count(f, s[t := x]) == Count(f, s) - (if f(s[t]) then 1 else 0) + (if f(x) then 1 else 0)
  {
    var last := |s| - 1;
    if t == last {
      assert s[t := x][..last] == s[..last];
    } else {
      assert s[t := x][..last] == s[..last][t := x];
      CountUpdate(f, s[..last], t, x);
    }
  }

  lemma {:induction false} CountZero<T>(f: T -> bool, s: seq<T>)
    ensures Count(f, s) == 0 <==> forall i | 0 <= i < |s| :: !f(s[i])
  {
    if |s| > 0 {
      var last := |s| - 1;
      CountZero(f, s[..last]);
      assert forall i | 0 <= i < last :: s[i] == s[..last][i];
    }
  }

  lemma {:induction false} CountFull<T>(f: T -> bool, s: seq<T>)
    ensures Count(f, s) == |s| <==> forall i | 0 <= i < |s| :: f(s[i])
  {
    if |s| > 0 {
      var last := |s| - 1;
      CountFull(f, s[..last]);
      assert forall i | 0 <= i < last :: s[i] == s[..last][i];
    }
  }

  /** Two different positions that satisfy `f` make the count at least two. */
  lemma {:induction false} CountTwo<T>(f: T -> bool, s: seq<T>, i: nat, j: nat, blank: T)
    requires i < |s| && j < |s| && i != j && f(s[i]) && f(s[j]) && !f(blank)
    ensures Count(f, s) >= 2
  {
    CountUpdate(f, s, i, blank);
    CountUpdate(f, s[i := blank], j, blank);
  }

  /** A count of at least two leaves a witness different from any given position. */
  lemma {:induction false} OtherWitness<T>(f: T -> bool, s: seq<T>, i: nat, blank: T) returns (j: nat)
    requires i < |s| && Count(f, s) >= 2 && !f(blank)
    ensures j < |s| && j != i && f(s[j])
  {
    CountUpdate(f, s, i, blank);
    CountZero(f, s[i := blank]);
    j :| 0 <= j < |s| && f(s[i := blank][j]);
  }
}
