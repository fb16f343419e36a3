/** Two equations about sequences that the solver needs spelled out. */
module Sequences {

  lemma {:induction false} Empty<T>(r: seq<T>)
    ensures [] + r == r
  {
  }

  lemma {:induction false} First<T>(a: seq<T>, r: seq<T>)
    requires |a| > 0
    ensures a + r == [a[0]] + (a[1..] + r) && (a + r)[1..] == a[1..] + r
  {
  }
}
