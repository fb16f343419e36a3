/** A pair vector as the lookup with insertion leaves it: names are unique, new pairs go last. */
module PairVectors {
  import opened Probing
  import opened MarshalImage

  /** Type tags of immediate values. */
  const VT_UNDEF := 0
  const VT_BOOL := 1
  const VT_INT := 2
  const VT_DBL := 3
  const VT_DATE := 4
  const VT_INFINITE := 5
  const VT_NAN := 8
  const VT_NULL := 9

  const UNDEF := Imm(VT_UNDEF, 0)

  predicate IsUndef(v: Value) { v.Imm? && v.tag == VT_UNDEF }

  ghost predicate DistinctNames(pairs: seq<Pair>) {
    forall i, j | 0 <= i < j < |pairs| :: pairs[i].name != pairs[j].name
  }

  /** The pairs after `name` was looked up with insertion and its slot set. */
  function Put(pairs: seq<Pair>, name: Name, v: Value): (r: seq<Pair>)
    ensures |pairs| <= |r| <= |pairs| + 1
  {
    if |pairs| == 0 then [Pair(name, v)]
    else if pairs[0].name == name then [Pair(name, v)] + pairs[1..]
    else [pairs[0]] + Put(pairs[1..], name, v)
  }

  /** The value of the pair with the given name, or undefined. */
  function Find(pairs: seq<Pair>, name: Name): (v: Value)
    ensures (forall i | 0 <= i < |pairs| :: pairs[i].name != name) ==> v == UNDEF
    ensures v != UNDEF ==> Pair(name, v) in pairs
  {
    if |pairs| == 0 then UNDEF
    else if pairs[0].name == name then pairs[0].value
    else Find(pairs[1..], name)
  }

  lemma {:induction false} PutFresh(pairs: seq<Pair>, name: Name, v: Value)
    requires forall i | 0 <= i < |pairs| :: pairs[i].name != name
    ensures Put(pairs, name, v) == pairs + [Pair(name, v)]
  {
    if |pairs| > 0 {
      PutFresh(pairs[1..], name, v);
      assert [pairs[0]] + (pairs[1..] + [Pair(name, v)]) == pairs + [Pair(name, v)];
    }
  }

  /** Setting a slot keeps the names unique and every other pair. */
  lemma {:induction false} PutKeeps(pairs: seq<Pair>, name: Name, v: Value)
    requires DistinctNames(pairs)
    ensures DistinctNames(Put(pairs, name, v))
    ensures forall p :: p in Put(pairs, name, v) <==> p == Pair(name, v) || (p in pairs && p.name != name)
  {
    if |pairs| > 0 {
      var rest := pairs[1..];
      PutKeeps(rest, name, v);
      var r := Put(pairs, name, v);
      forall p ensures p in r <==> p == Pair(name, v) || (p in pairs && p.name != name) {
        if pairs[0].name == name {
          assert p in rest ==> p.name != name by {
            if p in rest { var i :| 0 <= i < |rest| && rest[i] == p; assert pairs[i + 1] == p; }
          }
        }
        assert p in pairs <==> p == pairs[0] || p in rest;
        assert p in r <==> p == r[0] || p in r[1..];
      }
      forall i, j | 0 <= i < j < |r| ensures r[i].name != r[j].name {
        if i > 0 {
          assert r[1..][i - 1] == r[i] && r[1..][j - 1] == r[j];
        } else {
          assert r[1..][j - 1] == r[j];
          if pairs[0].name != name {
            var p := r[j];
            assert p in Put(rest, name, v);
            if p in rest { var k :| 0 <= k < |rest| && rest[k] == p; assert pairs[k + 1] == p; }
          }
        }
      }
    }
  }
}
