/** Array.prototype.sort: in-place quicksort whose inner scans have no bounds of their own. */
module ArraySort {

  /** A strict weak order: what `<` and `>` have to be for the sort to work. */
  ghost predicate StrictWeak<T(!new)>(lt: (T, T) -> bool) {
    && (forall x :: !lt(x, x))
    && (forall x, y, z :: lt(x, y) && lt(y, z) ==> lt(x, z))
    && (forall x, y, z :: !lt(x, y) && !lt(y, z) ==> !lt(x, z))
  }

  ghost predicate Sorted<T>(lt: (T, T) -> bool, s: seq<T>) {
    forall i, j | 0 <= i < j < |s| :: !lt(s[j], s[i])
  }

  /** Same elements, and nothing moved outside of `lo` up to `hi`. */
  ghost predicate Shuffled<T>(before: seq<T>, after: seq<T>, lo: nat, hi: nat) {
    && |before| == |after| && lo <= hi <= |before| && multiset(before[lo..hi]) == multiset(after[lo..hi])
    && before[..lo] == after[..lo] && before[hi..] == after[hi..]
  }

  lemma {:induction false} ShuffledTrans<T>(a: seq<T>, b: seq<T>, c: seq<T>, lo: nat, hi: nat)
    requires Shuffled(a, b, lo, hi) && Shuffled(b, c, lo, hi)
    ensures Shuffled(a, c, lo, hi)
  {
  }

  /** A shuffle of a part is a shuffle of the whole. */
  lemma {:induction false} ShuffledWider<T>(a: seq<T>, b: seq<T>, lo: nat, hi: nat, lo': nat, hi': nat)
    requires Shuffled(a, b, lo, hi) && lo' <= lo && hi <= hi' <= |a|
    ensures Shuffled(a, b, lo', hi')
  {
    assert a[lo'..hi'] == a[lo'..lo] + a[lo..hi] + a[hi..hi'];
    assert b[lo'..hi'] == b[lo'..lo] + b[lo..hi] + b[hi..hi'];
    assert a[lo'..lo] == a[..lo][lo'..] && b[lo'..lo] == b[..lo][lo'..];
    assert a[hi..hi'] == a[hi..][..hi' - hi] && b[hi..hi'] == b[hi..][..hi' - hi];
    assert a[..lo'] == a[..lo][..lo'] && b[..lo'] == b[..lo][..lo'];
    assert a[hi'..] == a[hi..][hi' - hi..] && b[hi'..] == b[hi..][hi' - hi..];
  }

  lemma {:induction false} Exchange<T>(s: seq<T>, i: nat, j: nat)
    requires i < |s| && j < |s|
    ensures multiset(s[i := s[j]][j := s[i]]) == multiset(s)
  {
  }

  /** Exchanging two elements inside the range is a shuffle. */
  lemma {:induction false} SwapShuffles<T>(before: seq<T>, after: seq<T>, lo: nat, hi: nat, i: nat, j: nat)
    requires lo <= i < hi <= |before| && lo <= j < hi && after == before[i := before[j]][j := before[i]]
    ensures Shuffled(before, after, lo, hi)
  {
    var s := before[lo..hi];
    Exchange(s, i - lo, j - lo);
    assert after[lo..hi] == s[i - lo := s[j - lo]][j - lo := s[i - lo]];
  }

  /** An element of the range is somewhere in the range before the shuffle. */
  lemma {:induction false} ShuffledFrom<T>(before: seq<T>, after: seq<T>, lo: nat, hi: nat, k: nat) returns (m: nat)
    requires Shuffled(before, after, lo, hi) && lo <= k < hi
    ensures lo <= m < hi && before[m] == after[k]
  {
    var x := after[k];
    assert after[lo..hi][k - lo] == x;
    assert x in multiset(after[lo..hi]);
    assert x in before[lo..hi];
    var n :| 0 <= n < hi - lo && before[lo..hi][n] == x;
    m := lo + n;
  }

  method Swap<T>(a: array<T>, i: nat, j: nat)
    requires i < a.Length && j < a.Length
    modifies a
    ensures a[..] == old(a[..])[i := old(a[j])][j := old(a[i])]
  {
    var t := a[i];
    a[i] := a[j];
    a[j] := t;
  }

  /**
   The state of partition's loop: what is passed on the left is not above the pivot value, what
   is passed on the right not below it, and on both sides something is left to stop the scans.
   */
  ghost predicate Scanned<T>(lt: (T, T) -> bool, s: seq<T>, left: nat, right: nat, i: int, j: int, pv: T) {
    && right < |s| && left <= i <= right && left - 1 <= j <= right
    && (forall k | left <= k < i :: !lt(pv, s[k])) && (forall k | j < k <= right :: !lt(s[k], pv))
    && ((i == left && j == right && s[(left + right) / 2] == pv) || (left < i && j < right))
  }

  /** `while (array[i] < pv) i++`: stopped by an element that is not below the pivot value. */
  method ScanUp<T>(lt: (T, T) -> bool, a: array<T>, from: nat, pv: T, ghost stop: nat) returns (i: nat)
    requires from <= stop < a.Length && !lt(a[stop], pv)
    ensures from <= i <= stop && !lt(a[i], pv) && forall k | from <= k < i :: lt(a[k], pv)
  {
    i := from;
    while lt(a[i], pv)
      invariant from <= i <= stop && forall k | from <= k < i :: lt(a[k], pv)
      decreases stop - i
    {
      i := i + 1;
    }
  }

  /** `while (array[j] > pv) j--`: stopped by an element that is not above the pivot value. */
  method ScanDown<T>(lt: (T, T) -> bool, a: array<T>, from: nat, pv: T, ghost stop: nat) returns (j: nat)
    requires stop <= from < a.Length && !lt(pv, a[stop])
    ensures stop <= j <= from && !lt(pv, a[j]) && forall k | j < k <= from :: lt(pv, a[k])
  {
    j := from;
    while lt(pv, a[j])
      invariant stop <= j <= from && forall k | j < k <= from :: lt(pv, a[k])
      decreases j - stop
    {
      j := j - 1;
    }
  }

  /** Where the scan to the right stops at the latest. */
  ghost function StopUp(left: nat, right: nat, i: nat, j: int): int {
    if j == right then (left + right) / 2 else j + 1
  }

  ghost function StopDown(left: nat, right: nat, i: nat, j: int): int {
    if i == left then (left + right) / 2 else i - 1
  }

  lemma {:induction false} Stops<T(!new)>(lt: (T, T) -> bool, s: seq<T>, left: nat, right: nat, i: nat, j: int, pv: T)
    requires (forall x :: !lt(x, x)) && left < right && Scanned(lt, s, left, right, i, j, pv) && i <= j
    ensures var u, d := StopUp(left, right, i, j), StopDown(left, right, i, j);
            && i <= u <= right && !lt(s[u], pv) && left <= d <= j && !lt(pv, s[d])
            && (j == right ==> u < right)
  {
  }

  /** The scans stop within the range, and exchanging what they found goes on. */
  lemma {:induction false} SwapScanned<T(!new)>(
      lt: (T, T) -> bool, s: seq<T>, left: nat, right: nat, i0: nat, j0: int, i: nat, j: nat, pv: T)
    requires (forall x, y :: lt(x, y) ==> !lt(y, x)) && left < right && Scanned(lt, s, left, right, i0, j0, pv) && i0 <= j0
    requires i0 <= i <= StopUp(left, right, i0, j0) && StopDown(left, right, i0, j0) <= j <= j0 && i <= j
    requires !lt(s[i], pv) && !lt(pv, s[j])
    requires (forall k | i0 <= k < i :: lt(s[k], pv)) && forall k | j < k <= j0 :: lt(pv, s[k])
    ensures Scanned(lt, s[i := s[j]][j := s[i]], left, right, i + 1, j - 1, pv) && i + 1 <= right && left <= j <= right
  {
  }

  lemma {:induction false} CrossScanned<T(!new)>(
      lt: (T, T) -> bool, s: seq<T>, left: nat, right: nat, i0: nat, j0: int, i: nat, j: nat, pv: T)
    requires (forall x, y :: lt(x, y) ==> !lt(y, x)) && left < right && Scanned(lt, s, left, right, i0, j0, pv) && i0 <= j0
    requires i0 <= i <= StopUp(left, right, i0, j0) && StopDown(left, right, i0, j0) <= j <= j0 && j < i
    requires (forall k | i0 <= k < i :: lt(s[k], pv)) && forall k | j < k <= j0 :: lt(pv, s[k])
    ensures Scanned(lt, s, left, right, i, j, pv) && i <= right && left <= j <= right
  {
  }

  lemma {:induction false} Asymmetric<T(!new)>(lt: (T, T) -> bool)
    requires StrictWeak(lt)
    ensures (forall x :: !lt(x, x)) && forall x, y :: lt(x, y) ==> !lt(y, x)
  {
  }

  /** One turn of partition's loop: both scans, and the exchange unless they passed each other. */
  method ScanAndSwap<T(!new)>(lt: (T, T) -> bool, a: array<T>, left: nat, right: nat, i0: nat, j0: nat, pv: T)
    returns (i: nat, j: int)
    requires (forall x :: !lt(x, x)) && forall x, y :: lt(x, y) ==> !lt(y, x)
    requires left < right < a.Length && Scanned(lt, a[..], left, right, i0, j0, pv) && left <= i0 <= j0 <= right
    modifies a
    ensures Scanned(lt, a[..], left, right, i, j, pv) && left <= i <= right && left - 1 <= j <= right
    ensures Shuffled(old(a[..]), a[..], left, right + 1) && j - i < j0 - i0
  {
    hide Shuffled, Scanned, StopUp, StopDown;
    ghost var before := a[..];
    Stops(lt, before, left, right, i0, j0, pv);
    ghost var up, down := StopUp(left, right, i0, j0), StopDown(left, right, i0, j0);
    i := ScanUp(lt, a, i0, pv, up);
    j := ScanDown(lt, a, j0, pv, down);
    if i <= j {
      Swap(a, i, j);
      SwapScanned(lt, before, left, right, i0, j0, i, j, pv);
      SwapShuffles(before, a[..], left, right + 1, i, j);
      i, j := i + 1, j - 1;
    } else {
      CrossScanned(lt, before, left, right, i0, j0, i, j, pv);
      ShuffledSelf(a[..], left, right + 1);
    }
  }

  /** partition: the split point lies inside, and no element left of it is above one to the right. */
  method Partition<T(!new)>(lt: (T, T) -> bool, a: array<T>, left: nat, right: nat) returns (i: nat, ghost pv: T)
    requires StrictWeak(lt) && left < right < a.Length
    modifies a
    ensures Shuffled(old(a[..]), a[..], left, right + 1)
    ensures left < i <= right
    ensures forall k | left <= k < i :: !lt(pv, a[k])
    ensures forall k | i <= k <= right :: !lt(a[k], pv)
  {
    hide StrictWeak, Shuffled, Scanned, StopUp, StopDown;
    Asymmetric(lt);
    var pivot := a[(right + left) / 2];
    pv := pivot;
    var j: int := right;
    i := left;
    ShuffledSelf(a[..], left, right + 1);
    StartScan(lt, a[..], left, right);
    while i <= j
      invariant Scanned(lt, a[..], left, right, i, j, pivot) && left <= i <= right && left - 1 <= j <= right
      invariant Shuffled(old(a[..]), a[..], left, right + 1)
      decreases j - i
    {
      ghost var before := a[..];
      i, j := ScanAndSwap(lt, a, left, right, i, j, pivot);
      ShuffledTrans(old(a[..]), before, a[..], left, right + 1);
    }
    SplitPoint(lt, a[..], left, right, i, j, pivot);
  }

  lemma {:induction false} StartScan<T>(lt: (T, T) -> bool, s: seq<T>, left: nat, right: nat)
    requires left < right < |s|
    ensures Scanned(lt, s, left, right, left, right, s[(left + right) / 2])
  {
  }

  /** When the scans have passed each other the split point lies inside. */
  lemma {:induction false} SplitPoint<T>(lt: (T, T) -> bool, s: seq<T>, left: nat, right: nat, i: nat, j: int, pv: T)
    requires left < right && Scanned(lt, s, left, right, i, j, pv) && i > j
    ensures left < i <= right < |s|
    ensures forall k | left <= k < i :: !lt(pv, s[k])
    ensures forall k | i <= k <= right :: !lt(s[k], pv)
  {
  }

  lemma {:induction false} ShuffledSize<T>(a: seq<T>, b: seq<T>, lo: nat, hi: nat)
    requires Shuffled(a, b, lo, hi)
    ensures |a| == |b| && lo <= hi <= |a|
  {
  }

  lemma {:induction false} ShuffledSelf<T>(s: seq<T>, lo: nat, hi: nat)
    requires lo <= hi <= |s|
    ensures Shuffled(s, s, lo, hi)
  {
  }

  /** qsort: sorts the range and leaves the rest of the array alone. */
  method QSort<T(!new)>(lt: (T, T) -> bool, a: array<T>, left: nat, right: nat)
    requires StrictWeak(lt) && left <= right < a.Length
    modifies a
    ensures Shuffled(old(a[..]), a[..], left, right + 1)
    ensures Sorted(lt, a[left..right + 1])
    decreases right - left
  {
    if left < right {
      ghost var s0 := a[..];
      ghost var pv;
      var idx;
      idx, pv := Partition(lt, a, left, right);
      ghost var s1 := a[..];
      if left < idx - 1 {
        QSort(lt, a, left, idx - 1);
      }
      ghost var s2 := a[..];
      if idx < right {
        QSort(lt, a, idx, right);
      }
      JoinSorted(lt, s0, s1, s2, a[..], left, idx, right, pv);
    }
  }

  /** Two sorted parts on either side of the pivot value make a sorted range. */
  lemma {:induction false} JoinSorted<T(!new)>(
      lt: (T, T) -> bool, s0: seq<T>, s1: seq<T>, s2: seq<T>, s3: seq<T>, left: nat, idx: nat, right: nat, pv: T)
    requires StrictWeak(lt) && left < idx <= right < |s0|
    requires Shuffled(s0, s1, left, right + 1) && Shuffled(s1, s2, left, idx) && Shuffled(s2, s3, idx, right + 1)
    requires forall k | left <= k < idx :: !lt(pv, s1[k])
    requires forall k | idx <= k <= right :: !lt(s1[k], pv)
    requires Sorted(lt, s2[left..idx]) && Sorted(lt, s3[idx..right + 1])
    ensures Shuffled(s0, s3, left, right + 1) && Sorted(lt, s3[left..right + 1])
  {
    hide Sorted, Shuffled;
    ShuffledSize(s0, s1, left, right + 1);
    ShuffledSize(s1, s2, left, idx);
    ShuffledWider(s1, s2, left, idx, left, right + 1);
    ShuffledWider(s2, s3, idx, right + 1, left, right + 1);
    ShuffledTrans(s0, s1, s2, left, right + 1);
    ShuffledTrans(s0, s2, s3, left, right + 1);
    LowerPart(lt, s1, s2, s3, left, idx, right, pv);
    UpperPart(lt, s1, s2, s3, left, idx, right, pv);
    SortedParts(lt, s2, s3, left, idx, right, pv);
  }

  lemma {:induction false} LowerPart<T>(
      lt: (T, T) -> bool, s1: seq<T>, s2: seq<T>, s3: seq<T>, left: nat, idx: nat, right: nat, pv: T)
    requires left < idx <= right < |s1| && Shuffled(s1, s2, left, idx) && Shuffled(s2, s3, idx, right + 1)
    requires forall k | left <= k < idx :: !lt(pv, s1[k])
    ensures |s3| == |s2| && forall k | left <= k < idx :: !lt(pv, s3[k]) && s3[k] == s2[k]
  {
    forall k | left <= k < idx ensures !lt(pv, s3[k]) && s3[k] == s2[k] {
      assert s3[k] == s3[..idx][k] && s2[k] == s2[..idx][k];
      var m := ShuffledFrom(s1, s2, left, idx, k);
    }
  }

  lemma {:induction false} UpperPart<T>(
      lt: (T, T) -> bool, s1: seq<T>, s2: seq<T>, s3: seq<T>, left: nat, idx: nat, right: nat, pv: T)
    requires left < idx <= right < |s1| && Shuffled(s1, s2, left, idx) && Shuffled(s2, s3, idx, right + 1)
    requires forall k | idx <= k <= right :: !lt(s1[k], pv)
    ensures |s3| == |s1| && forall k | idx <= k <= right :: !lt(s3[k], pv)
  {
    forall k | idx <= k <= right ensures !lt(s3[k], pv) {
      var m := ShuffledFrom(s2, s3, idx, right + 1, k);
      assert s2[m] == s2[idx..][m - idx] && s1[m] == s1[idx..][m - idx];
    }
  }

  lemma {:induction false} SortedParts<T(!new)>(
      lt: (T, T) -> bool, s2: seq<T>, s3: seq<T>, left: nat, idx: nat, right: nat, pv: T)
    requires StrictWeak(lt) && right < |s3| && |s2| == |s3| && left < idx <= right
    requires Sorted(lt, s2[left..idx]) && Sorted(lt, s3[idx..right + 1])
    requires forall k | left <= k < idx :: !lt(pv, s3[k]) && s3[k] == s2[k]
    requires forall k | idx <= k <= right :: !lt(s3[k], pv)
    ensures Sorted(lt, s3[left..right + 1])
  {
    hide StrictWeak;
    var s := s3[left..right + 1];
    forall i, j | 0 <= i < j < |s| ensures !lt(s[j], s[i]) {
      SortedPair(lt, s2, s3, left, idx, right, pv, left + i, left + j);
    }
  }

  lemma {:induction false} SortedPair<T(!new)>(
      lt: (T, T) -> bool, s2: seq<T>, s3: seq<T>, left: nat, idx: nat, right: nat, pv: T, i: nat, j: nat)
    requires StrictWeak(lt) && left <= i < j <= right < |s3| && |s2| == |s3| && left < idx <= right
    requires Sorted(lt, s2[left..idx]) && Sorted(lt, s3[idx..right + 1])
    requires forall k | left <= k < idx :: !lt(pv, s3[k]) && s3[k] == s2[k]
    requires forall k | idx <= k <= right :: !lt(s3[k], pv)
    ensures !lt(s3[j], s3[i])
  {
    if j < idx {
      assert s2[left..idx][i - left] == s3[i] && s2[left..idx][j - left] == s3[j];
    } else if i >= idx {
      assert s3[idx..right + 1][i - idx] == s3[i] && s3[idx..right + 1][j - idx] == s3[j];
    } else {
      assert !lt(s3[j], pv) && !lt(pv, s3[i]);
    }
  }

  /** Array.prototype.sort: leaves the array sorted, with the elements it had. */
  method Sort<T(!new)>(lt: (T, T) -> bool, a: array<T>)
    requires StrictWeak(lt)
    modifies a
    ensures Sorted(lt, a[..]) && multiset(a[..]) == multiset(old(a[..]))
  {
    if a.Length > 1 {
      QSort(lt, a, 0, a.Length - 1);
      assert a[0..a.Length] == a[..];
      assert old(a[..])[0..a.Length] == old(a[..]);
    }
  }
}
