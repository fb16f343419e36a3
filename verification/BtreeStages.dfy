/**
 How far the entries of a level agree with the pages below it: exactly, or up to one split whose
 fences are not posted yet.
 */
module BtreeStages {
  import opened BtreePages
  import opened BtreeTree

  /**
   Tight: every entry stands for its child's range. Linked: page `p` was split, `r` holds its
   higher keys, the entries know nothing of it. Posted: the fence of `p` is in, the entry of the
   higher keys still leads to `p`.
   */
  datatype Stage = Tight | Linked(p: nat, r: nat) | Posted(p: nat, r: nat)

  ghost predicate TightEntry(g: Ranges, prev: Bound, key: Bound, c: nat) {
    Ranged(g, c) && g.lo[c] == prev && g.hi[c] == key
  }

  ghost predicate Fits(g: Ranges, prev: Bound, key: Bound, c: nat, st: Stage) {
    match st
    case Tight => TightEntry(g, prev, key, c)
    case Linked(p, r) =>
      if c == p then Ranged(g, p) && Ranged(g, r) && g.lo[p] == prev && g.hi[r] == key && g.lo[r] == g.hi[p]
      else TightEntry(g, prev, key, c)
    case Posted(p, r) =>
      TightEntry(g, prev, key, c)
      || (c == p && Ranged(g, p) && Ranged(g, r) && prev == g.lo[r] == g.hi[p] && key == g.hi[r])
  }

  predicate StagePages(t: Tree, lvl: int, st: Stage) {
    match st
    case Tight => true
    case Linked(p, r) => p != r && LvlOf(t, p) == lvl && LvlOf(t, r) == lvl
    case Posted(p, r) => p != r && LvlOf(t, p) == lvl && LvlOf(t, r) == lvl
  }

  ghost predicate EntryFits(t: Tree, g: Ranges, n: nat, i: nat, st: Stage)
    requires i < |Es(t, n)|
  {
    n in g.lo && Fits(g, Prev(g.lo[n], Es(t, n), i), Es(t, n)[i].key, Es(t, n)[i].cell.child, st)
  }

  /** All entries that lead to level `lvl`. */
  ghost predicate LevelFits(t: Tree, g: Ranges, lvl: nat, st: Stage) {
    && StagePages(t, lvl, st)
    && forall n, i: nat | n in t.pages && LvlOf(t, n) == lvl + 1 && i < |Es(t, n)| :: EntryFits(t, g, n, i, st)
  }

  // ---------- owners of bounds ----------

  /** Like Owns, for any bound: also for the fence of the rightmost page. */
  ghost predicate OwnsBound(t: Tree, g: Ranges, n: nat, b: Bound) {
    n in t.pages && Ranged(g, n) && Lt(g.lo[n], b) && Le(b, g.hi[n])
  }

  lemma {:induction false} BoundOwnerOnce(t: Tree, g: Ranges, n: nat, m: nat, b: Bound)
    requires Sound(t, g) && OwnsBound(t, g, n, b) && OwnsBound(t, g, m, b) && LvlOf(t, n) == LvlOf(t, m)
    ensures n == m
  {
    hide Sound;
    if n != m { PagesApart(t, g, n, m); }
  }

  ghost predicate EntryOwns(t: Tree, g: Ranges, n: nat, i: nat, b: Bound) {
    n in t.pages && Ranged(g, n) && i < |Es(t, n)| && Lt(Prev(g.lo[n], Es(t, n), i), b) && Le(b, Es(t, n)[i].key)
  }

  lemma {:induction false} EntryInRange(t: Tree, g: Ranges, n: nat, i: nat, b: Bound)
    requires Sound(t, g) && EntryOwns(t, g, n, i, b)
    ensures OwnsBound(t, g, n, b)
  {
    hide Sound, Es, PageOk, RightGood, Increasing, Le, Lt;
    GoodNode(t, g, n);
    GoodEntries(t, g, n);
    EntryAbove(g.lo[n], Es(t, n), i);
    InRange(g.lo[n], Prev(g.lo[n], Es(t, n), i), b, Es(t, n)[i].key, g.hi[n]);
  }

  lemma {:induction false} InRange(lo: Bound, prev: Bound, b: Bound, key: Bound, hi: Bound)
    requires Le(lo, prev) && Lt(prev, b) && Le(b, key) && Le(key, hi)
    ensures Lt(lo, b) && Le(b, hi)
  {
  }

  lemma {:induction false} GoodEntries(t: Tree, g: Ranges, n: nat)
    requires n in t.pages && NodeGood(t, g, n)
    ensures Ranged(g, n) && Increasing(g.lo[n], Es(t, n)) && Es(t, n)[|Es(t, n)| - 1].key == g.hi[n]
  {
    hide Increasing, PageOk, Entries;
  }

  lemma {:induction false} EntryIndexOnce(lo: Bound, es: seq<Entry>, i: nat, j: nat, b: Bound)
    requires Increasing(lo, es) && i < |es| && j < |es|
    requires Lt(Prev(lo, es, i), b) && Le(b, es[i].key) && Lt(Prev(lo, es, j), b) && Le(b, es[j].key)
    ensures i == j
  {
    if i < j { LaterEntry(lo, es, i, j); }
    if j < i { LaterEntry(lo, es, j, i); }
  }

  lemma {:induction false} LaterEntry(lo: Bound, es: seq<Entry>, i: nat, j: nat)
    requires Increasing(lo, es) && i < j < |es|
    ensures Le(es[i].key, Prev(lo, es, j))
  {
    if i < j - 1 { assert Lt(es[i].key, es[j - 1].key); }
  }

  /** One entry of a level is responsible for a key. */
  lemma {:induction false} EntryOnce(t: Tree, g: Ranges, n: nat, i: nat, m: nat, j: nat, b: Bound)
    requires Sound(t, g) && EntryOwns(t, g, n, i, b) && EntryOwns(t, g, m, j, b) && LvlOf(t, n) == LvlOf(t, m)
    ensures n == m && i == j
  {
    hide Sound, Entries, PageOk, Increasing, Prev;
    EntryInRange(t, g, n, i, b);
    EntryInRange(t, g, m, j, b);
    BoundOwnerOnce(t, g, n, m, b);
    GoodNode(t, g, n);
    EntryIndexOnce(g.lo[n], Es(t, n), i, j, b);
  }

  // ---------- the cells on a level ----------

  ghost predicate HasCell(es: seq<Entry>, key: Bound, len: nat) {
    exists i: nat :: i < |es| && es[i].key == key && es[i].cell.len == len
  }

  ghost predicate HeldBy(t: Tree, n: nat, lvl: nat, key: Bound, len: nat) {
    n in t.pages && LvlOf(t, n) == lvl && HasCell(Es(t, n), key, len)
  }

  /** A key of that many bytes stands on the level. */
  ghost predicate Holds(t: Tree, lvl: nat, key: Bound, len: nat) { exists n: nat :: HeldBy(t, n, lvl, key, len) }

  /** The key stands on a leaf. */
  ghost predicate Stored(t: Tree, key: int) { exists len: nat :: Holds(t, 0, Fin(key), len) }

  /** The levels up to `lvl` hold the same keys, with the same lengths. */
  ghost predicate SameCells(t: Tree, t': Tree, lvl: nat) {
    forall k: nat, key: Bound, len: nat | k <= lvl :: Holds(t', k, key, len) <==> Holds(t, k, key, len)
  }

  /** The level holds one more key, of `len` bytes. */
  ghost predicate OneCellMore(t: Tree, t': Tree, lvl: nat, key: int, len: nat) {
    forall b: Bound, n: nat :: Holds(t', lvl, b, n) <==> Holds(t, lvl, b, n) || (b == Fin(key) && n == len)
  }

  /** A key stands on a level once, with one length. */
  lemma {:induction false} HeldOnce(t: Tree, g: Ranges, lvl: nat, key: Bound, m: nat, n: nat)
    requires Sound(t, g) && Holds(t, lvl, key, m) && Holds(t, lvl, key, n)
    ensures m == n
  {
    hide Sound, Es;
    var x: nat :| HeldBy(t, x, lvl, key, m);
    var y: nat :| HeldBy(t, y, lvl, key, n);
    var i: nat :| i < |Es(t, x)| && Es(t, x)[i].key == key && Es(t, x)[i].cell.len == m;
    var j: nat :| j < |Es(t, y)| && Es(t, y)[j].key == key && Es(t, y)[j].cell.len == n;
    OwnKey(t, g, x, i);
    OwnKey(t, g, y, j);
    EntryOnce(t, g, x, i, y, j, key);
  }

  /** An entry owns its own key. */
  lemma {:induction false} OwnKey(t: Tree, g: Ranges, n: nat, i: nat)
    requires Sound(t, g) && n in t.pages && i < |Es(t, n)|
    ensures EntryOwns(t, g, n, i, Es(t, n)[i].key)
  {
    hide Sound, Es, PageOk, RightGood, Increasing;
    GoodNode(t, g, n);
    GoodEntries(t, g, n);
    EntryAbove(g.lo[n], Es(t, n), i);
    BoundSelf(Es(t, n)[i].key);
  }

  lemma {:induction false} BoundSelf(b: Bound)
    ensures Le(b, b)
  {
  }

  lemma {:induction false} CellsConcat(a: seq<Entry>, b: seq<Entry>, key: Bound, len: nat)
    ensures HasCell(a + b, key, len) <==> HasCell(a, key, len) || HasCell(b, key, len)
  {
    if HasCell(a, key, len) {
      var i: nat :| i < |a| && a[i].key == key && a[i].cell.len == len;
      assert (a + b)[i] == a[i];
    }
    if HasCell(b, key, len) {
      var i: nat :| i < |b| && b[i].key == key && b[i].cell.len == len;
      assert (a + b)[|a| + i] == b[i];
    }
  }

  lemma {:induction false} OneCell(x: Entry, key: Bound, len: nat)
    ensures HasCell([x], key, len) <==> x.key == key && x.cell.len == len
  {
    assert [x][0] == x;
  }

  lemma {:induction false} CellIn(es: seq<Entry>, i: nat)
    requires i < |es|
    ensures HasCell(es, es[i].key, es[i].cell.len)
  {
  }

  lemma {:induction false} CellsAlike(a: seq<Entry>, b: seq<Entry>, key: Bound, len: nat)
    requires |a| == |b| && forall i | 0 <= i < |a| :: a[i].key == b[i].key && a[i].cell.len == b[i].cell.len
    ensures HasCell(a, key, len) <==> HasCell(b, key, len)
  {
    if HasCell(a, key, len) {
      var i: nat :| i < |a| && a[i].key == key && a[i].cell.len == len;
      CellIn(b, i);
    }
    if HasCell(b, key, len) {
      var i: nat :| i < |b| && b[i].key == key && b[i].cell.len == len;
      CellIn(a, i);
    }
  }

  lemma {:induction false} StoredAt(t: Tree, n: nat, i: nat, key: int)
    requires n in t.pages && LvlOf(t, n) == 0 && i < |Es(t, n)| && Es(t, n)[i].key == Fin(key)
    ensures Stored(t, key)
  {
    hide Es;
    assert HeldBy(t, n, 0, Fin(key), Es(t, n)[i].cell.len);
    assert Holds(t, 0, Fin(key), Es(t, n)[i].cell.len);
  }

  lemma {:induction false} StoredWhere(t: Tree, key: int) returns (n: nat, i: nat)
    requires Stored(t, key)
    ensures n in t.pages && LvlOf(t, n) == 0 && i < |Es(t, n)| && Es(t, n)[i].key == Fin(key)
  {
    hide Es;
    var len: nat :| Holds(t, 0, Fin(key), len);
    n :| HeldBy(t, n, 0, Fin(key), len);
    i :| i < |Es(t, n)| && Es(t, n)[i].key == Fin(key) && Es(t, n)[i].cell.len == len;
  }

  lemma {:induction false} SameCellsTrans(t: Tree, t1: Tree, t2: Tree, m: nat, n: nat, lvl: nat)
    requires SameCells(t, t1, m) && SameCells(t1, t2, n) && lvl <= m && lvl <= n
    ensures SameCells(t, t2, lvl)
  {
    hide Holds;
  }

  lemma {:induction false} OneMoreAfter(t: Tree, t1: Tree, t2: Tree, lvl: nat, key: int, len: nat)
    requires SameCells(t, t1, lvl) && OneCellMore(t1, t2, lvl, key, len)
    ensures OneCellMore(t, t2, lvl, key, len)
  {
    hide Holds;
  }

  lemma {:induction false} OneMoreBefore(t: Tree, t1: Tree, t2: Tree, lvl: nat, key: int, len: nat)
    requires OneCellMore(t, t1, lvl, key, len) && SameCells(t1, t2, lvl)
    ensures OneCellMore(t, t2, lvl, key, len)
  {
    hide Holds;
  }
}
