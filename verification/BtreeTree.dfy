/**
 The B-link tree: pages linked to the right on every level, interior entries leading down. Every
 page owns the keys above `lo` up to its fence `hi`. An entry may lead to a page left of the
 one that owns the key; the search then slides right, so it works in the middle of a split.
 */
module BtreeTree {
  import opened BtreePages

  const PAGE_SIZE := 8192 // 2^pagebits; leaves are as large

  datatype Tree = Tree(root: nat, pages: map<nat, Page>)

  datatype Ranges = Ranges(lo: map<nat, Bound>, hi: map<nat, Bound>)

  function Es(t: Tree, n: nat): seq<Entry> { if n in t.pages then Entries(t.pages[n]) else [] }

  function LvlOf(t: Tree, n: nat): int { if n in t.pages then t.pages[n].lvl else -1 }

  ghost predicate Increasing(lo: Bound, es: seq<Entry>) {
    |es| > 0 && Lt(lo, es[0].key) && forall i, j | 0 <= i < j < |es| :: Lt(es[i].key, es[j].key)
  }

  /** The bound below entry `i`. */
  function Prev(lo: Bound, es: seq<Entry>, i: nat): Bound
    requires i < |es|
  {
    if i == 0 then lo else es[i - 1].key
  }

  ghost predicate Ranged(g: Ranges, n: nat) { n in g.lo && n in g.hi }

  /** A page next to the right goes on where this one ends. */
  ghost predicate RightGood(t: Tree, g: Ranges, n: nat)
    requires n in t.pages && Ranged(g, n)
  {
    var r := t.pages[n].right;
    if r == 0 then g.hi[n] == High
    else r in t.pages && Ranged(g, r) && LvlOf(t, r) == LvlOf(t, n) && g.lo[r] == g.hi[n]
  }

  /** A page on its own: its entries lie in its range, the last one is its fence. */
  ghost predicate PageGood(p: Page, lo: Bound, hi: Bound) {
    PageOk(p, PAGE_SIZE) && var es := Entries(p); Increasing(lo, es) && es[|es| - 1].key == hi
  }

  ghost predicate NodeGood(t: Tree, g: Ranges, n: nat)
    requires n in t.pages
  {
    n != 0 && Ranged(g, n) && PageGood(t.pages[n], g.lo[n], g.hi[n]) && RightGood(t, g, n)
  }

  /** An entry leads to a page that begins at or below the keys of the entry, one level down. */
  ghost predicate ChildGood(t: Tree, g: Ranges, n: nat, i: nat)
    requires n in t.pages && Ranged(g, n) && i < |Es(t, n)|
  {
    var c := Es(t, n)[i].cell.child;
    c in t.pages && Ranged(g, c) && LvlOf(t, c) + 1 == LvlOf(t, n) && Le(g.lo[c], Prev(g.lo[n], Es(t, n), i))
  }

  ghost predicate Apart(g: Ranges, n: nat, m: nat)
    requires Ranged(g, n) && Ranged(g, m)
  {
    Le(g.hi[n], g.lo[m]) || Le(g.hi[m], g.lo[n])
  }

  ghost predicate RootGood(t: Tree, g: Ranges) {
    && t.root in t.pages && Ranged(g, t.root) && g.lo[t.root] == Low && t.pages[t.root].right == 0
    && LvlOf(t, t.root) > 0 && forall n | n in t.pages && n != t.root :: LvlOf(t, n) < LvlOf(t, t.root)
  }

  ghost predicate NodesGood(t: Tree, g: Ranges) {
    forall n | n in t.pages :: NodeGood(t, g, n)
  }

  ghost predicate ChildrenGood(t: Tree, g: Ranges)
    requires NodesGood(t, g)
  {
    forall n, i: nat | n in t.pages && LvlOf(t, n) > 0 && i < |Es(t, n)| :: NodeGood(t, g, n) && ChildGood(t, g, n, i)
  }

  ghost predicate RangesApart(t: Tree, g: Ranges)
    requires NodesGood(t, g)
  {
    forall n, m | n in t.pages && m in t.pages && n != m && LvlOf(t, n) == LvlOf(t, m) ::
      NodeGood(t, g, n) && NodeGood(t, g, m) && Apart(g, n, m)
  }

  ghost predicate Sound(t: Tree, g: Ranges) {
    NodesGood(t, g) && RootGood(t, g) && ChildrenGood(t, g) && RangesApart(t, g)
  }

  // ---------- owners ----------

  /** The page is the one on its level to hold the key. */
  ghost predicate Owns(t: Tree, g: Ranges, n: nat, key: int) {
    n in t.pages && Ranged(g, n) && Lt(g.lo[n], Fin(key)) && Le(Fin(key), g.hi[n])
  }

  lemma {:induction false} OwnerOnce(t: Tree, g: Ranges, n: nat, m: nat, key: int)
    requires Sound(t, g) && Owns(t, g, n, key) && Owns(t, g, m, key) && LvlOf(t, n) == LvlOf(t, m)
    ensures n == m
  {
    hide Sound, Le, Lt;
    if n != m {
      PagesApart(t, g, n, m);
      ApartOwners(g, n, m, key);
    }
  }

  lemma {:induction false} ApartOwners(g: Ranges, n: nat, m: nat, key: int)
    requires Ranged(g, n) && Ranged(g, m) && Apart(g, n, m)
    ensures !(Lt(g.lo[n], Fin(key)) && Le(Fin(key), g.hi[n]) && Lt(g.lo[m], Fin(key)) && Le(Fin(key), g.hi[m]))
  {
  }

  lemma {:induction false} PagesApart(t: Tree, g: Ranges, n: nat, m: nat)
    requires Sound(t, g) && n in t.pages && m in t.pages && n != m && LvlOf(t, n) == LvlOf(t, m)
    ensures Ranged(g, n) && Ranged(g, m) && Apart(g, n, m)
  {
    hide PageGood, RightGood, ChildGood, Apart;
    assert NodeGood(t, g, n) && NodeGood(t, g, m);
  }

  lemma {:induction false} GoodNode(t: Tree, g: Ranges, n: nat)
    requires Sound(t, g) && n in t.pages
    ensures NodeGood(t, g, n)
  {
  }

  lemma {:induction false} GoodChild(t: Tree, g: Ranges, n: nat, i: nat)
    requires Sound(t, g) && n in t.pages && LvlOf(t, n) > 0 && i < |Es(t, n)|
    ensures NodeGood(t, g, n) && ChildGood(t, g, n, i)
  {
  }

  lemma {:induction false} EntryAbove(lo: Bound, es: seq<Entry>, i: nat)
    requires Increasing(lo, es) && i < |es|
    ensures Lt(lo, es[i].key) && Lt(Prev(lo, es, i), es[i].key) && Le(lo, Prev(lo, es, i))
    ensures Le(es[i].key, es[|es| - 1].key)
  {
    if i > 0 { assert Lt(es[0].key, es[i].key) && Lt(es[i - 1].key, es[i].key); }
    if i > 1 { assert Lt(es[0].key, es[i - 1].key); }
    if i < |es| - 1 { assert Lt(es[i].key, es[|es| - 1].key); }
  }

  /** The entry found for a key bounds it from above, the one before from below. */
  lemma {:induction false} FoundBounds(lo: Bound, es: seq<Entry>, n: nat, key: int)
    requires Increasing(lo, es) && Splits(es, n, key) && n < |es| && Lt(lo, Fin(key))
    ensures Lt(Prev(lo, es, n), Fin(key)) && Le(Fin(key), es[n].key)
  {
  }

  // ---------- the search ----------

  /** The pages that begin further right: they bound the slide to the right. */
  ghost function Later(t: Tree, g: Ranges, n: nat): set<nat>
    requires Ranged(g, n)
  {
    set m | m in t.pages && m in g.lo && Lt(g.lo[n], g.lo[m])
  }

  lemma {:induction false} LaterShrinks(t: Tree, g: Ranges, n: nat, r: nat)
    requires Ranged(g, n) && Ranged(g, r) && r in t.pages && Lt(g.lo[n], g.lo[r])
    ensures Later(t, g, r) < Later(t, g, n)
  {
    assert r in Later(t, g, n) && r !in Later(t, g, r);
  }

  /** The search slides right when the key is above the fence of the page. */
  lemma {:induction false} SlideRight(t: Tree, g: Ranges, n: nat, key: int)
    requires Sound(t, g) && n in t.pages && Ranged(g, n) && Lt(g.lo[n], Fin(key))
    requires AllBelowKey(t.pages[n], key)
    ensures var r := t.pages[n].right;
            && r != 0 && r in t.pages && Ranged(g, r) && LvlOf(t, r) == LvlOf(t, n)
            && Lt(g.lo[r], Fin(key)) && Later(t, g, r) < Later(t, g, n)
  {
    hide Entries, PageOk, Sound;
    GoodNode(t, g, n);
    var p := t.pages[n];
    PageParts(p, PAGE_SIZE);
    EntriesSorted(p);
    NotFound(p, key);
    EntryAbove(g.lo[n], Entries(p), |Entries(p)| - 1);
    LaterShrinks(t, g, n, p.right);
  }

  /** The key lies in the range of the page whose search finds a slot. */
  lemma {:induction false} FoundOwner(t: Tree, g: Ranges, n: nat, key: int, slot: nat)
    requires Sound(t, g) && n in t.pages && Ranged(g, n) && Lt(g.lo[n], Fin(key))
    requires FirstAbove(t.pages[n], slot, key)
    ensures Owns(t, g, n, key)
    ensures var i := |EntriesTo(t.pages[n], slot - 1)|;
            && i < |Es(t, n)| && Splits(Es(t, n), i, key)
            && Lt(Prev(g.lo[n], Es(t, n), i), Fin(key)) && Le(Fin(key), Es(t, n)[i].key)
  {
    hide Entries, EntriesTo, PageOk, Sound;
    GoodNode(t, g, n);
    var p := t.pages[n];
    PageParts(p, PAGE_SIZE);
    FoundSplits(p, slot, key);
    var i := |EntriesTo(p, slot - 1)|;
    FoundBounds(g.lo[n], Entries(p), i, key);
    EntryAbove(g.lo[n], Entries(p), i);
  }

  /** Down from an entry: the child begins below the key. */
  lemma {:induction false} StepDown(t: Tree, g: Ranges, n: nat, key: int, i: nat)
    requires Sound(t, g) && n in t.pages && LvlOf(t, n) > 0 && i < |Es(t, n)| && Ranged(g, n)
    requires Lt(Prev(g.lo[n], Es(t, n), i), Fin(key))
    ensures var c := Es(t, n)[i].cell.child;
            c in t.pages && Ranged(g, c) && LvlOf(t, c) == LvlOf(t, n) - 1 && Lt(g.lo[c], Fin(key))
  {
    GoodChild(t, g, n, i);
  }

  lemma {:induction false} RootStart(t: Tree, g: Ranges, key: int)
    requires Sound(t, g)
    ensures t.root in t.pages && Ranged(g, t.root) && Lt(g.lo[t.root], Fin(key))
  {
  }

  /** The search for the key stands at page `n`, on its way to level `lvl`. */
  ghost predicate Searching(t: Tree, g: Ranges, n: nat, key: int, lvl: nat) {
    n in t.pages && Ranged(g, n) && Lt(g.lo[n], Fin(key)) && lvl <= LvlOf(t, n)
  }

  /** The slot is the first of its page at or above the key. */
  ghost predicate FirstAbove(p: Page, slot: nat, key: int) {
    0 < slot <= |p.slots| && Le(Fin(key), KeyAt(p, slot - 1)) && forall i | 0 <= i < slot - 1 :: Lt(KeyAt(p, i), Fin(key))
  }

  ghost predicate AllBelowKey(p: Page, key: int) {
    forall i | 0 <= i < |p.slots| :: Lt(KeyAt(p, i), Fin(key))
  }

  lemma {:induction false} SearchReady(t: Tree, g: Ranges, n: nat)
    requires Sound(t, g) && n in t.pages
    ensures PageOk(t.pages[n], PAGE_SIZE) && SlotsOk(t.pages[n]) && SortedPage(t.pages[n])
  {
    hide Sound, SlotsOk, SortedPage, SpaceOk, Entries;
    GoodNode(t, g, n);
  }

  method SearchPage(t: Tree, ghost g: Ranges, n: nat, key: int) returns (slot: nat)
    requires Sound(t, g) && n in t.pages
    ensures if slot == 0 then AllBelowKey(t.pages[n], key) else FirstAbove(t.pages[n], slot, key)
  {
    hide Sound, SortedPage, SlotsOk, KeyAt, Entries;
    GoodNode(t, g, n);
    slot := FindSlot(t.pages[n], key, false);
  }

  /** From the slot found to the child page of its entry. */
  method ChildAt(t: Tree, ghost g: Ranges, n: nat, slot: nat, key: int, ghost lvl: nat) returns (c: nat)
    requires Sound(t, g) && Searching(t, g, n, key, lvl) && FirstAbove(t.pages[n], slot, key) && lvl < LvlOf(t, n)
    ensures Searching(t, g, c, key, lvl) && LvlOf(t, c) < LvlOf(t, n)
  {
    hide Sound, SortedPage, SlotsOk, KeyAt, Entries, EntriesTo;
    FoundOwner(t, g, n, key, slot);
    GoodNode(t, g, n);
    var p := t.pages[n];
    PageParts(p, PAGE_SIZE);
    var live := NextLive(p, slot);
    LiveEntry(p, slot, live);
    StepDown(t, g, n, key, |EntriesTo(p, slot - 1)|);
    c := CellAt(p, live - 1).child;
  }

  /**
   btreeLoadPage: descends by fences and slides right to the page of level `lvl` that owns the
   key, and finds the slot there.
   */
  method LoadPage(t: Tree, ghost g: Ranges, key: int, lvl: nat) returns (n: nat, slot: nat)
    requires Sound(t, g) && lvl <= LvlOf(t, t.root)
    ensures Owns(t, g, n, key) && LvlOf(t, n) == lvl && FirstAbove(t.pages[n], slot, key)
  {
    RootStart(t, g, key);
    n := t.root;
    while true
      invariant Searching(t, g, n, key, lvl)
      decreases LvlOf(t, n), Later(t, g, n)
    {
      hide Sound, FirstAbove, AllBelowKey, Later, Entries, EntriesTo;
      var p := t.pages[n];
      slot := SearchPage(t, g, n, key);
      if slot == 0 {
        SlideRight(t, g, n, key);
        n := p.right;
      } else if p.lvl == lvl {
        FoundOwner(t, g, n, key, slot);
        return;
      } else {
        n := ChildAt(t, g, n, slot, key, lvl);
      }
    }
  }
}
