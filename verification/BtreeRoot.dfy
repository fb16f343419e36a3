/** Splitting the root: its halves become two pages of the old level under a new root page. */
module BtreeRoot {
  import opened BtreePages
  import opened BtreeSplit
  import opened BtreeTree
  import opened BtreeStages
  import opened BtreeStep
  import opened BtreePost
  import opened BtreeLink

  /** The two entries of a new root. */
  function RootEntries(m: int, len: nat, l: nat, r: nat): seq<Entry> {
    [Entry(Fin(m), Cell(m, len, l)), Entry(High, Cell(EMPTY, 10, r))]
  }

  /** btreeSplitRoot's new root page: the left fence, and the stopper's key in ten bytes; both slots are of type indexed. */
  function RootPage(m: int, len: nat, l: nat, r: nat, lvl: nat): Page
    requires len + 10 <= PAGE_SIZE
  {
    var two := PAGE_SIZE - 10;
    var one := two - len;
    Page(lvl, 0, one, 2, [Slot(one, Indexed, false), Slot(two, Indexed, false)],
         map[two := Cell(EMPTY, 10, r)][one := Cell(m, len, l)])
  }

  lemma {:induction false} RootPageOk(m: int, len: nat, l: nat, r: nat, lvl: nat)
    requires 0 < len && HEAD + 2 * SLOT + 10 + len <= PAGE_SIZE
    ensures var p := RootPage(m, len, l, r, lvl); PageOk(p, PAGE_SIZE) && Entries(p) == RootEntries(m, len, l, r)
  {
    hide SlotsOk, SortedPage, SpaceOk, Entries;
    RootPageEntries(m, len, l, r, lvl);
    RootPageSlots(m, len, l, r, lvl);
    RootPageSpace(m, len, l, r, lvl);
  }

  lemma {:induction false} RootPageEntries(m: int, len: nat, l: nat, r: nat, lvl: nat)
    requires 0 < len && len + 10 <= PAGE_SIZE
    ensures Entries(RootPage(m, len, l, r, lvl)) == RootEntries(m, len, l, r)
  {
    var p := RootPage(m, len, l, r, lvl);
    assert EntriesTo(p, 0) == [];
    assert EntriesTo(p, 1) == [] + [Entry(KeyAt(p, 0), CellAt(p, 0))];
    assert EntriesTo(p, 2) == EntriesTo(p, 1) + [Entry(KeyAt(p, 1), CellAt(p, 1))];
  }

  lemma {:induction false} RootPageSlots(m: int, len: nat, l: nat, r: nat, lvl: nat)
    requires 0 < len && len + 10 <= PAGE_SIZE
    ensures SlotsOk(RootPage(m, len, l, r, lvl)) && SortedPage(RootPage(m, len, l, r, lvl))
  {
  }

  /** From the third level on no slot is of type stopper. */
  lemma {:induction false} RootPageMarked(m: int, len: nat, l: nat, r: nat, lvl: nat)
    requires 0 < len && len + 10 <= PAGE_SIZE && m >= 0 && lvl >= 2
    ensures Marked(RootPage(m, len, l, r, lvl))
  {
  }

  lemma {:induction false} TwoSpace(a: Entry, b: Entry)
    ensures KeySpace([a, b]) == a.cell.len + b.cell.len
  {
    assert [a][..0] == [] && KeySpace([a]) == KeySpace([a][..0]) + a.cell.len;
    assert [a, b][..1] == [a];
  }

  lemma {:induction false} RootPageSpace(m: int, len: nat, l: nat, r: nat, lvl: nat)
    requires 0 < len && HEAD + 2 * SLOT + 10 + len <= PAGE_SIZE
    ensures SpaceOk(RootPage(m, len, l, r, lvl), PAGE_SIZE)
  {
    hide Entries, KeySpace;
    RootPageEntries(m, len, l, r, lvl);
    TwoSpace(Entry(Fin(m), Cell(m, len, l)), Entry(High, Cell(EMPTY, 10, r)));
  }

  /** The root of level `lvl` split into the new pages `l` and `r`. */
  ghost predicate RootSplitOf(t: Tree, g: Ranges, t': Tree, g': Ranges, l: nat, r: nat, lp: Page, rp: Page, np: Page) {
    && t.root in t.pages && Ranged(g, t.root) && l != 0 && r != 0 && l != r && l !in t.pages && r !in t.pages
    && Halved(t.pages[t.root], lp, rp, PAGE_SIZE, r)
    && t' == Tree(t.root, t.pages[t.root := np][l := lp][r := rp])
    && g' == Ranges(g.lo[l := Low][r := Fence(lp)], g.hi[l := Fence(lp)][r := High])
    && PageOk(np, PAGE_SIZE) && np.lvl == t.pages[t.root].lvl + 1 && np.right == 0
    && |Entries(np)| == 2 && Entries(np)[0].key == Fence(lp) && Entries(np)[1].key == High
    && Entries(np)[0].cell.child == l && Entries(np)[1].cell.child == r
  }

  lemma {:induction false} SplitFacts(
      t: Tree, g: Ranges, t': Tree, g': Ranges, l: nat, r: nat, lp: Page, rp: Page, np: Page)
    requires Sound(t, g) && RootSplitOf(t, g, t', g', l, r, lp, rp, np)
    ensures var n := t.root;
            && n in t.pages && n in t'.pages && l in t'.pages && r in t'.pages && l != r && n != l && n != r
            && l !in t.pages && r !in t.pages && l != 0 && r != 0
            && t'.pages[n] == np && t'.pages[l] == lp && t'.pages[r] == rp && t'.root == n
            && LvlOf(t', l) == LvlOf(t', r) == LvlOf(t, n) > 0 && LvlOf(t', n) == LvlOf(t, n) + 1
            && Es(t', l) == Entries(lp) && Es(t', r) == Entries(rp) && Es(t, n) == Es(t', l) + Es(t', r) && Es(t', l) != []
            && Ranged(g, n) && Ranged(g', n) && Ranged(g', l) && Ranged(g', r)
            && g.lo[n] == g'.lo[n] == g'.lo[l] == Low && g.hi[n] == g'.hi[n] == g'.hi[r] == High
            && g'.hi[l] == g'.lo[r] == Fence(lp) == Es(t', l)[|Es(t', l)| - 1].key
            && lp.right == r && rp.right == 0 && np.right == 0 && PageOk(np, PAGE_SIZE)
            && |Es(t', n)| == 2 && Es(t', n)[0].key == Fence(lp) && Es(t', n)[1].key == High
            && Es(t', n)[0].cell.child == l && Es(t', n)[1].cell.child == r
  {
    hide Sound, Entries, PageOk, PageGood;
    RootAlone(t, g);
    GoodNode(t, g, t.root);
  }

  lemma {:induction false} SplitStep(
      t: Tree, g: Ranges, t': Tree, g': Ranges, l: nat, r: nat, lp: Page, rp: Page, np: Page)
    requires Sound(t, g) && RootSplitOf(t, g, t', g', l, r, lp, rp, np)
    ensures Step(t, g, t', g', {t.root, l, r})
  {
    hide Sound, Entries, PageOk, Halved, Fence;
    forall x | x in t.pages ensures Ranged(g, x) {
      GoodNode(t, g, x);
      NodeRanged(t, g, x);
    }
  }

  lemma {:induction false} SplitRootGood(
      t: Tree, g: Ranges, t': Tree, g': Ranges, l: nat, r: nat, lp: Page, rp: Page, np: Page)
    requires Sound(t, g) && RootSplitOf(t, g, t', g', l, r, lp, rp, np)
    ensures RootGood(t', g')
  {
    hide Sound, Es, RootSplitOf, PageOk, Fence, LvlOf, Step;
    SplitFacts(t, g, t', g', l, r, lp, rp, np);
    SplitStep(t, g, t', g', l, r, lp, rp, np);
    RootAlone(t, g);
    forall x | x in t'.pages && x != t'.root ensures LvlOf(t', x) < LvlOf(t', t'.root) {
      if x != l && x != r {
        StepSame(t, g, t', g', {t.root, l, r}, x);
        SameEntries(t, t', x);
      }
    }
  }

  lemma {:induction false} TwoIncreasing(es: seq<Entry>, m: Bound)
    requires |es| == 2 && es[0].key == m && es[1].key == High && Lt(Low, m) && Lt(m, High)
    ensures Increasing(Low, es) && es[|es| - 1].key == High
  {
  }

  lemma {:induction false} SplitNodes(
      t: Tree, g: Ranges, t': Tree, g': Ranges, l: nat, r: nat, lp: Page, rp: Page, np: Page)
    requires Sound(t, g) && RootSplitOf(t, g, t', g', l, r, lp, rp, np)
    ensures t.root in t'.pages && l in t'.pages && r in t'.pages
    ensures NodeGood(t', g', t.root) && NodeGood(t', g', l) && NodeGood(t', g', r) && Lt(Low, Fence(lp)) && Lt(Fence(lp), High)
  {
    hide Sound, Entries, RootSplitOf, PageOk, Fence, LvlOf, Increasing, Halved;
    SplitFacts(t, g, t', g', l, r, lp, rp, np);
    SplitHalved(t, g, t', g', l, r, lp, rp, np);
    GoodNode(t, g, t.root);
    HalvesGood(t.pages[t.root], Low, High, r, lp, rp);
    TwoIncreasing(Es(t', t.root), Fence(lp));
  }

  lemma {:induction false} SplitHalved(
      t: Tree, g: Ranges, t': Tree, g': Ranges, l: nat, r: nat, lp: Page, rp: Page, np: Page)
    requires RootSplitOf(t, g, t', g', l, r, lp, rp, np)
    ensures t.root in t.pages && Halved(t.pages[t.root], lp, rp, PAGE_SIZE, r)
  {
    hide Halved, PageOk, Entries;
  }

  lemma {:induction false} SplitEntry(
      t: Tree, g: Ranges, t': Tree, g': Ranges, l: nat, r: nat, lp: Page, rp: Page, np: Page, x: nat, i: nat)
    requires Sound(t, g) && RootSplitOf(t, g, t', g', l, r, lp, rp, np) && (x == l || x == r) && i < |Es(t', x)|
    ensures var j := OldIndex(t', l, r, x, i);
            && t.root in t.pages && Ranged(g, t.root) && Ranged(g', x) && j < |Es(t, t.root)|
            && Es(t', x)[i] == Es(t, t.root)[j]
            && Prev(g'.lo[x], Es(t', x), i) == Prev(g.lo[t.root], Es(t, t.root), j)
  {
    hide Sound, RootSplitOf, Es, Prev, PageOk, LvlOf, Fence;
    SplitFacts(t, g, t', g', l, r, lp, rp, np);
    HalfPrev(Low, Es(t, t.root), Es(t', l), Es(t', r));
  }

  lemma {:induction false} SplitChild(
      t: Tree, g: Ranges, t': Tree, g': Ranges, l: nat, r: nat, lp: Page, rp: Page, np: Page, x: nat, i: nat)
    requires Sound(t, g) && RootSplitOf(t, g, t', g', l, r, lp, rp, np) && (x == l || x == r) && i < |Es(t', x)|
    ensures x in t'.pages && ChildIs(t', g', x, i)
  {
    hide Sound, RootSplitOf, Es, Prev, NodeGood, Step, Le, Fence;
    var j := OldIndex(t', l, r, x, i);
    SplitEntry(t, g, t', g', l, r, lp, rp, np, x, i);
    SplitFacts(t, g, t', g', l, r, lp, rp, np);
    SplitStep(t, g, t', g', l, r, lp, rp, np);
    GoodChild(t, g, t.root, j);
    StepPlace(t, g, t', g', {t.root, l, r}, Es(t, t.root)[j].cell.child);
  }

  lemma {:induction false} NewRootChild(
      t: Tree, g: Ranges, t': Tree, g': Ranges, l: nat, r: nat, lp: Page, rp: Page, np: Page, i: nat)
    requires Sound(t, g) && RootSplitOf(t, g, t', g', l, r, lp, rp, np) && i < |Es(t', t.root)|
    ensures t.root in t'.pages && ChildIs(t', g', t.root, i)
  {
    hide Sound, RootSplitOf, Es, LvlOf, PageOk, Fence;
    SplitFacts(t, g, t', g', l, r, lp, rp, np);
    LeSelf(Fence(lp));
  }

  lemma {:induction false} SplitGood(
      t: Tree, g: Ranges, t': Tree, g': Ranges, l: nat, r: nat, lp: Page, rp: Page, np: Page)
    requires Sound(t, g) && RootSplitOf(t, g, t', g', l, r, lp, rp, np)
    ensures ChangedGood(t', g', {t.root, l, r})
  {
    hide Sound, RootSplitOf, Es, NodeGood, ChildGood, LvlOf, Fence;
    SplitNodes(t, g, t', g', l, r, lp, rp, np);
    forall x, i: nat | x in {t.root, l, r} && i < |Es(t', x)| ensures x in t'.pages && ChildIs(t', g', x, i) {
      if x == t.root {
        NewRootChild(t, g, t', g', l, r, lp, rp, np, i);
      } else {
        SplitChild(t, g, t', g', l, r, lp, rp, np, x, i);
      }
    }
    forall x, i: nat | x in {t.root, l, r} && i < |Es(t', x)| ensures Ranged(g', x) && ChildGood(t', g', x, i) {
      assert ChildIs(t', g', x, i);
    }
  }

  lemma {:induction false} SplitApart(
      t: Tree, g: Ranges, t': Tree, g': Ranges, l: nat, r: nat, lp: Page, rp: Page, np: Page)
    requires Sound(t, g) && RootSplitOf(t, g, t', g', l, r, lp, rp, np)
    ensures ChangedApart(t', g', {t.root, l, r})
  {
    hide Sound, RootSplitOf, Es, LvlOf, Fence, PageOk, Step;
    SplitFacts(t, g, t', g', l, r, lp, rp, np);
    SplitStep(t, g, t', g', l, r, lp, rp, np);
    RootAlone(t, g);
    LeSelf(Fence(lp));
    forall x, y | x in {t.root, l, r} && y in t'.pages && x != y && LvlOf(t', x) == LvlOf(t', y)
      ensures Ranged(g', x) && Ranged(g', y) && Apart(g', x, y)
    {
      if y !in {t.root, l, r} {
        StepSame(t, g, t', g', {t.root, l, r}, y);
        SameEntries(t, t', y);
      }
    }
  }

  /** Splitting the root keeps the tree searchable. */
  lemma {:induction false} SplitSound(
      t: Tree, g: Ranges, t': Tree, g': Ranges, l: nat, r: nat, lp: Page, rp: Page, np: Page)
    requires Sound(t, g) && RootSplitOf(t, g, t', g', l, r, lp, rp, np)
    ensures Sound(t', g')
  {
    hide *;
    SplitStep(t, g, t', g', l, r, lp, rp, np);
    SplitRootGood(t, g, t', g', l, r, lp, rp, np);
    SplitGood(t, g, t', g', l, r, lp, rp, np);
    SplitApart(t, g, t', g', l, r, lp, rp, np);
    StepSound(t, g, t', g', {t.root, l, r});
  }

  // ---------- stages ----------

  lemma {:induction false} SplitLowLevel(
      t: Tree, g: Ranges, t': Tree, g': Ranges, l: nat, r: nat, lp: Page, rp: Page, np: Page, lvl: nat)
    requires Sound(t, g) && RootSplitOf(t, g, t', g', l, r, lp, rp, np) && lvl < LvlOf(t, t.root)
    ensures SameLevel(t, g, t', g', lvl)
  {
    hide Sound, RootSplitOf, Es, Step;
    SplitStep(t, g, t', g', l, r, lp, rp, np);
    SplitFacts(t, g, t', g', l, r, lp, rp, np);
    forall x | x in t.pages && LvlOf(t, x) == lvl
      ensures x in t'.pages && LvlOf(t', x) == lvl && Ranged(g, x) && Ranged(g', x) && g'.lo[x] == g.lo[x] && g'.hi[x] == g.hi[x]
    {
      StepSame(t, g, t', g', {t.root, l, r}, x);
    }
  }

  lemma {:induction false} SplitStages(
      t: Tree, g: Ranges, t': Tree, g': Ranges, l: nat, r: nat, lp: Page, rp: Page, np: Page, lvl: nat, st: Stage)
    requires Sound(t, g) && RootSplitOf(t, g, t', g', l, r, lp, rp, np)
    requires lvl < LvlOf(t, t.root) && LevelFits(t, g, lvl, st)
    ensures LevelFits(t', g', lvl, st)
  {
    hide Sound, RootSplitOf, Es, LvlOf, LevelFits, EntryFits, Step, SameLevel, StagePages, Fence;
    SplitStep(t, g, t', g', l, r, lp, rp, np);
    SplitLowLevel(t, g, t', g', l, r, lp, rp, np, lvl);
    SplitFacts(t, g, t', g', l, r, lp, rp, np);
    StageOf(t, g, lvl, st);
    var ch := {t.root, l, r};
    forall x, i: nat | x in ch && x in t'.pages && LvlOf(t', x) == lvl + 1 && i < |Es(t', x)|
      ensures EntryFits(t', g', x, i, st)
    {
      SplitEntry(t, g, t', g', l, r, lp, rp, np, x, i);
      EntryKept(t, g, t', g', lvl, st, x, i, t.root, OldIndex(t', l, r, x, i));
    }
    StepStage(t, g, t', g', ch, lvl, st);
  }

  /** The new root stands for its two pages exactly; there is nothing above it. */
  lemma {:induction false} SplitTopStages(
      t: Tree, g: Ranges, t': Tree, g': Ranges, l: nat, r: nat, lp: Page, rp: Page, np: Page, lvl: nat)
    requires Sound(t, g) && RootSplitOf(t, g, t', g', l, r, lp, rp, np) && lvl >= LvlOf(t, t.root)
    ensures LevelFits(t', g', lvl, Tight)
  {
    hide Sound, RootSplitOf, Es, LvlOf, Fence;
    SplitRootGood(t, g, t', g', l, r, lp, rp, np);
    SplitFacts(t, g, t', g', l, r, lp, rp, np);
  }

  lemma {:induction false} SplitHolds(
      t: Tree, g: Ranges, t': Tree, g': Ranges, l: nat, r: nat, lp: Page, rp: Page, np: Page, lvl: nat, key: Bound, len: nat)
    requires Sound(t, g) && RootSplitOf(t, g, t', g', l, r, lp, rp, np) && lvl <= LvlOf(t, t.root)
    ensures Holds(t', lvl, key, len) <==> Holds(t, lvl, key, len)
  {
    hide Sound, RootSplitOf, Es, HasCell, LvlOf, Step, Fence, PageOk;
    SplitStep(t, g, t', g', l, r, lp, rp, np);
    SplitFacts(t, g, t', g', l, r, lp, rp, np);
    CellsConcat(Es(t', l), Es(t', r), key, len);
    assert HeldBy(t, t.root, lvl, key, len) <==> HeldBy(t', l, lvl, key, len) || HeldBy(t', r, lvl, key, len);
    assert !HeldBy(t, l, lvl, key, len) && !HeldBy(t, r, lvl, key, len) && !HeldBy(t', t.root, lvl, key, len);
    StepHolds(t, g, t', g', {t.root, l, r}, lvl, key, len);
  }

  lemma {:induction false} SplitCells(
      t: Tree, g: Ranges, t': Tree, g': Ranges, l: nat, r: nat, lp: Page, rp: Page, np: Page, lvl: nat)
    requires Sound(t, g) && RootSplitOf(t, g, t', g', l, r, lp, rp, np) && lvl <= LvlOf(t, t.root)
    ensures SameCells(t, t', lvl)
  {
    hide Sound, RootSplitOf, Holds, LvlOf;
    forall k: nat, key: Bound, len: nat | k <= lvl ensures Holds(t', k, key, len) <==> Holds(t, k, key, len) {
      SplitHolds(t, g, t', g', l, r, lp, rp, np, k, key, len);
    }
  }

  /** The new level holds what the new root page holds. */
  lemma {:induction false} TopHolds(
      t: Tree, g: Ranges, t': Tree, g': Ranges, l: nat, r: nat, lp: Page, rp: Page, np: Page, lvl: nat, key: Bound, len: nat)
    requires Sound(t, g) && RootSplitOf(t, g, t', g', l, r, lp, rp, np) && lvl == LvlOf(t, t.root) + 1
    ensures Holds(t', lvl, key, len) <==> HasCell(Entries(np), key, len)
  {
    hide Sound, RootSplitOf, Entries, HasCell, Fence, PageOk;
    SplitFacts(t, g, t', g', l, r, lp, rp, np);
    SplitRootGood(t, g, t', g', l, r, lp, rp, np);
    assert HeldBy(t', t.root, lvl, key, len) <==> HasCell(Entries(np), key, len);
  }
}
