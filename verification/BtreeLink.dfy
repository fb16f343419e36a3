/** Linking a new right page: the structural part of a page split. */
module BtreeLink {
  import opened BtreePages
  import opened BtreeSplit
  import opened BtreeTree
  import opened BtreeStages
  import opened BtreeStep

  /** The fence of a page. */
  function Fence(p: Page): Bound {
    var es := Entries(p);
    if es == [] then High else es[|es| - 1].key
  }

  /** Page `n` keeps its lower half, the new page `r` to its right takes the upper one. */
  ghost predicate LinkOf(t: Tree, g: Ranges, t': Tree, g': Ranges, n: nat, r: nat, lp: Page, rp: Page) {
    && n in t.pages && n != t.root && r != 0 && r !in t.pages && Ranged(g, n)
    && Halved(t.pages[n], lp, rp, PAGE_SIZE, r)
    && t' == Tree(t.root, t.pages[n := lp][r := rp])
    && g' == Ranges(g.lo[r := Fence(lp)], g.hi[n := Fence(lp)][r := g.hi[n]])
  }

  lemma {:induction false} HalfRanges(lo: Bound, es: seq<Entry>, a: seq<Entry>, b: seq<Entry>)
    requires Increasing(lo, es) && es == a + b && a != [] && b != []
    ensures var m := a[|a| - 1].key;
            && Increasing(lo, a) && Increasing(m, b) && Lt(lo, m) && Lt(m, es[|es| - 1].key)
            && b[|b| - 1].key == es[|es| - 1].key
  {
    var k := |a| - 1;
    assert forall i | 0 <= i < |b| :: b[i] == es[|a| + i];
    assert forall i | 0 <= i < |a| :: a[i] == es[i];
    assert Lt(es[k].key, es[|es| - 1].key);
    if k > 0 { assert Lt(es[0].key, es[k].key); }
    forall i, j | 0 <= i < j < |b| ensures Lt(b[i].key, b[j].key) {
      assert Lt(es[|a| + i].key, es[|a| + j].key);
    }
  }

  /** The entries of the upper half have the same bounds as before. */
  lemma {:induction false} HalfPrev(lo: Bound, es: seq<Entry>, a: seq<Entry>, b: seq<Entry>)
    requires es == a + b && a != []
    ensures forall i: nat | i < |a| :: a[i] == es[i] && Prev(lo, a, i) == Prev(lo, es, i)
    ensures forall i: nat | i < |b| :: b[i] == es[|a| + i] && Prev(a[|a| - 1].key, b, i) == Prev(lo, es, |a| + i)
  {
    assert forall i | 0 <= i < |a| :: a[i] == es[i];
    forall i: nat | i < |b| ensures b[i] == es[|a| + i] && Prev(a[|a| - 1].key, b, i) == Prev(lo, es, |a| + i) {
      assert es[|a| - 1] == a[|a| - 1];
      if i > 0 { assert b[i - 1] == es[|a| + i - 1]; }
    }
  }

  lemma {:induction false} HalvesGood(p: Page, lo: Bound, hi: Bound, r: nat, lp: Page, rp: Page)
    requires Halved(p, lp, rp, PAGE_SIZE, r) && PageGood(p, lo, hi)
    ensures PageGood(lp, lo, Fence(lp)) && PageGood(rp, Fence(lp), hi) && Lt(lo, Fence(lp)) && Lt(Fence(lp), hi)
  {
    hide Entries, PageOk, Increasing;
    HalfRanges(lo, Entries(p), Entries(lp), Entries(rp));
  }

  /** Where the two pages are, and that no other page changes. */
  lemma {:induction false} LinkFacts(t: Tree, g: Ranges, t': Tree, g': Ranges, n: nat, r: nat, lp: Page, rp: Page)
    requires Sound(t, g) && LinkOf(t, g, t', g', n, r, lp, rp)
    ensures n != r && n in t'.pages && r in t'.pages && t'.pages[n] == lp && t'.pages[r] == rp
    ensures Es(t', n) == Entries(lp) && Es(t', r) == Entries(rp) && Es(t, n) == Es(t', n) + Es(t', r) && Es(t', n) != []
    ensures LvlOf(t', n) == LvlOf(t', r) == LvlOf(t, n) >= 0 && lp.right == r && rp.right == t.pages[n].right
    ensures Ranged(g, n) && Ranged(g', n) && Ranged(g', r)
    ensures g'.lo[n] == g.lo[n] && g'.hi[n] == g'.lo[r] == Fence(lp) && g'.hi[r] == g.hi[n]
    ensures Fence(lp) == Es(t', n)[|Es(t', n)| - 1].key
  {
    hide Sound, Entries, PageOk;
  }

  lemma {:induction false} LinkStep(t: Tree, g: Ranges, t': Tree, g': Ranges, n: nat, r: nat, lp: Page, rp: Page)
    requires Sound(t, g) && LinkOf(t, g, t', g', n, r, lp, rp)
    ensures Step(t, g, t', g', {n, r})
  {
    hide Sound, Entries, PageOk;
    forall x | x in t.pages ensures Ranged(g, x) { GoodNode(t, g, x); }
  }

  lemma {:induction false} LinkRoot(t: Tree, g: Ranges, t': Tree, g': Ranges, n: nat, r: nat, lp: Page, rp: Page)
    requires Sound(t, g) && LinkOf(t, g, t', g', n, r, lp, rp)
    ensures RootGood(t', g')
  {
    hide Sound, Entries, PageOk, Halved, Es, Fence, Step;
    RootAlone(t, g);
    LinkFacts(t, g, t', g', n, r, lp, rp);
  }

  lemma {:induction false} LinkRights(t: Tree, g: Ranges, t': Tree, g': Ranges, n: nat, r: nat, lp: Page, rp: Page)
    requires Sound(t, g) && LinkOf(t, g, t', g', n, r, lp, rp)
    ensures NodeGood(t', g', n) && NodeGood(t', g', r)
  {
    hide Sound, LinkOf, PageGood, Step, Es;
    LinkFresh(t, g, t', g', n, r, lp, rp);
    GoodNode(t, g, n);
    LinkFacts(t, g, t', g', n, r, lp, rp);
    HalvesGood(t.pages[n], g.lo[n], g.hi[n], r, lp, rp);
    LinkStep(t, g, t', g', n, r, lp, rp);
    var q := t.pages[n].right;
    if q != 0 {
      NotRoot(t, g, n, q);
      StepPlace(t, g, t', g', {n, r}, q);
    }
  }

  /** Where an entry of the two pages was. */
  function OldIndex(t': Tree, n: nat, r: nat, x: nat, i: nat): nat {
    if x == r then |Es(t', n)| + i else i
  }

  lemma {:induction false} LinkEntry(
      t: Tree, g: Ranges, t': Tree, g': Ranges, n: nat, r: nat, lp: Page, rp: Page, x: nat, i: nat)
    requires Sound(t, g) && LinkOf(t, g, t', g', n, r, lp, rp) && (x == n || x == r) && i < |Es(t', x)|
    ensures var j := OldIndex(t', n, r, x, i);
            && j < |Es(t, n)| && Es(t', x)[i] == Es(t, n)[j] && Ranged(g', x) && Ranged(g, n)
            && Prev(g'.lo[x], Es(t', x), i) == Prev(g.lo[n], Es(t, n), j)
  {
    hide Sound, LinkOf, Es, Prev;
    LinkFacts(t, g, t', g', n, r, lp, rp);
    HalfPrev(g.lo[n], Es(t, n), Es(t', n), Es(t', r));
  }

  lemma {:induction false} LinkChild(
      t: Tree, g: Ranges, t': Tree, g': Ranges, n: nat, r: nat, lp: Page, rp: Page, x: nat, i: nat)
    requires Sound(t, g) && LinkOf(t, g, t', g', n, r, lp, rp) && (x == n || x == r) && i < |Es(t', x)|
    requires LvlOf(t, n) > 0
    ensures x in t'.pages && ChildIs(t', g', x, i)
  {
    hide Sound, LinkOf, Es, Prev, NodeGood, Step, Le;
    var j := OldIndex(t', n, r, x, i);
    LinkEntry(t, g, t', g', n, r, lp, rp, x, i);
    LinkFacts(t, g, t', g', n, r, lp, rp);
    LinkStep(t, g, t', g', n, r, lp, rp);
    GoodChild(t, g, n, j);
    var c := Es(t, n)[j].cell.child;
    NotRoot(t, g, n, c);
    LinkFresh(t, g, t', g', n, r, lp, rp);
    StepPlace(t, g, t', g', {n, r}, c);
  }

  lemma {:induction false} LinkGood(t: Tree, g: Ranges, t': Tree, g': Ranges, n: nat, r: nat, lp: Page, rp: Page)
    requires Sound(t, g) && LinkOf(t, g, t', g', n, r, lp, rp)
    ensures ChangedGood(t', g', {n, r})
  {
    hide Sound, LinkOf, Es, NodeGood, ChildGood, LvlOf;
    LinkRights(t, g, t', g', n, r, lp, rp);
    LinkFacts(t, g, t', g', n, r, lp, rp);
    forall x, i: nat | (x == n || x == r) && i < |Es(t', x)| && LvlOf(t', x) > 0
      ensures x in t'.pages && Ranged(g', x) && ChildGood(t', g', x, i)
    {
      LinkChild(t, g, t', g', n, r, lp, rp, x, i);
    }
  }

  lemma {:induction false} HalfApart(a: Bound, m: Bound, b: Bound, c: Bound, d: Bound)
    requires Lt(a, m) && Lt(m, b) && (Le(b, c) || Le(d, a))
    ensures Le(m, c) || Le(d, a)
    ensures Le(b, c) || Le(d, m)
  {
  }

  lemma {:induction false} LinkApart(t: Tree, g: Ranges, t': Tree, g': Ranges, n: nat, r: nat, lp: Page, rp: Page)
    requires Sound(t, g) && LinkOf(t, g, t', g', n, r, lp, rp)
    ensures ChangedApart(t', g', {n, r})
  {
    hide Sound, LinkOf, Es, NodeGood, PageGood, Halved, Le;
    LinkFacts(t, g, t', g', n, r, lp, rp);
    LinkStep(t, g, t', g', n, r, lp, rp);
    LinkFresh(t, g, t', g', n, r, lp, rp);
    GoodNode(t, g, n);
    HalvesGood(t.pages[n], g.lo[n], g.hi[n], r, lp, rp);
    forall x, y | (x == n || x == r) && y in t'.pages && x != y && LvlOf(t', x) == LvlOf(t', y)
      ensures Ranged(g', x) && Ranged(g', y) && Apart(g', x, y)
    {
      if y == n || y == r {
        LeSelf(Fence(lp));
      } else {
        StepSame(t, g, t', g', {n, r}, y);
        PagesApart(t, g, n, y);
        HalfApart(g.lo[n], Fence(lp), g.hi[n], g.lo[y], g.hi[y]);
      }
    }
  }

  lemma {:induction false} LeSelf(b: Bound)
    ensures Le(b, b)
  {
  }

  /** Linking keeps the tree searchable: the higher keys are reached by sliding right. */
  lemma {:induction false} LinkSound(t: Tree, g: Ranges, t': Tree, g': Ranges, n: nat, r: nat, lp: Page, rp: Page)
    requires Sound(t, g) && LinkOf(t, g, t', g', n, r, lp, rp)
    ensures Sound(t', g')
  {
    hide *;
    LinkStep(t, g, t', g', n, r, lp, rp);
    LinkRoot(t, g, t', g', n, r, lp, rp);
    LinkGood(t, g, t', g', n, r, lp, rp);
    LinkApart(t, g, t', g', n, r, lp, rp);
    StepSound(t, g, t', g', {n, r});
  }

  // ---------- what linking does to the levels ----------

  lemma {:induction false} LinkOtherLevel(
      t: Tree, g: Ranges, t': Tree, g': Ranges, n: nat, r: nat, lp: Page, rp: Page, lvl: nat)
    requires Sound(t, g) && LinkOf(t, g, t', g', n, r, lp, rp) && lvl != LvlOf(t, n)
    ensures SameLevel(t, g, t', g', lvl)
  {
    hide Sound, LinkOf, Es;
    LinkStep(t, g, t', g', n, r, lp, rp);
    LinkFresh(t, g, t', g', n, r, lp, rp);
    forall x | x in t.pages && LvlOf(t, x) == lvl
      ensures x in t'.pages && LvlOf(t', x) == lvl && Ranged(g, x) && Ranged(g', x) && g'.lo[x] == g.lo[x] && g'.hi[x] == g.hi[x]
    {
      assert SamePage(t, g, t', g', x);
    }
  }

  lemma {:induction false} LinkFresh(t: Tree, g: Ranges, t': Tree, g': Ranges, n: nat, r: nat, lp: Page, rp: Page)
    requires LinkOf(t, g, t', g', n, r, lp, rp)
    ensures r !in t.pages && n in t.pages && n != t.root && r != 0 && Ranged(g, n) && Ranged(g', n) && Ranged(g', r)
    ensures Halved(t.pages[n], lp, rp, PAGE_SIZE, r)
  {
    hide Halved;
  }

  /** Linking leaves every other level at its stage. */
  lemma {:induction false} LinkStages(
      t: Tree, g: Ranges, t': Tree, g': Ranges, n: nat, r: nat, lp: Page, rp: Page, lvl: nat, st: Stage)
    requires Sound(t, g) && LinkOf(t, g, t', g', n, r, lp, rp) && lvl != LvlOf(t, n) && LevelFits(t, g, lvl, st)
    ensures LevelFits(t', g', lvl, st)
  {
    hide Sound, LinkOf, Es, LvlOf, LevelFits, EntryFits, Step, SameLevel, StagePages;
    LinkStep(t, g, t', g', n, r, lp, rp);
    LinkOtherLevel(t, g, t', g', n, r, lp, rp, lvl);
    LinkFacts(t, g, t', g', n, r, lp, rp);
    LinkFresh(t, g, t', g', n, r, lp, rp);
    StageOf(t, g, lvl, st);
    forall x, i: nat | x in {n, r} && x in t'.pages && LvlOf(t', x) == lvl + 1 && i < |Es(t', x)|
      ensures EntryFits(t', g', x, i, st)
    {
      LinkEntry(t, g, t', g', n, r, lp, rp, x, i);
      EntryKept(t, g, t', g', lvl, st, x, i, n, OldIndex(t', n, r, x, i));
    }
    StepStage(t, g, t', g', {n, r}, lvl, st);
  }

  lemma {:induction false} LinkOwnFits(g: Ranges, g': Ranges, prev: Bound, key: Bound, c: nat, n: nat, r: nat)
    requires Fits(g, prev, key, c, Tight) && Ranged(g, n) && Ranged(g', n) && Ranged(g', r)
    requires g'.lo[n] == g.lo[n] && g'.hi[r] == g.hi[n] && g'.lo[r] == g'.hi[n]
    requires c != n ==> Ranged(g', c) && g'.lo[c] == g.lo[c] && g'.hi[c] == g.hi[c]
    ensures Fits(g', prev, key, c, Linked(n, r))
  {
  }

  lemma {:induction false} LinkOwnEntry(
      t: Tree, g: Ranges, t': Tree, g': Ranges, n: nat, r: nat, lp: Page, rp: Page, x: nat, i: nat)
    requires Sound(t, g) && LinkOf(t, g, t', g', n, r, lp, rp) && LvlOf(t, n) >= 0 && LevelFits(t, g, LvlOf(t, n), Tight)
    requires x in t'.pages && LvlOf(t', x) == LvlOf(t, n) + 1 && i < |Es(t', x)|
    ensures EntryFits(t', g', x, i, Linked(n, r))
  {
    hide Sound, LinkOf, Es, LevelFits, Step, Prev, Fits, LvlOf;
    LinkFacts(t, g, t', g', n, r, lp, rp);
    LinkStep(t, g, t', g', n, r, lp, rp);
    LinkFresh(t, g, t', g', n, r, lp, rp);
    StepSame(t, g, t', g', {n, r}, x);
    SameEntries(t, t', x);
    EntryWas(t, g, LvlOf(t, n), Tight, x, i);
    var c := Es(t, x)[i].cell.child;
    if c != n { StepSame(t, g, t', g', {n, r}, c); }
    LinkOwnFits(g, g', Prev(g.lo[x], Es(t, x), i), Es(t, x)[i].key, c, n, r);
    EntryIs(t', g', x, i, Linked(n, r), Prev(g.lo[x], Es(t, x), i), Es(t, x)[i]);
  }

  /** The level of the split page itself waits for its fences. */
  lemma {:induction false} LinkOwnStage(t: Tree, g: Ranges, t': Tree, g': Ranges, n: nat, r: nat, lp: Page, rp: Page)
    requires Sound(t, g) && LinkOf(t, g, t', g', n, r, lp, rp) && LvlOf(t, n) >= 0 && LevelFits(t, g, LvlOf(t, n), Tight)
    ensures LevelFits(t', g', LvlOf(t, n), Linked(n, r))
  {
    hide Sound, LinkOf, Es, EntryFits, LvlOf, LevelFits;
    LinkFacts(t, g, t', g', n, r, lp, rp);
    assert StagePages(t', LvlOf(t, n), Linked(n, r));
    forall x, i: nat | x in t'.pages && LvlOf(t', x) == LvlOf(t, n) + 1 && i < |Es(t', x)|
      ensures EntryFits(t', g', x, i, Linked(n, r))
    {
      LinkOwnEntry(t, g, t', g', n, r, lp, rp, x, i);
    }
    LevelIs(t', g', LvlOf(t, n), Linked(n, r));
  }

  // ---------- the cells ----------

  lemma {:induction false} LinkHolds(
      t: Tree, g: Ranges, t': Tree, g': Ranges, n: nat, r: nat, lp: Page, rp: Page, lvl: nat, key: Bound, len: nat)
    requires Sound(t, g) && LinkOf(t, g, t', g', n, r, lp, rp)
    ensures Holds(t', lvl, key, len) <==> Holds(t, lvl, key, len)
  {
    hide Sound, LinkOf, Es, HasCell, LvlOf, Step, Fence;
    LinkFacts(t, g, t', g', n, r, lp, rp);
    LinkStep(t, g, t', g', n, r, lp, rp);
    LinkFresh(t, g, t', g', n, r, lp, rp);
    CellsConcat(Es(t', n), Es(t', r), key, len);
    assert HeldBy(t, n, lvl, key, len) <==> HeldBy(t', n, lvl, key, len) || HeldBy(t', r, lvl, key, len);
    assert !HeldBy(t, r, lvl, key, len);
    StepHolds(t, g, t', g', {n, r}, lvl, key, len);
  }

  lemma {:induction false} LinkCells(t: Tree, g: Ranges, t': Tree, g': Ranges, n: nat, r: nat, lp: Page, rp: Page, lvl: nat)
    requires Sound(t, g) && LinkOf(t, g, t', g', n, r, lp, rp)
    ensures SameCells(t, t', lvl)
  {
    hide Sound, LinkOf, Holds;
    forall k: nat, key: Bound, len: nat | k <= lvl ensures Holds(t', k, key, len) <==> Holds(t, k, key, len) {
      LinkHolds(t, g, t', g', n, r, lp, rp, k, key, len);
    }
  }
}
