/**
 Why insertions end: a ceiling above the height of the tree that no page split raises. Every split
 takes a page of three entries or more, so each new level uses up entries beyond the second.
 */
module BtreeHeight {
  import opened BtreePages
  import opened BtreeInsertSlot
  import opened BtreeSplit
  import opened BtreeTree
  import opened BtreeStages
  import opened BtreeStep
  import opened BtreeLink
  import opened BtreeRoot
  import opened BtreeInsert

  /** The entries of a page beyond the second. */
  function Excess(p: Page): nat { if |Entries(p)| > 2 then |Entries(p)| - 2 else 0 }

  /** The excess of all pages with numbers below `m`. */
  function Spare(pages: map<nat, Page>, m: nat): nat {
    if m == 0 then 0 else Spare(pages, m - 1) + if m - 1 in pages then Excess(pages[m - 1]) else 0
  }

  lemma {:induction false} SpareBut(pages: map<nat, Page>, n: nat, p: Page, m: nat)
    ensures var was := if n in pages && n < m then Excess(pages[n]) else 0;
            Spare(pages[n := p], m) == Spare(pages, m) - was + if n < m then Excess(p) else 0
  {
    hide Excess;
    if m > 0 { SpareBut(pages, n, p, m - 1); }
  }

  lemma {:induction false} SpareBeyond(pages: map<nat, Page>, m: nat, more: nat)
    requires m <= more && forall n | n in pages :: n < m
    ensures Spare(pages, more) == Spare(pages, m)
  {
    if m < more { SpareBeyond(pages, m, more - 1); }
  }

  /** The height that the tree will never grow beyond by splitting pages. */
  function Ceiling(t: Tree, m: nat): int { LvlOf(t, t.root) + Spare(t.pages, m) }

  lemma {:induction false} HalvesExcess(p: Page, l: Page, r: Page, right: nat)
    requires Halved(p, l, r, PAGE_SIZE, right) && |Entries(p)| >= 3
    ensures Excess(l) + Excess(r) < Excess(p)
  {
    hide Entries, PageOk, Lean;
    assert |Entries(l) + Entries(r)| == |Entries(p)|;
  }

  ghost predicate Numbered(t: Tree, m: nat) { forall n | n in t.pages :: n < m }

  /** Linking a new right page lowers the ceiling. */
  lemma {:induction false} LinkCeiling(
      t: Tree, g: Ranges, t': Tree, g': Ranges, n: nat, r: nat, lp: Page, rp: Page, m: nat)
    requires Sound(t, g) && LinkOf(t, g, t', g', n, r, lp, rp) && Numbered(t, m) && r == m && |Entries(t.pages[n])| >= 3
    ensures Numbered(t', m + 1) && Ceiling(t', m + 1) < Ceiling(t, m)
  {
    hide Sound, Halved, Entries, Excess, Fence, Spare;
    LinkRootLevel(t, g, t', g', n, r, lp, rp);
    HalvesExcess(t.pages[n], lp, rp, r);
    SpareBut(t.pages, n, lp, m + 1);
    SpareBut(t.pages[n := lp], r, rp, m + 1);
    SpareBeyond(t.pages, m, m + 1);
  }

  /** A new root raises the tree by one level and lowers what is to spare. */
  lemma {:induction false} RootCeiling(
      t: Tree, g: Ranges, t': Tree, g': Ranges, l: nat, r: nat, lp: Page, rp: Page, np: Page, m: nat)
    requires Sound(t, g) && RootSplitOf(t, g, t', g', l, r, lp, rp, np) && Numbered(t, m) && r == m && l == m + 1
    requires |Entries(t.pages[t.root])| >= 3
    ensures Numbered(t', m + 2) && Ceiling(t', m + 2) <= Ceiling(t, m)
  {
    hide Sound, Halved, Fence, Spare, PageOk, Entries;
    HalvesExcess(t.pages[t.root], lp, rp, r);
    SpareBut(t.pages, t.root, np, m + 2);
    SpareBut(t.pages[t.root := np], l, lp, m + 2);
    SpareBut(t.pages[t.root := np][l := lp], r, rp, m + 2);
    SpareBeyond(t.pages, m, m + 2);
  }

  /** One more entry raises the ceiling by one at most; with as many entries it stays. */
  lemma {:induction false} PageCeiling(t: Tree, n: nat, p': Page, m: nat, more: nat)
    requires n in t.pages && p'.lvl == t.pages[n].lvl && |Entries(p')| <= |Entries(t.pages[n])| + more && Numbered(t, m)
    ensures var t' := Tree(t.root, t.pages[n := p']);
            Numbered(t', m) && Ceiling(t', m) <= Ceiling(t, m) + more
  {
    hide Entries, Spare;
    SpareBut(t.pages, n, p', m);
  }

  /** The search on a page takes no longer than the page has entries. */
  lemma {:induction false} EntriesBounded(p: Page, n: nat)
    requires n <= |p.slots|
    ensures |EntriesTo(p, n)| <= n
  {
    hide KeyAt, CellAt;
    if n > 0 { EntriesBounded(p, n - 1); }
  }

  // ---------- the page that owns a key gets smaller ----------

  /** Whatever page of the level owns `key` has at most `most` entries. */
  ghost predicate OwnerHas(t: Tree, g: Ranges, lvl: nat, key: int, most: nat) {
    forall n | Owns(t, g, n, key) && LvlOf(t, n) == lvl :: |Es(t, n)| <= most
  }

  lemma {:induction false} OwnerFits(t: Tree, g: Ranges, lvl: nat, key: int)
    requires Sound(t, g)
    ensures OwnerHas(t, g, lvl, key, PAGE_SIZE)
  {
    hide Sound, Owns, LvlOf;
    forall n | n in t.pages ensures |Es(t, n)| <= PAGE_SIZE { PageHolds(t, g, n); }
    NotThere(t);
  }

  lemma {:induction false} NotThere(t: Tree)
    ensures forall n :: n !in t.pages ==> |Es(t, n)| == 0
  {
  }

  lemma {:induction false} PageHolds(t: Tree, g: Ranges, n: nat)
    requires Sound(t, g) && n in t.pages
    ensures |Es(t, n)| <= PAGE_SIZE
  {
    hide Sound, EntriesTo, SlotsOk, SortedPage;
    SearchReady(t, g, n);
    EntriesBounded(t.pages[n], |t.pages[n].slots|);
  }

  /** The halves still stand in `t'` as they were made out of page `n` of `t`. */
  ghost predicate HalvesStand(t: Tree, g: Ranges, t': Tree, g': Ranges, n: nat, a: nat, b: nat) {
    && n in t.pages && Ranged(g, n) && a in t'.pages && b in t'.pages && Ranged(g', a) && Ranged(g', b)
    && LvlOf(t', a) == LvlOf(t, n) && LvlOf(t', b) == LvlOf(t, n)
    && Es(t', a) + Es(t', b) == Es(t, n) && Es(t', a) != [] && Es(t', b) != []
    && g'.lo[a] == g.lo[n] && g'.hi[a] == g'.lo[b] && g'.hi[b] == g.hi[n]
  }

  /** The owner of a key that the page owned is one of its halves, and smaller. */
  lemma {:induction false} OwnerShrinks(t: Tree, g: Ranges, t': Tree, g': Ranges, n: nat, a: nat, b: nat, key: int)
    requires Sound(t', g') && HalvesStand(t, g, t', g', n, a, b) && Owns(t, g, n, key) && LvlOf(t, n) >= 0
    ensures |Es(t, n)| > 0 && OwnerHas(t', g', LvlOf(t, n), key, |Es(t, n)| - 1)
  {
    hide Sound, Es, LvlOf;
    assert |Es(t', a) + Es(t', b)| == |Es(t, n)|;
    var h := if Le(Fin(key), g'.hi[a]) then a else b;
    assert Owns(t', g', h, key);
    forall x | Owns(t', g', x, key) && LvlOf(t', x) == LvlOf(t, n) ensures x == h { OwnerOnce(t', g', x, h, key); }
  }

  lemma {:induction false} LinkStands(t: Tree, g: Ranges, t': Tree, g': Ranges, n: nat, r: nat, lp: Page, rp: Page)
    requires Sound(t, g) && LinkOf(t, g, t', g', n, r, lp, rp)
    ensures HalvesStand(t, g, t', g', n, n, r)
  {
    hide Sound, Entries, PageOk, Fence, Lean;
    LinkFacts(t, g, t', g', n, r, lp, rp);
  }

  lemma {:induction false} RootStands(
      t: Tree, g: Ranges, t': Tree, g': Ranges, l: nat, r: nat, lp: Page, rp: Page, np: Page)
    requires Sound(t, g) && RootSplitOf(t, g, t', g', l, r, lp, rp, np)
    ensures HalvesStand(t, g, t', g', t.root, l, r)
  {
    hide Sound, Entries, PageOk, Fence, Lean;
    TopRange(t, g);
  }

  lemma {:induction false} TopRange(t: Tree, g: Ranges)
    requires Sound(t, g)
    ensures t.root in t.pages && Ranged(g, t.root) && g.lo[t.root] == Low && g.hi[t.root] == High
  {
    hide PageGood, ChildrenGood, RangesApart;
    assert NodeGood(t, g, t.root);
  }

  /** Changes further up leave the halves standing. */
  lemma {:induction false} StandsOn(
      t: Tree, g: Ranges, t1: Tree, g1: Ranges, t2: Tree, g2: Ranges, n: nat, a: nat, b: nat, lvl: nat)
    requires HalvesStand(t, g, t1, g1, n, a, b) && LvlOf(t, n) < lvl && PagesBelow(t1, g1, t2, g2, lvl)
    ensures HalvesStand(t, g, t2, g2, n, a, b)
  {
    hide Entries;
    assert SamePage(t1, g1, t2, g2, a) && SamePage(t1, g1, t2, g2, b);
  }
}
