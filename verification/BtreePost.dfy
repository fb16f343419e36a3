/** Posting the fences of a split: the left one is inserted, the entry of the right one repointed. */
module BtreePost {
  import opened BtreePages
  import opened BtreeInsertSlot
  import opened BtreeTree
  import opened BtreeStages
  import opened BtreeStep

  // ---------- a page with another entry ----------

  /** Page `q` has one more entry, in its place. */
  ghost predicate PostOf(t: Tree, g: Ranges, t': Tree, q: nat, p': Page, i: nat, m: int, cell: Cell) {
    && q in t.pages && Ranged(g, q) && t' == Tree(t.root, t.pages[q := p'])
    && PageOk(p', PAGE_SIZE) && p'.lvl == t.pages[q].lvl && p'.right == t.pages[q].right
    && i < |Es(t, q)| && Entries(p') == InsertAt(Es(t, q), i, Entry(Fin(m), cell))
    && Lt(Prev(g.lo[q], Es(t, q), i), Fin(m)) && Lt(Fin(m), Es(t, q)[i].key)
  }

  /** On interior pages the new entry leads to a page that begins below it. */
  ghost predicate PostChild(t: Tree, g: Ranges, q: nat, i: nat, cell: Cell)
    requires q in t.pages && Ranged(g, q) && i < |Es(t, q)|
  {
    LvlOf(t, q) > 0 ==>
      cell.child in t.pages && Ranged(g, cell.child) && LvlOf(t, cell.child) + 1 == LvlOf(t, q)
      && Le(g.lo[cell.child], Prev(g.lo[q], Es(t, q), i))
  }

  lemma {:induction false} InsertAtIs(es: seq<Entry>, i: nat, x: Entry)
    requires i <= |es|
    ensures var r := InsertAt(es, i, x);
            && |r| == |es| + 1 && r[i] == x && (forall j | 0 <= j < i :: r[j] == es[j])
            && forall j | i < j < |r| :: r[j] == es[j - 1]
  {
  }

  lemma {:induction false} InsertAtPrev(lo: Bound, es: seq<Entry>, i: nat, x: Entry)
    requires i < |es|
    ensures var r := InsertAt(es, i, x);
            && (forall j: nat | j <= i :: Prev(lo, r, j) == Prev(lo, es, j)) && Prev(lo, r, i + 1) == x.key
            && forall j: nat, k: nat | k + 1 == j && i + 1 < j < |r| :: Prev(lo, r, j) == Prev(lo, es, k)
  {
    InsertAtIs(es, i, x);
  }

  lemma {:induction false} InsertIncreasing(lo: Bound, es: seq<Entry>, i: nat, x: Entry)
    requires Increasing(lo, es) && i < |es| && Lt(Prev(lo, es, i), x.key) && Lt(x.key, es[i].key)
    ensures var r := InsertAt(es, i, x); Increasing(lo, r) && r[|r| - 1] == es[|es| - 1]
  {
    InsertAtIs(es, i, x);
    EntryAbove(lo, es, i);
    var r := InsertAt(es, i, x);
    forall j, k | 0 <= j < k < |r| ensures Lt(r[j].key, r[k].key) {
      if j == i {
        if k > i + 1 { assert Lt(es[i].key, es[k - 1].key); }
      } else if k == i {
        if j < i - 1 { assert Lt(es[j].key, es[i - 1].key); }
      } else {
        var a, b := if j < i then j else j - 1, if k < i then k else k - 1;
        assert Lt(es[a].key, es[b].key);
      }
    }
  }

  lemma {:induction false} PostFacts(t: Tree, g: Ranges, t': Tree, q: nat, p': Page, i: nat, m: int, cell: Cell)
    requires Sound(t, g) && PostOf(t, g, t', q, p', i, m, cell)
    ensures q in t.pages && q in t'.pages && t'.pages[q] == p' && Ranged(g, q) && LvlOf(t', q) == LvlOf(t, q) >= 0
    ensures i < |Es(t, q)| && Es(t', q) == InsertAt(Es(t, q), i, Entry(Fin(m), cell)) && PageOk(p', PAGE_SIZE)
    ensures Lt(Prev(g.lo[q], Es(t, q), i), Fin(m)) && Lt(Fin(m), Es(t, q)[i].key) && p'.right == t.pages[q].right
    ensures t'.root == t.root && t'.pages.Keys == t.pages.Keys
    ensures forall x :: LvlOf(t', x) == LvlOf(t, x)
    ensures forall x | x in t.pages :: t'.pages[x].right == t.pages[x].right
  {
    hide Sound, Entries, PageOk, InsertAt, Prev;
  }

  lemma {:induction false} PostStep(t: Tree, g: Ranges, t': Tree, q: nat, p': Page, i: nat, m: int, cell: Cell)
    requires Sound(t, g) && PostOf(t, g, t', q, p', i, m, cell)
    ensures Step(t, g, t', g, {q})
  {
    hide Sound, Entries, PageOk, Prev, Es, InsertAt, Le;
    forall x | x in t.pages ensures Ranged(g, x) {
      GoodNode(t, g, x);
      NodeRanged(t, g, x);
    }
  }

  lemma {:induction false} NodeRanged(t: Tree, g: Ranges, n: nat)
    requires n in t.pages && NodeGood(t, g, n)
    ensures Ranged(g, n)
  {
    hide PageGood, RightGood;
  }

  lemma {:induction false} SameRoot(t: Tree, g: Ranges, t': Tree)
    requires RootGood(t, g) && t'.root == t.root && t'.pages.Keys == t.pages.Keys
    requires forall x :: LvlOf(t', x) == LvlOf(t, x)
    requires t'.pages[t.root].right == t.pages[t.root].right
    ensures RootGood(t', g)
  {
    hide LvlOf;
  }

  lemma {:induction false} PostNode(t: Tree, g: Ranges, t': Tree, q: nat, p': Page, i: nat, m: int, cell: Cell)
    requires Sound(t, g) && PostOf(t, g, t', q, p', i, m, cell)
    ensures q in t'.pages && NodeGood(t', g, q)
  {
    hide Sound, Entries, PageOk, Prev, InsertAt, PostOf, Increasing, LvlOf, Le, Lt;
    PostFacts(t, g, t', q, p', i, m, cell);
    GoodNode(t, g, q);
    InsertIncreasing(g.lo[q], Es(t, q), i, Entry(Fin(m), cell));
  }

  lemma {:induction false} LeThrough(a: Bound, b: Bound, c: Bound)
    requires Le(a, b) && Lt(b, c)
    ensures Le(a, c)
  {
  }

  /** Where an entry of the page was before, and what bounds it. */
  lemma {:induction false} PostEntry(t: Tree, g: Ranges, t': Tree, q: nat, p': Page, i: nat, m: int, cell: Cell, j: nat)
    requires Sound(t, g) && PostOf(t, g, t', q, p', i, m, cell) && j < |Es(t', q)|
    ensures Ranged(g, q) && i < |Es(t, q)| && |Es(t', q)| == |Es(t, q)| + 1
    ensures j < i ==> Es(t', q)[j] == Es(t, q)[j] && Prev(g.lo[q], Es(t', q), j) == Prev(g.lo[q], Es(t, q), j)
    ensures j == i ==> Es(t', q)[j] == Entry(Fin(m), cell) && Prev(g.lo[q], Es(t', q), j) == Prev(g.lo[q], Es(t, q), i)
    ensures j == i + 1 ==> Es(t', q)[j] == Es(t, q)[i] && Prev(g.lo[q], Es(t', q), j) == Fin(m)
    ensures j > i + 1 ==> Es(t', q)[j] == Es(t, q)[j - 1]
                          && Prev(g.lo[q], Es(t', q), j) == Prev(g.lo[q], Es(t, q), j - 1)
  {
    hide Sound, Es, PageOk, Prev, InsertAt, PostOf, LvlOf, Le, Lt;
    PostFacts(t, g, t', q, p', i, m, cell);
    InsertAtIs(Es(t, q), i, Entry(Fin(m), cell));
    InsertAtPrev(g.lo[q], Es(t, q), i, Entry(Fin(m), cell));
  }

  lemma {:induction false} PostChildGood(
      t: Tree, g: Ranges, t': Tree, q: nat, p': Page, i: nat, m: int, cell: Cell, j: nat)
    requires Sound(t, g) && PostOf(t, g, t', q, p', i, m, cell) && PostChild(t, g, q, i, cell)
    requires LvlOf(t, q) > 0 && j < |Es(t', q)|
    ensures q in t'.pages && ChildIs(t', g, q, j)
  {
    hide Sound, Es, PageOk, Prev, InsertAt, PostOf, LvlOf, Le, Lt, NodeGood;
    PostFacts(t, g, t', q, p', i, m, cell);
    PostEntry(t, g, t', q, p', i, m, cell, j);
    var k := if j <= i then j else j - 1;
    GoodChild(t, g, q, k);
    if j == i + 1 {
      LeThrough(g.lo[Es(t, q)[i].cell.child], Prev(g.lo[q], Es(t, q), i), Fin(m));
    }
  }

  /** A fence inserted where it belongs keeps the tree searchable. */
  lemma {:induction false} PostSound(t: Tree, g: Ranges, t': Tree, q: nat, p': Page, i: nat, m: int, cell: Cell)
    requires Sound(t, g) && PostOf(t, g, t', q, p', i, m, cell) && PostChild(t, g, q, i, cell)
    ensures Sound(t', g)
  {
    hide Sound, Es, PageOk, Prev, PostOf, LvlOf, Le, Lt, NodeGood, PostChild, Step, Apart, ChildGood, RootGood;
    PostFacts(t, g, t', q, p', i, m, cell);
    PostStep(t, g, t', q, p', i, m, cell);
    PostNode(t, g, t', q, p', i, m, cell);
    RootAlone(t, g);
    RootIn(t, g);
    SameRoot(t, g, t');
    forall j: nat | j < |Es(t', q)| && LvlOf(t', q) > 0 ensures ChildIs(t', g, q, j) {
      PostChildGood(t, g, t', q, p', i, m, cell, j);
    }
    OnePageGood(t', g, q);
    forall x, y | x in {q} && x in t'.pages && y in t'.pages && x != y && LvlOf(t', x) == LvlOf(t', y)
      ensures Ranged(g, x) && Ranged(g, y) && Apart(g, x, y)
    {
      PagesApart(t, g, x, y);
    }
    StepSound(t, g, t', g, {q});
  }

  lemma {:induction false} RootIn(t: Tree, g: Ranges)
    requires RootGood(t, g)
    ensures t.root in t.pages
  {
  }

  lemma {:induction false} OnePageGood(t: Tree, g: Ranges, q: nat)
    requires q in t.pages && NodeGood(t, g, q)
    requires LvlOf(t, q) > 0 ==> forall j: nat | j < |Es(t, q)| :: ChildIs(t, g, q, j)
    ensures ChangedGood(t, g, {q})
  {
    hide Es, PageGood, RightGood, ChildGood;
    forall j: nat | LvlOf(t, q) > 0 && j < |Es(t, q)| ensures Ranged(g, q) && ChildGood(t, g, q, j) {
      assert ChildIs(t, g, q, j);
    }
  }

  // ---------- the stage of the level below ----------

  /** The entry that owns the fence of the split page leads to it. */
  lemma {:induction false} LinkedEntry(t: Tree, g: Ranges, lvl: nat, p: nat, r: nat, q: nat, i: nat)
    requires Sound(t, g) && LevelFits(t, g, lvl, Linked(p, r)) && q in t.pages && LvlOf(t, q) == lvl + 1
    requires p in t.pages && Ranged(g, p) && EntryOwns(t, g, q, i, g.hi[p])
    ensures Ranged(g, r) && Ranged(g, q) && i < |Es(t, q)| && Es(t, q)[i].cell.child == p
    ensures g.lo[p] == Prev(g.lo[q], Es(t, q), i) && g.hi[r] == Es(t, q)[i].key && g.lo[r] == g.hi[p]
  {
    hide Sound, Es, Prev, LevelFits, Increasing;
    EntryWas(t, g, lvl, Linked(p, r), q, i);
    var c := Es(t, q)[i].cell.child;
    if c != p {
      PageRange(t, g, p);
      BoundOwnerOnce(t, g, c, p, g.hi[p]);
    }
  }

  lemma {:induction false} PageRange(t: Tree, g: Ranges, p: nat)
    requires Sound(t, g) && p in t.pages
    ensures Ranged(g, p) && Lt(g.lo[p], g.hi[p]) && Le(g.hi[p], g.hi[p])
  {
    hide Sound, Es, PageOk, RightGood;
    GoodNode(t, g, p);
    GoodEntries(t, g, p);
    EntryAbove(g.lo[p], Es(t, p), |Es(t, p)| - 1);
    LowHigh(g.lo[p], Es(t, p), g.hi[p]);
  }

  lemma {:induction false} LowHigh(lo: Bound, es: seq<Entry>, hi: Bound)
    requires Increasing(lo, es) && es[|es| - 1].key == hi
    ensures Lt(lo, hi) && Le(hi, hi)
  {
    EntryAbove(lo, es, |es| - 1);
  }

  lemma {:induction false} TightIsPosted(g: Ranges, prev: Bound, key: Bound, c: nat, p: nat, r: nat)
    requires c != p && Fits(g, prev, key, c, Linked(p, r))
    ensures Fits(g, prev, key, c, Posted(p, r))
  {
  }

  /** Another entry that leads to the split page would own the same fence. */
  lemma {:induction false} OtherEntry(t: Tree, g: Ranges, lvl: nat, p: nat, r: nat, q: nat, i: nat, x: nat, j: nat)
    requires Sound(t, g) && LevelFits(t, g, lvl, Linked(p, r)) && q in t.pages && LvlOf(t, q) == lvl + 1
    requires p in t.pages && Ranged(g, p) && EntryOwns(t, g, q, i, g.hi[p])
    requires x in t.pages && LvlOf(t, x) == lvl + 1 && j < |Es(t, x)| && !(x == q && j == i)
    ensures Ranged(g, x)
    ensures Fits(g, Prev(g.lo[x], Es(t, x), j), Es(t, x)[j].key, Es(t, x)[j].cell.child, Posted(p, r))
  {
    hide Sound, Es, Prev, LevelFits, Increasing;
    EntryWas(t, g, lvl, Linked(p, r), x, j);
    LinkedEntry(t, g, lvl, p, r, q, i);
    var c := Es(t, x)[j].cell.child;
    if c == p {
      PageRange(t, g, p);
      EntryOnce(t, g, q, i, x, j, g.hi[p]);
    } else {
      TightIsPosted(g, Prev(g.lo[x], Es(t, x), j), Es(t, x)[j].key, c, p, r);
    }
  }

  lemma {:induction false} PostedEntry(
      t: Tree, g: Ranges, t': Tree, q: nat, p': Page, i: nat, m: int, cell: Cell, lvl: nat, p: nat, r: nat, x: nat, j: nat)
    requires Sound(t, g) && PostOf(t, g, t', q, p', i, m, cell) && LvlOf(t, q) == lvl + 1
    requires LevelFits(t, g, lvl, Linked(p, r)) && p in t.pages && Ranged(g, p) && EntryOwns(t, g, q, i, g.hi[p])
    requires cell.child == p && g.hi[p] == Fin(m)
    requires x in t'.pages && LvlOf(t', x) == lvl + 1 && j < |Es(t', x)|
    ensures EntryFits(t', g, x, j, Posted(p, r))
  {
    hide Sound, Es, Prev, LevelFits, PostOf, InsertAt, EntryOwns, Le, Lt, Step, LvlOf;
    PostFacts(t, g, t', q, p', i, m, cell);
    LinkedEntry(t, g, lvl, p, r, q, i);
    if x == q {
      PostEntry(t, g, t', q, p', i, m, cell, j);
      if j < i {
        OtherEntry(t, g, lvl, p, r, q, i, x, j);
      } else if j > i + 1 {
        OtherEntry(t, g, lvl, p, r, q, i, x, j - 1);
      }
      EntryIs(t', g, x, j, Posted(p, r), Prev(g.lo[q], Es(t', q), j), Es(t', q)[j]);
    } else {
      PostStep(t, g, t', q, p', i, m, cell);
      StepSame(t, g, t', g, {q}, x);
      SameEntries(t, t', x);
      OtherEntry(t, g, lvl, p, r, q, i, x, j);
      EntryIs(t', g, x, j, Posted(p, r), Prev(g.lo[x], Es(t, x), j), Es(t, x)[j]);
    }
  }

  /** With the left fence in, the level waits for the right one. */
  lemma {:induction false} PostStage(
      t: Tree, g: Ranges, t': Tree, q: nat, p': Page, i: nat, m: int, cell: Cell, lvl: nat, p: nat, r: nat)
    requires Sound(t, g) && PostOf(t, g, t', q, p', i, m, cell) && LvlOf(t, q) == lvl + 1
    requires LevelFits(t, g, lvl, Linked(p, r)) && p in t.pages && Ranged(g, p) && EntryOwns(t, g, q, i, g.hi[p])
    requires cell.child == p && g.hi[p] == Fin(m)
    ensures LevelFits(t', g, lvl, Posted(p, r))
  {
    hide Sound, Es, LevelFits, PostOf, EntryOwns, EntryFits, LvlOf;
    PostFacts(t, g, t', q, p', i, m, cell);
    StageOf(t, g, lvl, Linked(p, r));
    forall x, j: nat | x in t'.pages && LvlOf(t', x) == lvl + 1 && j < |Es(t', x)|
      ensures EntryFits(t', g, x, j, Posted(p, r))
    {
      PostedEntry(t, g, t', q, p', i, m, cell, lvl, p, r, x, j);
    }
    LevelIs(t', g, lvl, Posted(p, r));
  }

  /** All other levels stay at their stage. */
  lemma {:induction false} PostOtherStages(
      t: Tree, g: Ranges, t': Tree, q: nat, p': Page, i: nat, m: int, cell: Cell, lvl: nat, st: Stage)
    requires Sound(t, g) && PostOf(t, g, t', q, p', i, m, cell) && LvlOf(t, q) != lvl + 1 && LevelFits(t, g, lvl, st)
    ensures LevelFits(t', g, lvl, st)
  {
    hide Sound, Es, LevelFits, PostOf, EntryFits, LvlOf, Step;
    PostFacts(t, g, t', q, p', i, m, cell);
    PostStep(t, g, t', q, p', i, m, cell);
    SameRanges(t, g, t', lvl);
    StepStage(t, g, t', g, {q}, lvl, st);
  }

  lemma {:induction false} SameRanges(t: Tree, g: Ranges, t': Tree, lvl: nat)
    requires Sound(t, g) && t'.pages.Keys == t.pages.Keys && forall x :: LvlOf(t', x) == LvlOf(t, x)
    ensures SameLevel(t, g, t', g, lvl)
  {
    hide Sound, LvlOf, NodeGood;
    forall x | x in t.pages ensures Ranged(g, x) {
      GoodNode(t, g, x);
      NodeRanged(t, g, x);
    }
  }
}
