/** The B-link tree index: setting it up, inserting keys, and splitting pages on the way. */
module BtreeIndex {
  import opened BtreePages
  import opened BtreeInsertSlot
  import opened BtreeSplit
  import opened BtreeTree
  import opened BtreeStages
  import opened BtreeStep
  import opened BtreeLink
  import opened BtreePost
  import opened BtreeFix
  import opened BtreeRoot
  import opened BtreeInsert
  import opened BtreeHeight
  import opened BtreeSpill

  // ---------- the slot found for a key ----------

  /** The index of the entry behind a slot. */
  function EntryIndex(p: Page, slot: nat): nat
    requires 0 < slot <= |p.slots|
  {
    |EntriesTo(p, slot - 1)|
  }

  /** The page and slot that LoadPage answers. */
  ghost predicate Loaded(t: Tree, g: Ranges, n: nat, slot: nat, key: int) {
    Owns(t, g, n, key) && FirstAbove(t.pages[n], slot, key)
  }

  lemma {:induction false} LoadedEntry(t: Tree, g: Ranges, n: nat, slot: nat, key: int)
    requires Sound(t, g) && Loaded(t, g, n, slot, key)
    ensures n in t.pages && 0 < slot <= |t.pages[n].slots| && PageOk(t.pages[n], PAGE_SIZE)
    ensures Belongs(t.pages[n], slot - 1, key) && EntryOwns(t, g, n, EntryIndex(t.pages[n], slot), Fin(key))
  {
    hide Sound, Entries, EntriesTo, PageOk, KeyAt, Le, Lt, Prev;
    FoundOwner(t, g, n, key, slot);
    SearchReady(t, g, n);
  }

  /** Installing the key at the slot found is posting an entry, unless the key is there already. */
  lemma {:induction false} InsertPosts(t: Tree, g: Ranges, n: nat, slot: nat, cell: Cell, p': Page)
    requires Sound(t, g) && Loaded(t, g, n, slot, cell.key)
    requires n in t.pages && 0 < slot <= |t.pages[n].slots| && EntryIndex(t.pages[n], slot) < |Es(t, n)|
    requires Es(t, n)[EntryIndex(t.pages[n], slot)].key != Fin(cell.key)
    requires PageOk(p', PAGE_SIZE) && p'.lvl == t.pages[n].lvl && p'.right == t.pages[n].right
    requires Entries(p') == InsertAt(Es(t, n), EntryIndex(t.pages[n], slot), Entry(Fin(cell.key), cell))
    ensures PostOf(t, g, Tree(t.root, t.pages[n := p']), n, p', EntryIndex(t.pages[n], slot), cell.key, cell)
  {
    hide Sound, Entries, EntriesTo, PageOk, KeyAt, Prev, InsertAt, Loaded;
    LoadedEntry(t, g, n, slot, cell.key);
  }

  /** What is pending on a level: the fences of page `p` and its new right page `r`. */
  ghost predicate Pending(t: Tree, g: Ranges, lvl: int, p: nat, r: nat, key: int) {
    && lvl >= 0 && LevelFits(t, g, lvl, Linked(p, r)) && p in t.pages && r in t.pages
    && LvlOf(t, p) == lvl && LvlOf(t, r) == lvl && Ranged(g, p) && Ranged(g, r)
    && g.hi[p] == Fin(key) && g.lo[r] == g.hi[p]
  }

  lemma {:induction false} PendingKept(t: Tree, g: Ranges, t': Tree, g': Ranges, lvl: int, p: nat, r: nat, key: int)
    requires Pending(t, g, lvl, p, r, key) && KeepsBelow(t, g, t', g', lvl + 1)
    ensures Pending(t', g', lvl, p, r, key)
  {
    hide LevelFits;
    assert SamePage(t, g, t', g', p) && SamePage(t, g, t', g', r);
  }

  /** The fence of the split page is new to the level above. */
  lemma {:induction false} FenceIsNew(t: Tree, g: Ranges, lvl: nat, p: nat, r: nat, key: int, n: nat, i: nat)
    requires Sound(t, g) && Pending(t, g, lvl, p, r, key) && LvlOf(t, n) == lvl + 1 && EntryOwns(t, g, n, i, Fin(key))
    ensures i < |Es(t, n)| && Es(t, n)[i].key != Fin(key)
  {
    hide Sound, LevelFits, Es, Prev;
    LinkedEntry(t, g, lvl, p, r, n, i);
    PageRange(t, g, r);
  }

  lemma {:induction false} KeyIsNew(t: Tree, g: Ranges, n: nat, i: nat, key: int)
    requires EntryOwns(t, g, n, i, Fin(key)) && LvlOf(t, n) == 0 && !Stored(t, key)
    ensures i < |Es(t, n)| && Es(t, n)[i].key != Fin(key)
  {
    hide Es, Prev;
    if Es(t, n)[i].key == Fin(key) { StoredAt(t, n, i, key); }
  }

  /** The fence posted: what the insertion of a fence achieves. */
  ghost predicate FencePosted(t: Tree, g: Ranges, t': Tree, g': Ranges, lvl: nat, p: nat, r: nat, key: int, len: nat) {
    && SameCells(t, t', lvl) && OneCellMore(t, t', lvl + 1, key, len) && AllTight(t', g', lvl + 1) && LevelFits(t', g', lvl, Posted(p, r))
    && KeepsBelow(t, g, t', g', lvl) && PagesBelow(t, g, t', g', lvl + 1)
  }

  lemma {:induction false} PostedFence(
      t: Tree, g: Ranges, lvl: nat, p: nat, r: nat, n: nat, slot: nat, cell: Cell, p': Page)
    requires Sound(t, g) && Short(t) && AllTight(t, g, lvl + 1) && Pending(t, g, lvl, p, r, cell.key)
    requires Loaded(t, g, n, slot, cell.key) && LvlOf(t, n) == lvl + 1 && cell.child == p
    requires n in t.pages && 0 < slot <= |t.pages[n].slots| && EntryIndex(t.pages[n], slot) <= |Es(t, n)|
    requires PageOk(p', PAGE_SIZE) && p'.lvl == t.pages[n].lvl && p'.right == t.pages[n].right
    requires Entries(p') == InsertAt(Es(t, n), EntryIndex(t.pages[n], slot), Entry(Fin(cell.key), cell))
    requires cell.len <= MaxLen(lvl + 1) && |p'.slots| <= |t.pages[n].slots| + 1
    ensures var t' := Tree(t.root, t.pages[n := p']);
            && Sound(t', g) && Short(t') && FencePosted(t, g, t', g, lvl, p, r, cell.key, cell.len)
  {
    hide Sound, LevelFits, Es, Entries, Loaded, PostOf, PageOk, InsertAt, EntryOwns, EntryIndex, Holds, Short, ShortPage;
    var t', i := Tree(t.root, t.pages[n := p']), EntryIndex(t.pages[n], slot);
    LoadedEntry(t, g, n, slot, cell.key);
    FenceIsNew(t, g, lvl, p, r, cell.key, n, i);
    InsertPosts(t, g, n, slot, cell, p');
    PostDone(t, g, t', n, p', i, cell.key, cell, lvl, p, r);
    ShortPosted(t, n, p', i, cell);
  }

  lemma {:induction false} ShortPosted(t: Tree, n: nat, p': Page, i: nat, cell: Cell)
    requires Short(t) && n in t.pages && p'.lvl == t.pages[n].lvl && i <= |Es(t, n)|
    requires Entries(p') == InsertAt(Es(t, n), i, Entry(Fin(cell.key), cell)) && cell.len <= MaxLen(p'.lvl)
    requires |p'.slots| <= |t.pages[n].slots| + 1
    ensures Short(Tree(t.root, t.pages[n := p']))
  {
    hide ShortPage, Entries, InsertAt;
    ShortAt(t, n);
    ShortInsert(t.pages[n], p', i, Entry(Fin(cell.key), cell));
    ShortOnePage(t, Tree(t.root, t.pages[n := p']), n, p');
  }

  lemma {:induction false} StoredKey(t: Tree, g: Ranges, n: nat, slot: nat, cell: Cell, p': Page)
    requires Sound(t, g) && Short(t) && AllTight(t, g, 0) && !Stored(t, cell.key)
    requires Loaded(t, g, n, slot, cell.key) && LvlOf(t, n) == 0
    requires n in t.pages && 0 < slot <= |t.pages[n].slots| && EntryIndex(t.pages[n], slot) <= |Es(t, n)|
    requires PageOk(p', PAGE_SIZE) && p'.lvl == t.pages[n].lvl && p'.right == t.pages[n].right
    requires Entries(p') == InsertAt(Es(t, n), EntryIndex(t.pages[n], slot), Entry(Fin(cell.key), cell))
    requires cell.len <= MaxLen(0) && |p'.slots| <= |t.pages[n].slots| + 1
    ensures var t' := Tree(t.root, t.pages[n := p']);
            && Sound(t', g) && Short(t') && OneCellMore(t, t', 0, cell.key, cell.len) && AllTight(t', g, 0)
  {
    hide Sound, LevelFits, Es, Entries, Loaded, PostOf, PageOk, InsertAt, EntryOwns, EntryIndex, Holds, Short, ShortPage;
    var t', i := Tree(t.root, t.pages[n := p']), EntryIndex(t.pages[n], slot);
    LoadedEntry(t, g, n, slot, cell.key);
    KeyIsNew(t, g, n, i, cell.key);
    InsertPosts(t, g, n, slot, cell, p');
    LeafDone(t, g, t', n, p', i, cell.key, cell);
    ShortPosted(t, n, p', i, cell);
  }

  // ---------- the stopper ----------

  lemma {:induction false} LastEntry(t: Tree, g: Ranges, n: nat)
    requires Sound(t, g) && n in t.pages && Ranged(g, n) && g.hi[n] == High
    ensures PageOk(t.pages[n], PAGE_SIZE) && |t.pages[n].slots| > 0 && !t.pages[n].slots[|t.pages[n].slots| - 1].dead
    ensures var i := EntryIndex(t.pages[n], |t.pages[n].slots|); i == |Es(t, n)| - 1 && EntryOwns(t, g, n, i, High)
    ensures Es(t, n)[|Es(t, n)| - 1].cell == CellAt(t.pages[n], |t.pages[n].slots| - 1)
  {
    hide Sound, PageOk, Increasing, RightGood, Le, Lt, KeyAt, CellAt;
    GoodNode(t, g, n);
    var p := t.pages[n];
    PageParts(p, PAGE_SIZE);
    LastLive(p);
    EntryOfSlot(p, |p.slots| - 1);
    LastIndex(p);
    EntryAbove(g.lo[n], Es(t, n), |Es(t, n)| - 1);
    LeSelf(High);
  }

  lemma {:induction false} LastIndex(p: Page)
    requires |p.slots| > 0 && !p.slots[|p.slots| - 1].dead
    ensures |EntriesTo(p, |p.slots| - 1)| == |Entries(p)| - 1
  {
  }

  /** On tight levels the last entry of the rightmost page leads to the rightmost page below. */
  lemma {:induction false} LastChild(t: Tree, g: Ranges, n: nat, lvl: nat)
    requires Sound(t, g) && n in t.pages && Ranged(g, n) && g.hi[n] == High
    requires LvlOf(t, n) == lvl + 1 && LevelFits(t, g, lvl, Tight)
    ensures |Es(t, n)| > 0
    ensures var c := Es(t, n)[|Es(t, n)| - 1].cell.child; c in t.pages && Ranged(g, c) && g.hi[c] == High && LvlOf(t, c) == lvl
  {
    hide Sound, LevelFits, Es, Prev, PageOk, EntryIndex;
    LastEntry(t, g, n);
    EntryWas(t, g, lvl, Tight, n, |Es(t, n)| - 1);
    GoodNode(t, g, n);
    GoodEntries(t, g, n);
  }

  lemma {:induction false} RootTop(t: Tree, g: Ranges)
    requires Sound(t, g)
    ensures t.root in t.pages && Ranged(g, t.root) && g.hi[t.root] == High && LvlOf(t, t.root) > 0
  {
    hide Sound, PageGood;
    RootAlone(t, g);
    RootIn(t, g);
    GoodNode(t, g, t.root);
  }

  /** btreeLoadPage asked for the stopper: down the last slots to the rightmost page of the level. */
  method LoadStopper(t: Tree, ghost g: Ranges, lvl: nat) returns (n: nat, slot: nat)
    requires Sound(t, g) && AllTight(t, g, lvl) && lvl <= LvlOf(t, t.root)
    ensures n in t.pages && Ranged(g, n) && LvlOf(t, n) == lvl && g.hi[n] == High && slot == |t.pages[n].slots|
  {
    hide Sound, LevelFits, Es, PageOk;
    RootTop(t, g);
    n := t.root;
    while t.pages[n].lvl > lvl
      invariant n in t.pages && Ranged(g, n) && g.hi[n] == High && LvlOf(t, n) >= lvl
      decreases LvlOf(t, n)
    {
      LastEntry(t, g, n);
      LastChild(t, g, n, LvlOf(t, n) - 1);
      n := CellAt(t.pages[n], |t.pages[n].slots| - 1).child;
    }
    slot := |t.pages[n].slots|;
  }

  /** The right fence repointed: a split is complete. */
  ghost predicate Fixed(t: Tree, g: Ranges, t': Tree, g': Ranges, lvl: nat) {
    SameCells(t, t', lvl) && AllTight(t', g', lvl) && KeepsBelow(t, g, t', g', lvl)
  }

  lemma {:induction false} FixedFence(t: Tree, g: Ranges, lvl: nat, p: nat, r: nat, n: nat, live: nat)
    requires Sound(t, g) && Short(t) && AllTight(t, g, lvl + 1) && LevelFits(t, g, lvl, Posted(p, r))
    requires r in t.pages && Ranged(g, r) && LvlOf(t, r) == lvl && LvlOf(t, n) == lvl + 1
    requires n in t.pages && 0 < live <= |t.pages[n].slots| && !t.pages[n].slots[live - 1].dead
    requires EntryOwns(t, g, n, EntryIndex(t.pages[n], live), g.hi[r])
    ensures var t' := Tree(t.root, t.pages[n := WithChild(t.pages[n], live - 1, r)]);
            && Sound(t', g) && Short(t') && Fixed(t, g, t', g, lvl) && PagesBelow(t, g, t', g, lvl + 1)
            && SameCells(t, t', lvl + 1)
            && |Es(t', n)| == |Es(t, n)| && t'.pages[n].lvl == t.pages[n].lvl
  {
    hide Sound, LevelFits, Entries, FixOf, PageOk, EntryOwns, EntriesTo, Holds, Short, ShortPage, WithChild;
    var page := t.pages[n];
    var p' := WithChild(page, live - 1, r);
    var t', i := Tree(t.root, t.pages[n := p']), EntryIndex(page, live);
    SearchReady(t, g, n);
    ChildOk(page, PAGE_SIZE, live - 1, r);
    ChildSlots(page, live - 1, r);
    EntryRanged(t, g, n, i, g.hi[r]);
    FixIs(t, g, n, p', i, r);
    FixDone(t, g, t', n, p', i, lvl, p, r);
    CellsAbove(t, t', lvl + 1);
    ShortAt(t, n);
    ShortChild(page, p', i, r);
    ShortOnePage(t, t', n, p');
  }

  lemma {:induction false} ChildSlots(p: Page, i: nat, c: nat)
    requires i < |p.slots|
    ensures WithChild(p, i, c).slots == p.slots
  {
  }

  lemma {:induction false} EntryRanged(t: Tree, g: Ranges, n: nat, i: nat, b: Bound)
    requires EntryOwns(t, g, n, i, b)
    ensures n in t.pages && Ranged(g, n) && i < |Es(t, n)|
  {
    hide Es, Prev;
  }

  lemma {:induction false} FixIs(t: Tree, g: Ranges, q: nat, p': Page, i: nat, r: nat)
    requires q in t.pages && Ranged(g, q) && i < |Es(t, q)|
    requires PageOk(p', PAGE_SIZE) && p'.lvl == t.pages[q].lvl && p'.right == t.pages[q].right
    requires Entries(p') == Es(t, q)[i := Entry(Es(t, q)[i].key, Es(t, q)[i].cell.(child := r))]
    ensures FixOf(t, g, Tree(t.root, t.pages[q := p']), q, p', i, r)
  {
    hide Entries, PageOk;
  }

  // ---------- splitting ----------

  /** What a finished page split leaves behind. */
  lemma {:induction false} SplitChain(
      t: Tree, g: Ranges, t1: Tree, g1: Ranges, t2: Tree, g2: Ranges, t3: Tree, g3: Ranges, lvl: nat, p: nat, r: nat,
      key: int, len: nat)
    requires SameCells(t, t1, lvl + 1) && KeepsBelow(t, g, t1, g1, lvl)
    requires FencePosted(t1, g1, t2, g2, lvl, p, r, key, len) && Fixed(t2, g2, t3, g3, lvl) && SameCells(t2, t3, lvl + 1)
    ensures Fixed(t, g, t3, g3, lvl) && OneCellMore(t, t3, lvl + 1, key, len)
  {
    hide KeepsBelow, SameCells, AllTight, LevelFits, PagesBelow, OneCellMore;
    KeepsTrans(t, g, t1, g1, t2, g2, lvl);
    KeepsTrans(t, g, t2, g2, t3, g3, lvl);
    SameCellsTrans(t, t1, t2, lvl + 1, lvl, lvl);
    SameCellsTrans(t, t2, t3, lvl, lvl, lvl);
    CellsAbove(t, t1, lvl + 1);
    CellsAbove(t2, t3, lvl + 1);
    OneMoreAfter(t, t1, t2, lvl + 1, key, len);
    OneMoreBefore(t, t2, t3, lvl + 1, key, len);
  }

  lemma {:induction false} CellsAbove(t: Tree, t': Tree, lvl: nat)
    requires SameCells(t, t', lvl)
    ensures forall k: nat | k <= lvl :: SameCells(t, t', k)
  {
    hide Holds;
  }

  /** The last cell of a half: the key of its fence. */
  lemma {:induction false} FenceCell(t: Tree, g: Ranges, n: nat, r: nat, lp: Page, rp: Page)
    requires Sound(t, g) && n in t.pages && Halved(t.pages[n], lp, rp, PAGE_SIZE, r) && r != 0
    ensures PageOk(lp, PAGE_SIZE) && |lp.slots| > 0 && Fence(lp) == Fin(CellAt(lp, |lp.slots| - 1).key)
    ensures |Entries(lp)| > 0 && Entries(lp)[|Entries(lp)| - 1].cell == CellAt(lp, |lp.slots| - 1)
  {
    hide Sound, Entries, SpaceOk, SortedPage;
    LastLive(lp);
    EntryOfSlot(lp, |lp.slots| - 1);
    LastIndexIs(lp);
  }

  lemma {:induction false} LastIndexIs(p: Page)
    requires SlotsOk(p)
    ensures |p.slots| > 0 && p.slots[|p.slots| - 1] in p.slots && |EntriesTo(p, |p.slots| - 1)| == |Entries(p)| - 1
  {
    LastLive(p);
    LastIndex(p);
  }

  lemma {:induction false} CellLength(p: Page)
    requires PageOk(p, PAGE_SIZE) && ShortPage(p) && |Entries(p)| > 0 && |p.slots| > 0
    requires Entries(p)[|Entries(p)| - 1].cell == CellAt(p, |p.slots| - 1)
    ensures 0 < CellAt(p, |p.slots| - 1).len <= MaxLen(p.lvl)
  {
    hide Entries, SlotsOk, SortedPage, CellAt;
    assert Entries(p)[|Entries(p)| - 1] in Entries(p);
  }

  lemma {:induction false} FenceLenOk(lvl: nat, len: nat)
    requires 0 < len <= MaxLen(lvl)
    ensures 0 < FenceLen(lvl, len) <= LONGEST
  {
  }

  // ---------- search, at any point of any split ----------

  lemma {:induction false} StoredOwns(t: Tree, g: Ranges, n: nat, i: nat, key: int)
    requires Sound(t, g) && n in t.pages && i < |Es(t, n)| && Es(t, n)[i].key == Fin(key)
    ensures EntryOwns(t, g, n, i, Fin(key))
  {
    hide Sound, Es, PageOk, RightGood, Increasing;
    GoodNode(t, g, n);
    GoodEntries(t, g, n);
    EntryAbove(g.lo[n], Es(t, n), i);
  }

  /** The search on the leaves decides whether a key is stored: the entry it finds has that key or nothing has. */
  lemma {:induction false} SearchDecides(t: Tree, g: Ranges, n: nat, slot: nat, key: int)
    requires Sound(t, g) && Loaded(t, g, n, slot, key) && LvlOf(t, n) == 0
    ensures n in t.pages && 0 < slot <= |t.pages[n].slots| && EntryIndex(t.pages[n], slot) < |Es(t, n)|
    ensures Stored(t, key) <==> Es(t, n)[EntryIndex(t.pages[n], slot)].key == Fin(key)
  {
    hide Sound, Loaded, Es, LvlOf, PageOk, EntryIndex, EntryOwns;
    LoadedEntry(t, g, n, slot, key);
    EntryRanged(t, g, n, EntryIndex(t.pages[n], slot), Fin(key));
    if Stored(t, key) {
      var x, i := StoredWhere(t, key);
      StoredOwns(t, g, x, i, key);
      EntryOnce(t, g, n, EntryIndex(t.pages[n], slot), x, i, Fin(key));
    }
    if Es(t, n)[EntryIndex(t.pages[n], slot)].key == Fin(key) {
      StoredAt(t, n, EntryIndex(t.pages[n], slot), key);
    }
  }

  // ---------- the empty index ----------

  /** btreeInit: a leaf and a root above it, each with a stopper. */
  function InitLeaf(): Page {
    Page(0, 0, PAGE_SIZE - 1, 1, [Slot(PAGE_SIZE - 1, Stopper, false)], map[PAGE_SIZE - 1 := Cell(EMPTY, 1, 0)])
  }

  function InitRoot(leaf: nat): Page {
    Page(1, 0, PAGE_SIZE - 10, 1, [Slot(PAGE_SIZE - 10, Stopper, false)], map[PAGE_SIZE - 10 := Cell(EMPTY, 10, leaf)])
  }

  lemma {:induction false} OneSlotPage(p: Page, cell: Cell)
    requires p.right == 0 && p.act == 1 && 0 < cell.len <= 10 && p.min == PAGE_SIZE - cell.len && p.cells == map[p.min := cell]
    requires p.slots == [Slot(p.min, Stopper, false)]
    ensures PageOk(p, PAGE_SIZE) && Entries(p) == [Entry(High, cell)] && PageGood(p, Low, High) && ShortPage(p)
  {
    assert EntriesTo(p, 0) == [];
    assert EntriesTo(p, 1) == [] + [Entry(KeyAt(p, 0), CellAt(p, 0))];
    assert Entries(p)[..0] == [];
  }

  /** A root over one leaf, with one entry each. */
  ghost predicate TwoPages(t: Tree, g: Ranges) {
    && t.root == 2 && (forall n :: n in t.pages <==> n == 1 || n == 2) && LvlOf(t, 1) == 0 && LvlOf(t, 2) == 1
    && |Es(t, 1)| == 1 && |Es(t, 2)| == 1 && Es(t, 1)[0].key == High && Es(t, 2)[0].key == High && Es(t, 2)[0].cell.child == 1
    && PageGood(t.pages[1], Low, High) && PageGood(t.pages[2], Low, High)
    && t.pages[1].right == 0 && t.pages[2].right == 0
    && Ranged(g, 1) && Ranged(g, 2) && g.lo[1] == g.lo[2] == Low && g.hi[1] == g.hi[2] == High
  }

  lemma {:induction false} InitEntries(t: Tree, g: Ranges)
    requires t == Tree(2, map[1 := InitLeaf(), 2 := InitRoot(1)])
    requires g == Ranges(map[1 := Low, 2 := Low], map[1 := High, 2 := High])
    ensures TwoPages(t, g)
  {
    hide PageOk, Entries, PageGood, ShortPage;
    OneSlotPage(InitLeaf(), Cell(EMPTY, 1, 0));
    OneSlotPage(InitRoot(1), Cell(EMPTY, 10, 1));
  }

  lemma {:induction false} InitTree(t: Tree, g: Ranges)
    requires TwoPages(t, g)
    ensures Sound(t, g)
  {
    hide Es, LvlOf, PageGood;
    assert PageFits(t, g, 1) && PageFits(t, g, 2);
    hide PageFits;
    AllPages(t, g);
    AllSound(t, g);
  }

  lemma {:induction false} InitLevels(t: Tree, g: Ranges)
    requires TwoPages(t, g)
    ensures AllTight(t, g, 0) && forall key :: !Stored(t, key)
  {
    hide Es, LvlOf, PageGood;
    assert EntryFits(t, g, 2, 0, Tight);
    forall k: nat ensures LevelFits(t, g, k, Tight) { LevelIs(t, g, k, Tight); }
  }

  lemma {:induction false} InitSound(t: Tree, g: Ranges)
    requires t == Tree(2, map[1 := InitLeaf(), 2 := InitRoot(1)])
    requires g == Ranges(map[1 := Low, 2 := Low], map[1 := High, 2 := High])
    ensures Sound(t, g) && Short(t) && Stops(t) && Narrow(t) && AllTight(t, g, 0) && forall key :: !Stored(t, key)
  {
    hide *;
    InitEntries(t, g);
    InitTree(t, g);
    InitLevels(t, g);
    InitPages(t);
  }

  lemma {:induction false} InitPages(t: Tree)
    requires t == Tree(2, map[1 := InitLeaf(), 2 := InitRoot(1)])
    ensures Short(t) && Stops(t) && Narrow(t)
  {
    hide PageOk, Entries, PageGood, Lean;
    OneSlotPage(InitLeaf(), Cell(EMPTY, 1, 0));
    OneSlotPage(InitRoot(1), Cell(EMPTY, 10, 1));
  }

  // ---------- what the methods below string together ----------

  lemma {:induction false} Start(t: Tree, g: Ranges, lvl: nat)
    requires Sound(t, g)
    ensures SameCells(t, t, lvl) && KeepsBelow(t, g, t, g, lvl)
  {
    hide Sound, KeepsBelow;
    KeepsSelf(t, g, lvl);
  }

  lemma {:induction false} LoadedIs(t: Tree, g: Ranges, n: nat, slot: nat, key: int)
    requires Owns(t, g, n, key) && FirstAbove(t.pages[n], slot, key)
    ensures Loaded(t, g, n, slot, key)
  {
  }

  lemma {:induction false} SiteIs(p: Page, slot: nat, cell: Cell)
    requires slot > 0 && PageOk(p, PAGE_SIZE) && Belongs(p, slot - 1, cell.key) && Room(p, cell.len) && cell.len > 0
    ensures InsertSite(p, PAGE_SIZE, slot - 1, cell, Indexed)
  {
    hide PageOk, Belongs;
  }

  lemma {:induction false} PostedChain(
      t: Tree, g: Ranges, t1: Tree, g1: Ranges, t2: Tree, g2: Ranges, lvl: nat, p: nat, r: nat, key: int, len: nat)
    requires SameCells(t, t1, lvl + 1) && KeepsBelow(t, g, t1, g1, lvl + 1)
    requires FencePosted(t1, g1, t2, g2, lvl, p, r, key, len)
    ensures FencePosted(t, g, t2, g2, lvl, p, r, key, len)
  {
    hide SameCells, AllTight, LevelFits, LvlOf, SamePage, OneCellMore;
    SameCellsTrans(t, t1, t2, lvl + 1, lvl, lvl);
    OneMoreAfter(t, t1, t2, lvl + 1, key, len);
    KeepsLower(t, g, t1, g1, lvl + 1, lvl);
    KeepsTrans(t, g, t1, g1, t2, g2, lvl);
    PagesTrans(t, g, t1, g1, t2, g2, lvl + 1);
  }

  lemma {:induction false} RootRises(t: Tree, g: Ranges, t': Tree, g': Ranges, lvl: nat)
    requires Fixed(t, g, t', g', lvl)
    ensures LvlOf(t', t'.root) >= LvlOf(t, t.root) && SameCells(t, t', lvl) && AllTight(t', g', lvl)
  {
    hide SameCells, AllTight, LvlOf, PagesBelow, LevelFits;
  }

  lemma {:induction false} FixedChain(t: Tree, g: Ranges, t1: Tree, g1: Ranges, t2: Tree, g2: Ranges, lvl: nat)
    requires SameCells(t, t1, lvl) && KeepsBelow(t, g, t1, g1, lvl) && Fixed(t1, g1, t2, g2, lvl)
    ensures SameCells(t, t2, lvl) && KeepsBelow(t, g, t2, g2, lvl)
  {
    hide SameCells, AllTight, KeepsBelow;
    SameCellsTrans(t, t1, t2, lvl, lvl, lvl);
    KeepsTrans(t, g, t1, g1, t2, g2, lvl);
  }

  lemma {:induction false} PendingFixed(t: Tree, g: Ranges, t': Tree, g': Ranges, lvl: nat, p: nat, r: nat, key: int)
    requires Pending(t, g, lvl, p, r, key) && Fixed(t, g, t', g', lvl + 1)
    ensures Pending(t', g', lvl, p, r, key)
  {
    hide SameCells, AllTight, KeepsBelow, Pending;
    PendingKept(t, g, t', g', lvl, p, r, key);
  }

  /** The tree right after linking, in the terms of what comes next. */
  ghost predicate JustLinked(t: Tree, g: Ranges, t': Tree, g': Ranges, lvl: nat, n: nat, r: nat, key: int) {
    && Sound(t', g') && Short(t') && SameCells(t, t', lvl + 1) && KeepsBelow(t, g, t', g', lvl) && AllTight(t', g', lvl + 1)
    && Pending(t', g', lvl, n, r, key) && LvlOf(t', t'.root) == LvlOf(t, t.root)
  }

  lemma {:induction false} LinkIs(t: Tree, g: Ranges, n: nat, r: nat, lp: Page, rp: Page)
    requires n in t.pages && Ranged(g, n) && n != t.root && r != 0 && r !in t.pages
    requires Halved(t.pages[n], lp, rp, PAGE_SIZE, r)
    ensures LinkOf(t, g, Tree(t.root, t.pages[n := lp][r := rp]),
                   Ranges(g.lo[r := Fence(lp)], g.hi[n := Fence(lp)][r := g.hi[n]]), n, r, lp, rp)
  {
    hide Halved, Fence;
  }

  lemma {:induction false} LinkHere(
      t: Tree, g: Ranges, t': Tree, g': Ranges, n: nat, r: nat, lp: Page, rp: Page, lvl: nat, key: int)
    requires Sound(t, g) && Short(t) && AllTight(t, g, lvl) && LvlOf(t, n) == lvl
    requires LinkOf(t, g, t', g', n, r, lp, rp) && Fence(lp) == Fin(key)
    ensures JustLinked(t, g, t', g', lvl, n, r, key)
  {
    hide Sound, Short, LinkOf, LevelFits, Fence, KeepsBelow, SameCells, AllTight;
    LinkDone(t, g, t', g', n, r, lp, rp, lvl);
    LinkFacts(t, g, t', g', n, r, lp, rp);
  }

  lemma {:induction false} NodeIsRanged(t: Tree, g: Ranges, n: nat)
    requires Sound(t, g) && n in t.pages
    ensures Ranged(g, n)
  {
    hide Sound, NodeGood;
    GoodNode(t, g, n);
    NodeRanged(t, g, n);
  }

  lemma {:induction false} FreshNumber(t: Tree, next: nat, r: nat)
    requires Numbered(t, next) && r >= next
    ensures r !in t.pages
  {
  }

  lemma {:induction false} RootIs(t: Tree, g: Ranges, l: nat, r: nat, lp: Page, rp: Page, np: Page, m: int, len: nat)
    requires t.root in t.pages && Ranged(g, t.root) && l != 0 && r != 0 && l != r && l !in t.pages && r !in t.pages
    requires Halved(t.pages[t.root], lp, rp, PAGE_SIZE, r) && Fence(lp) == Fin(m)
    requires PageOk(np, PAGE_SIZE) && np.lvl == t.pages[t.root].lvl + 1 && np.right == 0
    requires Entries(np) == RootEntries(m, len, l, r)
    ensures RootSplitOf(t, g, Tree(t.root, t.pages[t.root := np][l := lp][r := rp]),
                        Ranges(g.lo[l := Low][r := Fence(lp)], g.hi[l := Fence(lp)][r := High]), l, r, lp, rp, np)
  {
    hide Halved, Fence, Entries, PageOk;
  }

  lemma {:induction false} NewRootOk(m: int, len: nat, l: nat, r: nat, lvl: nat)
    requires 0 < len <= LONGEST && lvl > 0
    ensures var np := RootPage(m, len, l, r, lvl);
            && PageOk(np, PAGE_SIZE) && ShortPage(np) && np.lvl == lvl && np.right == 0 && |np.slots| == 2
            && Entries(np) == RootEntries(m, len, l, r)
  {
    hide PageOk, ShortPage, Entries, RootPage;
    RootPageOk(m, len, l, r, lvl);
    RootPageShape(m, len, l, r, lvl);
    ShortRoot(m, len, l, r, lvl, RootPage(m, len, l, r, lvl));
  }

  lemma {:induction false} RootHere(
      t: Tree, g: Ranges, t': Tree, g': Ranges, l: nat, r: nat, lp: Page, rp: Page, np: Page, lvl: nat)
    requires Sound(t, g) && Short(t) && LvlOf(t, t.root) == lvl && ShortPage(np)
    requires RootSplitOf(t, g, t', g', l, r, lp, rp, np)
    ensures Sound(t', g') && Short(t') && Fixed(t, g, t', g', lvl)
  {
    hide Sound, Short, RootSplitOf, KeepsBelow, SameCells, AllTight, ShortPage;
    SplitDone(t, g, t', g', l, r, lp, rp, np, lvl);
  }

  lemma {:induction false} RootPageShape(m: int, len: nat, l: nat, r: nat, lvl: nat)
    requires len + 10 <= PAGE_SIZE
    ensures RootPage(m, len, l, r, lvl).lvl == lvl && RootPage(m, len, l, r, lvl).right == 0
    ensures |RootPage(m, len, l, r, lvl).slots| == 2
  {
  }

  /** The right page of a split still stands as it was linked. */
  lemma {:induction false} RightPage(
      t: Tree, g: Ranges, t': Tree, g': Ranges, lvl: nat, p: nat, r: nat, key: int, len: nat)
    requires Pending(t, g, lvl, p, r, key) && FencePosted(t, g, t', g', lvl, p, r, key, len)
    ensures r in t'.pages && r in t.pages && t'.pages[r] == t.pages[r] && LvlOf(t', r) == lvl
    ensures Ranged(g', r) && Ranged(g, r) && g'.hi[r] == g.hi[r] && LevelFits(t', g', lvl, Posted(p, r))
    ensures AllTight(t', g', lvl + 1) && LvlOf(t', t'.root) >= LvlOf(t, t.root)
  {
    hide LevelFits, SameCells, AllTight;
    assert SamePage(t, g, t', g', r);
  }

  /** The fence of a page as btreeFixKey gets it: its last key, or the stopper. */
  lemma {:induction false} RightFence(t: Tree, g: Ranges, r: nat)
    requires Sound(t, g) && r in t.pages && Ranged(g, r)
    ensures |t.pages[r].slots| > 0
    ensures g.hi[r] == if t.pages[r].right == 0 then High else Fin(CellAt(t.pages[r], |t.pages[r].slots| - 1).key)
  {
    hide Sound, SpaceOk, Entries;
    GoodNode(t, g, r);
    var p := t.pages[r];
    PageParts(p, PAGE_SIZE);
    EntriesSorted(p);
    assert p.slots[|p.slots| - 1] in p.slots;
  }

  /** The slot that btreeFixKey repoints owns the fence. */
  lemma {:induction false} FixSlot(t: Tree, g: Ranges, n: nat, slot: nat, live: nat, key: int)
    requires Sound(t, g) && Loaded(t, g, n, slot, key) && n in t.pages
    requires 0 < slot <= live <= |t.pages[n].slots| && !t.pages[n].slots[live - 1].dead
    requires forall i | slot - 1 <= i < live - 1 :: t.pages[n].slots[i].dead
    ensures EntryOwns(t, g, n, EntryIndex(t.pages[n], live), Fin(key))
  {
    hide Sound, Loaded, EntriesTo, Entries, KeyAt, CellAt, PageOk, Prev;
    LoadedEntry(t, g, n, slot, key);
    SearchReady(t, g, n);
    LiveEntry(t.pages[n], slot, live);
  }

  // ---------- stoppers and misplaced fences through the steps ----------

  lemma {:induction false} StopsOnePage(t: Tree, t': Tree, q: nat, p': Page)
    requires Stops(t) && Marked(p') && t'.pages == t.pages[q := p']
    ensures Stops(t')
  {
    hide Marked;
  }

  lemma {:induction false} StopsAt(t: Tree, n: nat)
    requires Stops(t) && n in t.pages
    ensures Marked(t.pages[n])
  {
    hide Marked;
  }

  lemma {:induction false} StopsSplit(t: Tree, t': Tree, n: nat, r: nat, lp: Page, rp: Page)
    requires Stops(t) && Marked(lp) && Marked(rp) && t'.pages == t.pages[n := lp][r := rp]
    ensures Stops(t')
  {
    hide Marked;
  }

  lemma {:induction false} StopsRoot(t: Tree, t': Tree, n: nat, l: nat, r: nat, lp: Page, rp: Page, np: Page)
    requires Stops(t) && Marked(lp) && Marked(rp) && Marked(np) && t'.pages == t.pages[n := np][l := lp][r := rp]
    ensures Stops(t')
  {
    hide Marked;
  }

  /** btreeFixKey's test on a right page, where the slots are marked as the tree marks them. */
  lemma {:induction false} StopperSlot(p: Page)
    requires SlotsOk(p) && Marked(p)
    ensures |p.slots| > 0 && (p.slots[|p.slots| - 1].typ == Stopper <==> p.right == 0 && p.lvl <= 1)
    ensures Completes(p) <==> p.right != 0 || p.lvl <= 1
    ensures p.right == 0 ==> CellAt(p, |p.slots| - 1).key == EMPTY
  {
    assert MarkedSlot(p, |p.slots| - 1);
  }

  lemma {:induction false} LastKey(p: Page)
    requires Marked(p) && |p.slots| > 0 && p.right != 0
    ensures CellAt(p, |p.slots| - 1).key >= 0
  {
    assert MarkedSlot(p, |p.slots| - 1);
  }

  lemma {:induction false} Found(t: Tree, g: Ranges)
    requires Sound(t, g)
    ensures Searchable(t)
  {
  }

  /** The entry that the empty key finds is repointed, and with it the tree is no longer searchable. */
  lemma {:induction false} WrongFence(t: Tree, g: Ranges, lvl: nat, p: nat, r: nat, n: nat, live: nat)
    requires Sound(t, g) && Stops(t) && r != 0 && p in t.pages && t.pages[p].right == r
    requires LvlOf(t, p) == lvl && LvlOf(t, n) == lvl + 1
    requires n in t.pages && 0 < live <= |t.pages[n].slots| && !t.pages[n].slots[live - 1].dead
    requires EntryOwns(t, g, n, EntryIndex(t.pages[n], live), Fin(EMPTY))
    ensures var t' := Tree(t.root, t.pages[n := WithChild(t.pages[n], live - 1, r)]); !Searchable(t') && SameCells(t, t', lvl + 1)
  {
    hide Sound, Entries, FixOf, PageOk, EntryOwns, EntriesTo, WithChild, Stops, Searchable, Step, Holds;
    var page := t.pages[n];
    var p' := WithChild(page, live - 1, r);
    var t', i := Tree(t.root, t.pages[n := p']), EntryIndex(page, live);
    SearchReady(t, g, n);
    ChildOk(page, PAGE_SIZE, live - 1, r);
    EntryRanged(t, g, n, i, Fin(EMPTY));
    FixIs(t, g, n, p', i, r);
    Misplaced(t, g, t', n, p', i, r, p);
    FixStep(t, g, t', n, p', i, r);
    FixFacts(t, g, t', n, p', i, r);
    FixCells(t, g, t', n, p', i, r, lvl + 1);
  }

  lemma {:induction false} LinkAbove(t: Tree, g: Ranges, t': Tree, g': Ranges, n: nat, r: nat, lp: Page, rp: Page, lvl: nat)
    requires Sound(t, g) && LinkOf(t, g, t', g', n, r, lp, rp) && LvlOf(t, n) == lvl
    ensures SameAbove(t, g, t', g', lvl + 1)
  {
    hide Sound, LinkOf, Es, SamePage, Fence;
    LinkRootLevel(t, g, t', g', n, r, lp, rp);
    LinkFacts(t, g, t', g', n, r, lp, rp);
    LinkStep(t, g, t', g', n, r, lp, rp);
    LinkFresh(t, g, t', g', n, r, lp, rp);
    LinkTree(t, g, t', g', n, r, lp, rp);
    forall x: nat | LvlOf(t, x) >= lvl + 1 || LvlOf(t', x) >= lvl + 1 ensures SamePage(t, g, t', g', x) {
      StepSame(t, g, t', g', {n, r}, x);
    }
  }

  lemma {:induction false} LinkTree(t: Tree, g: Ranges, t': Tree, g': Ranges, n: nat, r: nat, lp: Page, rp: Page)
    requires LinkOf(t, g, t', g', n, r, lp, rp)
    ensures t' == Tree(t.root, t.pages[n := lp][r := rp])
  {
    hide Halved, Fence;
  }

  /** What the split of a page comes to, in terms of the tree after linking. */
  lemma {:induction false} SpillsIs(t: Tree, g: Ranges, t': Tree, g': Ranges, n: nat, lvl: nat, cell: Cell)
    requires SameAbove(t, g, t', g', lvl + 1) && n in t.pages && LvlOf(t, n) == lvl < LvlOf(t, t.root)
    requires cell == MidCell(t.pages[n])
    ensures Spills(t, g, n) <==>
            (t.pages[n].right == 0 && lvl >= 2) || Overflows(t', g', cell.key, lvl + 1, FenceLen(lvl, cell.len))
    ensures OnceAbove(t, g, n) <==> SplitsOnce(t', g', cell.key, lvl + 1, FenceLen(lvl, cell.len))
  {
    hide MidCell, Overflows, SplitsOnce, SameAbove;
    OverflowsSame(t, g, t', g', lvl + 1, cell.key, lvl + 1, FenceLen(lvl, cell.len));
  }

  lemma {:induction false} RootHolds(t: Tree, g: Ranges)
    ensures !Spills(t, g, t.root)
  {
    hide MidCell, Overflows;
  }

  /** After a split the owner of the key is one of the halves. */
  lemma {:induction false} HalfRoom(t: Tree, g: Ranges, t': Tree, g': Ranges, n: nat, a: nat, b: nat, key: int, len: nat)
    requires Sound(t', g') && HalvesStand(t, g, t', g', n, a, b) && Owns(t, g, n, key) && LvlOf(t, n) >= 0
    requires a in t'.pages && b in t'.pages && Room(t'.pages[a], len) && Room(t'.pages[b], len)
    ensures OwnerRoom(t', g', LvlOf(t, n), key, len)
  {
    hide Sound, Es, LvlOf, Room;
    var h := if Le(Fin(key), g'.hi[a]) then a else b;
    assert Owns(t', g', h, key);
    forall x: nat | Owns(t', g', x, key) && LvlOf(t', x) == LvlOf(t, n) ensures x == h { OwnerOnce(t', g', x, h, key); }
  }

  lemma {:induction false} RoomStands(t: Tree, g: Ranges, t': Tree, g': Ranges, n: nat, lvl: nat)
    requires PagesBelow(t, g, t', g', lvl + 1) && n in t.pages && LvlOf(t, n) == lvl
    ensures n in t'.pages && t'.pages[n] == t.pages[n]
  {
    assert SamePage(t, g, t', g', n);
  }

  /** The level above a page that was split holds its fence as well, or this and the stopper if there was no level above. */
  ghost predicate FenceIn(t: Tree, t': Tree, top: bool, lvl: nat, key: int, len: nat) {
    if top then forall b: Bound, n: nat :: Holds(t', lvl, b, n) <==> (b == Fin(key) && n == len) || (b == High && n == 10)
    else OneCellMore(t, t', lvl, key, len)
  }

  lemma {:induction false} NewLevel(
      t: Tree, g: Ranges, t': Tree, g': Ranges, l: nat, r: nat, lp: Page, rp: Page, np: Page, lvl: nat, m: int, len: nat)
    requires Sound(t, g) && RootSplitOf(t, g, t', g', l, r, lp, rp, np) && lvl == LvlOf(t, t.root)
    requires Entries(np) == RootEntries(m, len, l, r)
    ensures FenceIn(t, t', true, lvl + 1, m, len)
  {
    hide Sound, RootSplitOf, Entries, HasCell, Holds;
    var x, y := Entry(Fin(m), Cell(m, len, l)), Entry(High, Cell(EMPTY, 10, r));
    var top := lvl + 1;
    forall b: Bound, n: nat ensures Holds(t', top, b, n) <==> (b == Fin(m) && n == len) || (b == High && n == 10) {
      TopHolds(t, g, t', g', l, r, lp, rp, np, top, b, n);
      assert RootEntries(m, len, l, r) == [x] + [y];
      CellsConcat([x], [y], b, n);
      OneCell(x, b, n);
      OneCell(y, b, n);
    }
  }

  class Btree {
    var root: nat
    var pages: map<nat, Page>
    var next: nat // next page number to hand out
    ghost var g: Ranges

    function T(): Tree
      reads this
    {
      Tree(root, pages)
    }

    /** Among other things, that the rightmost pages end in a stopper slot on the two lowest levels, and only there. */
    ghost predicate Ok()
      reads this
    {
      Sound(T(), g) && Short(T()) && Stops(T()) && next > 0 && Numbered(T(), next)
    }

    /** No split raises it. */
    ghost function Limit(): int
      reads this
    {
      Ceiling(T(), next)
    }

    constructor ()
      ensures Ok() && AllTight(T(), g, 0) && Narrow(T()) && forall key :: !Stored(T(), key)
    {
      hide Sound, Short, AllTight, Holds, InitLeaf, InitRoot, Stops, Narrow;
      root, pages, next := 2, map[1 := InitLeaf(), 2 := InitRoot(1)], 3;
      g := Ranges(map[1 := Low, 2 := Low], map[1 := High, 2 := High]);
      new;
      InitSound(T(), g);
    }

    /**
     btreeInsertKey for a fence: to the page one level up that owns it, after as many splits there
     as it takes. A split that misplaces its fence ends it.
     */
    method InsertFence(key: int, len: nat, child: nat, lvl: nat, ghost r: nat) returns (ok: bool)
      requires Ok() && lvl < LvlOf(T(), root) && AllTight(T(), g, lvl + 1) && 0 < len <= MaxLen(lvl + 1) && key >= 0
      requires Pending(T(), g, lvl, child, r, key)
      modifies this
      ensures ok ==> Ok() && Limit() <= old(Limit()) + 1
      ensures ok ==> FencePosted(old(T()), old(g), T(), g, lvl, child, r, key, len)
      ensures !ok ==> !Searchable(T()) && SameCells(old(T()), T(), lvl + 1) && LvlOf(T(), root) >= 3
      ensures old(Overflows(T(), g, key, lvl + 1, len)) ==> !ok
      ensures old(SplitsOnce(T(), g, key, lvl + 1, len) && !Overflows(T(), g, key, lvl + 1, len)) ==> ok
      ensures ok && old(Narrow(T())) && len <= NARROW ==> Narrow(T())
      decreases Limit() + 1 - lvl, 0
    {
      hide Sound, Short, LevelFits, Pending, AllTight, KeepsBelow, PagesBelow, SameCells, PageOk, Entries, FencePosted;
      hide Loaded, Fixed, InsertSite, Belongs, InsertAt, EntryOwns, EntriesTo, ShortPage, Owns, FirstAbove, LvlOf;
      hide Ceiling, OwnerHas, HalvesStand, Numbered, Stops, Marked, Overflows, SplitsOnce, Spills, OnceAbove, Searchable;
      hide Room, HalvesRoom, OwnerRoom, Narrow;
      ghost var t0, g0 := T(), g;
      ghost var most: nat := PAGE_SIZE;
      Start(t0, g0, lvl + 1);
      OwnerFits(t0, g0, lvl + 1, key);
      RootLimit(t0, g0, next);
      while true
        invariant Ok() && lvl < LvlOf(T(), root) && AllTight(T(), g, lvl + 1) && Pending(T(), g, lvl, child, r, key)
        invariant SameCells(t0, T(), lvl + 1) && KeepsBelow(t0, g0, T(), g, lvl + 1)
        invariant OwnerHas(T(), g, lvl + 1, key, most) && Limit() <= old(Limit()) && (Narrow(t0) ==> Narrow(T()))
        invariant (T() == t0 && g == g0)
                  || (!Overflows(t0, g0, key, lvl + 1, len)
                      && (SplitsOnce(t0, g0, key, lvl + 1, len) ==> OwnerRoom(T(), g, lvl + 1, key, len)))
        decreases most
      {
        ghost var t1, g1, m1 := T(), g, next;
        var n, slot := LoadPage(T(), g, key, lvl + 1);
        LoadedIs(t1, g1, n, slot, key);
        LoadedEntry(t1, g1, n, slot, key);
        PageLevel(t1, n, lvl + 1);
        OwnerOverflows(t1, g1, n, key, lvl + 1, len);
        OwnerHasRoom(t1, g1, n, key, lvl + 1, len);
        var p := pages[n];
        StopsAt(t1, n);
        if Room(p, len) {
          var cell := Cell(key, len, child);
          SiteIs(p, slot, cell);
          var p' := InsertSlot(p, slot, cell, Indexed, PAGE_SIZE);
          PostedFence(t1, g1, lvl, child, r, n, slot, cell, p');
          CountsOneMore(p, p', slot, Entry(Fin(key), cell));
          PageCeiling(t1, n, p', m1, 1);
          StopsOnePage(t1, Tree(t1.root, t1.pages[n := p']), n, p');
          if Narrow(t1) && len <= NARROW {
            NarrowInsert(t1, Tree(t1.root, t1.pages[n := p']), n, p', EntryIndex(p, slot), Entry(Fin(key), cell));
          }
          pages := pages[n := p'];
          PostedChain(t0, g0, t1, g1, T(), g, lvl, child, r, key, len);
          return true;
        }
        OwnerCounts(t1, g1, lvl + 1, key, n, most);
        ghost var a, b;
        ok, a, b := SplitPage(n, lvl + 1, len);
        if !ok {
          SameCellsTrans(t0, t1, T(), lvl + 1, lvl + 1, lvl + 1);
          return;
        }
        RootRises(t1, g1, T(), g, lvl + 1);
        FixedChain(t0, g0, t1, g1, T(), g, lvl + 1);
        PendingFixed(t1, g1, T(), g, lvl, child, r, key);
        OwnerShrinks(t1, g1, T(), g, n, a, b, key);
        if HalvesRoom(p, len) {
          HalfRoom(t1, g1, T(), g, n, a, b, key, len);
        }
        most := |Es(t1, n)| - 1;
      }
    }

    /**
     btreeFixKey: looks for the entry of the right page's fence, and repoints what it finds to the
     right page. That completes the split exactly when the page has a right sibling or its last
     slot is a stopper; otherwise the tree is no longer searchable.
     */
    method FixKey(r: nat, lvl: nat, ghost p: nat) returns (ok: bool)
      requires Ok() && lvl < LvlOf(T(), root) && AllTight(T(), g, lvl + 1) && LevelFits(T(), g, lvl, Posted(p, r))
      requires r in pages && LvlOf(T(), r) == lvl && Ranged(g, r)
      requires p in pages && LvlOf(T(), p) == lvl && pages[p].right == r != 0
      modifies this`pages
      ensures ok == old(Completes(pages[r])) == Searchable(T())
      ensures ok <==> old(pages[r].right) != 0 || lvl <= 1
      ensures ok ==> Ok() && Fixed(old(T()), g, T(), g, lvl) && PagesBelow(old(T()), g, T(), g, lvl + 1)
      ensures ok ==> Limit() <= old(Limit()) && (old(Narrow(T())) ==> Narrow(T()))
      ensures SameCells(old(T()), T(), lvl + 1) && LvlOf(T(), root) == old(LvlOf(T(), root))
    {
      hide Sound, Short, LevelFits, AllTight, KeepsBelow, SameCells, PageOk, Entries, Loaded, Fixed, LvlOf, EntryOwns;
      hide EntriesTo, KeyAt, SlotsOk, SortedPage, FirstAbove, Owns, CellAt, EntryIndex, PagesBelow, Ceiling, Numbered;
      hide Stops, Marked, Completes, Searchable, Narrow;
      ghost var t := T();
      RightFence(t, g, r);
      SearchReady(t, g, r);
      StopsAt(t, r);
      StopperSlot(pages[r]);
      PageLevel(t, r, lvl);
      var last := |pages[r].slots| - 1;
      var stopper, fence := pages[r].slots[last].typ == Stopper, CellAt(pages[r], last).key;
      var n, slot, live;
      if stopper {
        n, slot := LoadStopper(T(), g, lvl + 1);
        LastEntry(t, g, n);
        live := slot;
      } else {
        n, slot := LoadPage(T(), g, fence, lvl + 1);
        LoadedIs(t, g, n, slot, fence);
        LoadedEntry(t, g, n, slot, fence);
        SearchReady(t, g, n);
        live := NextLive(pages[n], slot);
        FixSlot(t, g, n, slot, live, fence);
      }
      SearchReady(t, g, n);
      var p' := WithChild(pages[n], live - 1, r);
      ghost var t' := Tree(root, pages[n := p']);
      ok := stopper || pages[r].right != 0;
      SameLevels(t, n, live, r);
      if ok {
        FixedFence(t, g, lvl, p, r, n, live);
        PageCeiling(t, n, p', next, 0);
        StopsAt(t, n);
        ChildMarked(pages[n], PAGE_SIZE, live - 1, r);
        StopsOnePage(t, t', n, p');
        if Narrow(t) { NarrowChild(t, t', n, live - 1, r); }
        Found(t', g);
      } else {
        WrongFence(t, g, lvl, p, r, n, live);
      }
      pages := pages[n := p'];
    }

    /**
     btreeSplitPage: halves a page that has no room for a key, links the new right page, and posts
     both fences one level up. `a` and `b` are the halves. It misplaces a fence if the page spills,
     and only then unless some page further up is split twice.
     */
    method SplitPage(n: nat, lvl: nat, ghost len: nat) returns (ok: bool, ghost a: nat, ghost b: nat)
      requires Ok() && n in pages && LvlOf(T(), n) == lvl && AllTight(T(), g, lvl)
      requires len <= MaxLen(lvl) && !Room(pages[n], len)
      modifies this
      ensures ok <==> Searchable(T())
      ensures ok ==> Ok() && Fixed(old(T()), old(g), T(), g, lvl) && Limit() <= old(Limit())
      ensures ok ==> HalvesStand(old(T()), old(g), T(), g, n, a, b)
      ensures ok && old(HalvesRoom(pages[n], len)) ==>
                a in pages && b in pages && Room(pages[a], len) && Room(pages[b], len)
      ensures !ok ==> SameCells(old(T()), T(), lvl) && LvlOf(T(), root) >= 3
      ensures var mid := old(MidCell(pages[n]));
              ok ==> FenceIn(old(T()), T(), n == old(root), lvl + 1, mid.key, FenceLen(lvl, mid.len))
      ensures old(Spills(T(), g, n)) ==> !ok
      ensures old(OnceAbove(T(), g, n) && !Spills(T(), g, n)) ==> ok
      ensures ok && old(Narrow(T())) ==> Narrow(T())
      decreases Limit() - lvl, 1
    {
      hide Sound, Short, LevelFits, Pending, AllTight, KeepsBelow, PagesBelow, SameCells, PageOk, Entries, FencePosted;
      hide Fixed, ShortPage, JustLinked, Halved, RootPage, Fence, Ceiling, HalvesStand, Numbered, Room, Lean;
      hide Stops, Marked, HalvesAre, Overflows, SplitsOnce, Spills, OnceAbove, Searchable, HalvesRoom, SameAbove, LowerEnd, Narrow;
      ghost var t0, g0, m0 := T(), g, next;
      SearchReady(t0, g0, n);
      NodeIsRanged(t0, g0, n);
      PageLevel(t0, n, lvl);
      RootLimit(t0, g0, m0);
      FreshNumber(t0, next, next);
      FreshNumber(t0, next, next + 1);
      ShortAt(t0, n);
      StopsAt(t0, n);
      FullHasThree(pages[n], len);
      var r := next;
      var lp, rp := Halve(pages[n], PAGE_SIZE, r);
      LowerFence(pages[n], lp, rp, PAGE_SIZE, r);
      HalvesMarked(pages[n], lp, rp, PAGE_SIZE, r);
      HalvesHaveRoom(pages[n], lp, rp, r, len);
      FenceCell(t0, g0, n, r, lp, rp);
      ShortHalves(pages[n], lp, rp, PAGE_SIZE, r);
      HalfLevel(pages[n], lp, rp, r);
      CellLength(lp);
      HalfLinks(pages[n], lp, rp, r);
      LastKey(lp);
      var cell := CellAt(lp, |lp.slots| - 1);
      FenceLenOk(lvl, cell.len);
      if n == root {
        var l := next + 1;
        NewRootOk(cell.key, FenceLen(lvl, cell.len), l, r, lvl + 1);
        RootTop(t0, g0);
        RootPageMarked(cell.key, FenceLen(lvl, cell.len), l, r, lvl + 1);
        var np := RootPage(cell.key, FenceLen(lvl, cell.len), l, r, lvl + 1);
        RootIs(t0, g0, l, r, lp, rp, np, cell.key, FenceLen(lvl, cell.len));
        pages := pages[n := np][l := lp][r := rp];
        g := Ranges(g.lo[l := Low][r := Fence(lp)], g.hi[l := Fence(lp)][r := High]);
        next := next + 2;
        ok, a, b := true, l, r;
        RootHere(t0, g0, T(), g, l, r, lp, rp, np, lvl);
        RootCeiling(t0, g0, T(), g, l, r, lp, rp, np, m0);
        RootStands(t0, g0, T(), g, l, r, lp, rp, np);
        StopsRoot(t0, T(), n, l, r, lp, rp, np);
        if Narrow(t0) { NarrowRoot(t0, T(), n, l, r, lp, rp, np, cell.key, FenceLen(lvl, cell.len), cell); }
        RootHolds(t0, g0);
        NewLevel(t0, g0, T(), g, l, r, lp, rp, np, lvl, cell.key, FenceLen(lvl, cell.len));
        Found(T(), g);
        return;
      }
      LinkIs(t0, g0, n, r, lp, rp);
      pages := pages[n := lp][r := rp];
      g := Ranges(g.lo[r := Fence(lp)], g.hi[n := Fence(lp)][r := g.hi[n]]);
      next := next + 1;
      a, b := n, r;
      ghost var t1, g1 := T(), g;
      LinkHere(t0, g0, t1, g1, n, r, lp, rp, lvl, cell.key);
      LinkCeiling(t0, g0, t1, g1, n, r, lp, rp, m0);
      LinkStands(t0, g0, t1, g1, n, r, lp, rp);
      JustLinkedIs(t0, g0, t1, g1, lvl, n, r, cell.key);
      StopsSplit(t0, t1, n, r, lp, rp);
      if Narrow(t0) { NarrowSplit(t0, t1, n, r, lp, rp, cell); }
      BelowRoot(t0, g0, n);
      LinkAbove(t0, g0, t1, g1, n, r, lp, rp, lvl);
      SpillsIs(t0, g0, t1, g1, n, lvl, cell);
      ok := InsertFence(cell.key, FenceLen(lvl, cell.len), n, lvl, r);
      if !ok {
        SameCellsTrans(t0, t1, T(), lvl + 1, lvl + 1, lvl);
        return;
      }
      ghost var t2, g2 := T(), g;
      RightPage(t1, g1, t2, g2, lvl, n, r, cell.key, FenceLen(lvl, cell.len));
      PostedBelow(t1, g1, t2, g2, lvl, n, r, cell.key, FenceLen(lvl, cell.len));
      RoomStands(t1, g1, t2, g2, n, lvl);
      ok := FixKey(r, lvl, n);
      if !ok {
        PostedCells(t1, g1, t2, g2, lvl, n, r, cell.key, FenceLen(lvl, cell.len));
        SameCellsTrans(t0, t1, t2, lvl + 1, lvl, lvl);
        SameCellsTrans(t0, t2, T(), lvl, lvl + 1, lvl);
        return;
      }
      SplitChain(t0, g0, t1, g1, t2, g2, T(), g, lvl, n, r, cell.key, FenceLen(lvl, cell.len));
      StandsOn(t0, g0, t1, g1, t2, g2, n, n, r, lvl + 1);
      StandsOn(t0, g0, t2, g2, T(), g, n, n, r, lvl + 1);
      RoomStands(t2, g2, T(), g, n, lvl);
      RoomStands(t2, g2, T(), g, r, lvl);
    }

    /**
     btreeInsertKey: stores a key that is not in the tree yet, after as many splits as it takes. It
     ends when a split misplaces its fence: always if the key overflows, and only then unless some
     page is split twice, which short keys rule out.
     */
    method InsertKey(key: int, len: nat) returns (ok: bool)
      requires Ok() && AllTight(T(), g, 0) && 0 < len <= MaxLen(0) && key >= 0 && !Stored(T(), key)
      modifies this
      ensures ok <==> Searchable(T())
      ensures ok ==> Ok() && AllTight(T(), g, 0) && OneCellMore(old(T()), T(), 0, key, len)
      ensures !ok ==> SameCells(old(T()), T(), 0) && LvlOf(T(), root) >= 3
      ensures old(Overflows(T(), g, key, 0, len)) ==> !ok
      ensures old(SplitsOnce(T(), g, key, 0, len) && !Overflows(T(), g, key, 0, len)) ==> ok
      ensures old(Narrow(T())) && len <= NARROW - 8 ==>
                (ok <==> !old(Overflows(T(), g, key, 0, len))) && (ok ==> Narrow(T()))
    {
      hide Sound, Short, LevelFits, AllTight, KeepsBelow, SameCells, PageOk, Entries, Loaded, Fixed, Holds, OneCellMore;
      hide InsertSite, Belongs, InsertAt, EntryOwns, EntriesTo, ShortPage, Owns, FirstAbove, LvlOf;
      hide Ceiling, OwnerHas, HalvesStand, Numbered, Stops, Marked, Overflows, SplitsOnce, Spills, OnceAbove, Searchable;
      hide Room, HalvesRoom, OwnerRoom, Narrow;
      ghost var t0, g0 := T(), g;
      ghost var most: nat := PAGE_SIZE;
      if Narrow(t0) && len <= NARROW - 8 { NarrowOnce(t0, g0, key, 0, len); }
      Start(t0, g0, 0);
      OwnerFits(t0, g0, 0, key);
      while true
        invariant Ok() && AllTight(T(), g, 0) && SameCells(t0, T(), 0) && OwnerHas(T(), g, 0, key, most)
        invariant Narrow(t0) ==> Narrow(T())
        invariant (T() == t0 && g == g0)
                  || (!Overflows(t0, g0, key, 0, len)
                      && (SplitsOnce(t0, g0, key, 0, len) ==> OwnerRoom(T(), g, 0, key, len)))
        decreases most
      {
        ghost var t1, g1, m1 := T(), g, next;
        RootTop(t1, g1);
        var n, slot := LoadPage(T(), g, key, 0);
        LoadedIs(t1, g1, n, slot, key);
        LoadedEntry(t1, g1, n, slot, key);
        PageLevel(t1, n, 0);
        OwnerOverflows(t1, g1, n, key, 0, len);
        OwnerHasRoom(t1, g1, n, key, 0, len);
        var p := pages[n];
        StopsAt(t1, n);
        if Room(p, len) {
          var cell := Cell(key, len, 0);
          SiteIs(p, slot, cell);
          var p' := InsertSlot(p, slot, cell, Indexed, PAGE_SIZE);
          StillNew(t0, t1, key);
          StoredKey(t1, g1, n, slot, cell, p');
          CountsOneMore(p, p', slot, Entry(Fin(key), cell));
          PageCeiling(t1, n, p', m1, 1);
          StopsOnePage(t1, Tree(t1.root, t1.pages[n := p']), n, p');
          if Narrow(t1) && len <= NARROW - 8 {
            NarrowInsert(t1, Tree(t1.root, t1.pages[n := p']), n, p', EntryIndex(p, slot), Entry(Fin(key), cell));
          }
          pages := pages[n := p'];
          OneMoreAfter(t0, t1, T(), 0, key, len);
          Found(T(), g);
          return true;
        }
        OwnerCounts(t1, g1, 0, key, n, most);
        ghost var a, b;
        ok, a, b := SplitPage(n, 0, len);
        if !ok {
          SameCellsTrans(t0, t1, T(), 0, 0, 0);
          return;
        }
        RootRises(t1, g1, T(), g, 0);
        SameCellsTrans(t0, t1, T(), 0, 0, 0);
        OwnerShrinks(t1, g1, T(), g, n, a, b, key);
        if HalvesRoom(p, len) {
          HalfRoom(t1, g1, T(), g, n, a, b, key, len);
        }
        most := |Es(t1, n)| - 1;
      }
    }
  }

  lemma {:induction false} OwnerHasRoom(t: Tree, g: Ranges, n: nat, key: int, lvl: nat, len: nat)
    requires Owns(t, g, n, key) && LvlOf(t, n) == lvl
    ensures n in t.pages && (OwnerRoom(t, g, lvl, key, len) ==> Room(t.pages[n], len))
  {
    hide Room;
  }

  lemma {:induction false} SameLevels(t: Tree, n: nat, live: nat, r: nat)
    requires n in t.pages && 0 < live <= |t.pages[n].slots|
    ensures var t' := Tree(t.root, t.pages[n := WithChild(t.pages[n], live - 1, r)]); LvlOf(t', t.root) == LvlOf(t, t.root)
  {
  }

  lemma {:induction false} HalfLinks(p: Page, lp: Page, rp: Page, r: nat)
    requires Halved(p, lp, rp, PAGE_SIZE, r)
    ensures lp.right == r && rp.right == p.right
  {
    hide PageOk, Entries;
  }

  lemma {:induction false} CountsOneMore(p: Page, p': Page, slot: nat, x: Entry)
    requires 0 < slot <= |p.slots| && |EntriesTo(p, slot - 1)| <= |Entries(p)|
    requires Entries(p') == InsertAt(Entries(p), |EntriesTo(p, slot - 1)|, x)
    ensures |Entries(p')| == |Entries(p)| + 1
  {
  }

  lemma {:induction false} OwnerCounts(t: Tree, g: Ranges, lvl: nat, key: int, n: nat, most: nat)
    requires OwnerHas(t, g, lvl, key, most) && Owns(t, g, n, key) && LvlOf(t, n) == lvl
    ensures |Es(t, n)| <= most
  {
  }

  /** The ceiling lies above the root, and the root above all pages. */
  lemma {:induction false} RootLimit(t: Tree, g: Ranges, m: nat)
    requires Sound(t, g)
    ensures Ceiling(t, m) >= LvlOf(t, t.root) && forall n | n in t.pages :: LvlOf(t, n) <= LvlOf(t, t.root)
  {
    hide NodesGood, ChildrenGood, RangesApart;
  }

  lemma {:induction false} PostedCells(
      t: Tree, g: Ranges, t': Tree, g': Ranges, lvl: nat, p: nat, r: nat, key: int, len: nat)
    requires FencePosted(t, g, t', g', lvl, p, r, key, len)
    ensures SameCells(t, t', lvl)
  {
    hide SameCells, AllTight, LevelFits, KeepsBelow, PagesBelow, OneCellMore;
  }

  lemma {:induction false} PostedBelow(
      t: Tree, g: Ranges, t': Tree, g': Ranges, lvl: nat, p: nat, r: nat, key: int, len: nat)
    requires FencePosted(t, g, t', g', lvl, p, r, key, len)
    ensures PagesBelow(t, g, t', g', lvl + 1)
  {
    hide SameCells, AllTight, LevelFits, KeepsBelow, PagesBelow, OneCellMore;
  }

  lemma {:induction false} PageLevel(t: Tree, n: nat, lvl: nat)
    requires n in t.pages && LvlOf(t, n) == lvl
    ensures t.pages[n].lvl == lvl
  {
  }

  lemma {:induction false} HalfLevel(p: Page, lp: Page, rp: Page, r: nat)
    requires Halved(p, lp, rp, PAGE_SIZE, r)
    ensures lp.lvl == p.lvl
  {
    hide PageOk, Entries;
  }

  lemma {:induction false} JustLinkedIs(t: Tree, g: Ranges, t': Tree, g': Ranges, lvl: nat, n: nat, r: nat, key: int)
    requires JustLinked(t, g, t', g', lvl, n, r, key)
    ensures Sound(t', g') && Short(t') && SameCells(t, t', lvl + 1) && KeepsBelow(t, g, t', g', lvl) && AllTight(t', g', lvl + 1)
    ensures Pending(t', g', lvl, n, r, key) && LvlOf(t', t'.root) == LvlOf(t, t.root)
  {
    hide Sound, Short, SameCells, KeepsBelow, AllTight, Pending;
  }

  lemma {:induction false} BelowRoot(t: Tree, g: Ranges, n: nat)
    requires Sound(t, g) && n in t.pages && n != t.root
    ensures LvlOf(t, n) < LvlOf(t, t.root)
  {
    hide Sound;
    RootAlone(t, g);
  }

  lemma {:induction false} StillNew(t: Tree, t': Tree, key: int)
    requires SameCells(t, t', 0) && !Stored(t, key)
    ensures !Stored(t', key)
  {
    hide Holds;
  }
}
