/** Inserting keys into the B-link tree: page splits posted level by level, and the search that survives them. */
module BtreeInsert {
  import opened BtreePages
  import opened BtreeInsertSlot
  import opened BtreeSplit
  import opened BtreeTree
  import opened BtreeStages
  import opened BtreeStep
  import opened BtreeLink
  import opened BtreePost
  import opened BtreeFix
  import opened BtreeRoot

  // ---------- key lengths ----------

  /** The longest keys with which every full page can be split. */
  const LONGEST := 2712

  /** Leaf keys leave room for the page number that a fence adds. */
  function MaxLen(lvl: int): nat { if lvl == 0 then LONGEST - 8 else LONGEST }

  ghost predicate KeysUpTo(p: Page, max: nat) { forall e | e in Entries(p) :: e.cell.len <= max }

  ghost predicate ShortPage(p: Page) { KeysUpTo(p, MaxLen(p.lvl)) && Lean(p) }

  ghost predicate Short(t: Tree) { forall n | n in t.pages :: ShortPage(t.pages[n]) }

  /** Bytes of a fence key: a leaf key is extended by a page number, and its length prefix may grow. */
  function FenceLen(lvl: nat, len: nat): nat {
    if lvl > 0 then len else
      var keyLen := if len <= 128 then len - 1 else len - 2;
      var fence := keyLen + 8;
      if fence < 128 then fence + 1 else fence + 2
  }

  /** A key of `k` bytes behind its length, which takes two bytes from 128 on. */
  function KeyBytes(k: nat): nat { if k < 128 then k + 1 else k + 2 }

  /** The fence of a leaf is its key with eight bytes behind it; other fences are as long as the key above. */
  lemma {:induction false} FenceBytes(lvl: nat, k: nat)
    ensures FenceLen(lvl, KeyBytes(k)) == KeyBytes(if lvl == 0 then k + 8 else k)
  {
  }

  /** No key up to the longest stored one finds a page too full to insert and too small to split. */
  lemma {:induction false} FullIsSplittable(p: Page, max: nat, len: nat)
    requires PageOk(p, PAGE_SIZE) && KeysUpTo(p, max) && len <= max <= LONGEST && !Room(p, len)
    ensures Splittable(p)
  {
    if !Splittable(p) {
      hide SlotsOk, SortedPage, KeyAt, CellAt;
      FewEntries(p);
      FewBytes(Entries(p), max);
    }
  }

  /** A full page has at least three entries. */
  lemma {:induction false} FullHasThree(p: Page, len: nat)
    requires PageOk(p, PAGE_SIZE) && ShortPage(p) && len <= MaxLen(p.lvl) && !Room(p, len)
    ensures Splittable(p) && |Entries(p)| >= 3
  {
    hide SlotsOk, SortedPage, KeyAt, CellAt, Entries;
    FullIsSplittable(p, MaxLen(p.lvl), len);
    if |Entries(p)| <= 2 { FewBytes(Entries(p), MaxLen(p.lvl)); }
  }

  lemma {:induction false} FewEntries(p: Page)
    requires SlotsOk(p) && !Splittable(p)
    ensures |Entries(p)| <= 2 && |p.slots| <= 3
  {
    hide KeyAt, CellAt;
    assert |EntriesTo(p, 1)| <= 1;
    if |p.slots| >= 2 { assert |EntriesTo(p, 2)| <= 1; }
  }

  lemma {:induction false} FewBytes(es: seq<Entry>, max: nat)
    requires |es| <= 2 && forall e | e in es :: e.cell.len <= max
    ensures KeySpace(es) <= 2 * max
  {
    if |es| > 0 {
      assert es[|es| - 1] in es;
      if |es| > 1 {
        assert es[..1][0] in es && es[..1][..0] == [];
        assert KeySpace(es[..1]) == KeySpace(es[..1][..0]) + es[0].cell.len;
      } else {
        assert es[..0] == [];
      }
    }
  }

  /** A page with three keys, put in one after the other. */
  function ThreePage(lvl: nat, right: nat, a: Cell, b: Cell, c: Cell, typ: SlotType): Page
    requires a.len + b.len + c.len <= PAGE_SIZE
  {
    var one := PAGE_SIZE - a.len;
    var two := one - b.len;
    var three := two - c.len;
    Page(lvl, right, three, 3, [Slot(one, Indexed, false), Slot(two, Indexed, false), Slot(three, typ, false)],
         map[one := a][two := b][three := c])
  }

  lemma {:induction false} ThreeCells(lvl: nat, right: nat, a: Cell, b: Cell, c: Cell, typ: SlotType)
    requires a.len + b.len + c.len <= PAGE_SIZE && a.len > 0 && b.len > 0 && c.len > 0
    ensures var p := ThreePage(lvl, right, a, b, c, typ);
            && CellAt(p, 0) == a && CellAt(p, 1) == b && CellAt(p, 2) == c
            && KeyAt(p, 0) == Fin(a.key) && KeyAt(p, 1) == Fin(b.key)
            && KeyAt(p, 2) == if right == 0 then High else Fin(c.key)
  {
  }

  lemma {:induction false} ThreeEntries(lvl: nat, right: nat, a: Cell, b: Cell, c: Cell, typ: SlotType)
    requires a.len + b.len + c.len <= PAGE_SIZE && a.len > 0 && b.len > 0 && c.len > 0
    ensures var p := ThreePage(lvl, right, a, b, c, typ);
            && Entries(p) == [Entry(Fin(a.key), a), Entry(Fin(b.key), b), Entry(if right == 0 then High else Fin(c.key), c)]
            && KeySpace(Entries(p)) == a.len + b.len + c.len
  {
    hide KeyAt, CellAt;
    var p := ThreePage(lvl, right, a, b, c, typ);
    var x, y, z := Entry(Fin(a.key), a), Entry(Fin(b.key), b), Entry(if right == 0 then High else Fin(c.key), c);
    ThreeCells(lvl, right, a, b, c, typ);
    assert EntriesTo(p, 1) == [] + [x];
    assert EntriesTo(p, 2) == [x] + [y];
    assert EntriesTo(p, 3) == [x, y] + [z];
    TwoSpace(x, y);
    assert [x, y, z][..2] == [x, y];
  }

  lemma {:induction false} ThreeOk(lvl: nat, right: nat, a: Cell, b: Cell, c: Cell, typ: SlotType)
    requires HEAD + 3 * SLOT + a.len + b.len + c.len <= PAGE_SIZE && a.len > 0 && b.len > 0 && c.len > 0
    requires a.key <= b.key && (right != 0 ==> b.key <= c.key) && typ != Librarian
    ensures PageOk(ThreePage(lvl, right, a, b, c, typ), PAGE_SIZE)
  {
    hide Entries, KeySpace, KeyAt, CellAt;
    ThreeCells(lvl, right, a, b, c, typ);
    ThreeEntries(lvl, right, a, b, c, typ);
  }

  /** A small key and two of one byte more than the longest. */
  function TooLongKeys(): Page { ThreePage(0, 1, Cell(0, 10, 0), Cell(1, 2713, 0), Cell(2, 2713, 0), Indexed) }

  /** Its upper half: the long keys, a librarian before the first. It is full, and has no lower half. */
  function TwoLongKeys(): Page {
    Page(0, 1, 2766, 2, [Slot(5479, Librarian, true), Slot(5479, Indexed, false), Slot(2766, Indexed, false)],
         map[5479 := Cell(1, 2713, 0), 2766 := Cell(2, 2713, 0)])
  }

  lemma {:induction false} TwoLongLive()
    ensures var p := TooLongKeys();
            && UpperLive(p) == [Live(Indexed, Cell(1, 2713, 0)), Live(Indexed, Cell(2, 2713, 0))]
            && LowerEnd(p) == 1
  {
    hide CellAt, KeyAt;
    var p := TooLongKeys();
    ThreeCells(0, 1, Cell(0, 10, 0), Cell(1, 2713, 0), Cell(2, 2713, 0), Indexed);
    LiveStep(p, 1, 1);
    LiveStep(p, 1, 2);
  }

  lemma {:induction false} TwoLongLaid()
    ensures var live := [Live(Indexed, Cell(1, 2713, 0)), Live(Indexed, Cell(2, 2713, 0))];
            Total(live) == 5426 && Fresh(0, 1, live, PAGE_SIZE) == TwoLongKeys()
  {
    var x, y := Live(Indexed, Cell(1, 2713, 0)), Live(Indexed, Cell(2, 2713, 0));
    NothingLaid(PAGE_SIZE);
    assert [] + [x] == [x] && [x] + [y] == [x, y];
    TotalMore([], x);
    TotalMore([x], y);
    LayOne([], x, PAGE_SIZE);
    LayOne([x], y, PAGE_SIZE);
  }

  /** A page with keys of 2713 bytes that can be split, and the half that cannot. */
  lemma {:induction false} SplitGetsStuck(l: Page, r: Page, right: nat)
    requires HalvesAre(TooLongKeys(), l, r, PAGE_SIZE, right)
    ensures PageOk(TooLongKeys(), PAGE_SIZE) && KeysUpTo(TooLongKeys(), 2713)
    ensures !Room(TooLongKeys(), 2713) && Splittable(TooLongKeys())
    ensures r == TwoLongKeys() && PageOk(r, PAGE_SIZE) && !Room(r, 2713) && !Splittable(r)
  {
    hide Entries, KeySpace, Fresh, PageOk, UpperLive, LowerLive, Total;
    ThreeOk(0, 1, Cell(0, 10, 0), Cell(1, 2713, 0), Cell(2, 2713, 0), Indexed);
    ThreeEntries(0, 1, Cell(0, 10, 0), Cell(1, 2713, 0), Cell(2, 2713, 0), Indexed);
    TwoLongLive();
    TwoLongLaid();
    FullAndUnsplittable();
  }

  lemma {:induction false} TwoLongEntries()
    ensures var p := TwoLongKeys();
            Entries(p) == [Entry(Fin(1), Cell(1, 2713, 0)), Entry(Fin(2), Cell(2, 2713, 0))] && KeySpace(Entries(p)) == 2 * 2713
  {
    var p := TwoLongKeys();
    var a, b := Entry(Fin(1), Cell(1, 2713, 0)), Entry(Fin(2), Cell(2, 2713, 0));
    assert EntriesTo(p, 1) == [];
    assert EntriesTo(p, 2) == [] + [a];
    assert EntriesTo(p, 3) == [a] + [b];
    TwoSpace(a, b);
    assert Entries(p) == [a, b];
  }

  lemma {:induction false} TwoLongSlots()
    ensures SlotsOk(TwoLongKeys()) && SortedPage(TwoLongKeys())
  {
  }

  lemma {:induction false} FullAndUnsplittable()
    ensures var p := TwoLongKeys();
            PageOk(p, PAGE_SIZE) && KeysUpTo(p, 2713) && !Room(p, 2713) && !Splittable(p)
  {
    hide SlotsOk, SortedPage, Entries, KeySpace;
    TwoLongEntries();
    TwoLongSlots();
  }

  /** Keys of up to `max` bytes never leave a page too full to insert and impossible to split, exactly up to 2712. */
  lemma {:induction false} SplittableExactly(max: nat)
    ensures (forall p: Page, len: nat | PageOk(p, PAGE_SIZE) && KeysUpTo(p, max) && len <= max && !Room(p, len) ::
               Splittable(p))
            <==> max <= LONGEST
  {
    hide PageOk, KeysUpTo, Room, Splittable;
    if max <= LONGEST {
      forall p: Page, len: nat | PageOk(p, PAGE_SIZE) && KeysUpTo(p, max) && len <= max && !Room(p, len)
        ensures Splittable(p)
      {
        FullIsSplittable(p, max, len);
      }
    } else {
      FullAndUnsplittable();
      KeysUpToMore(TwoLongKeys(), 2713, max);
    }
  }

  lemma {:induction false} KeysUpToMore(p: Page, max: nat, more: nat)
    requires KeysUpTo(p, max) && max <= more
    ensures KeysUpTo(p, more)
  {
  }

  // ---------- short keys through the steps ----------

  lemma {:induction false} ShortOnePage(t: Tree, t': Tree, q: nat, p': Page)
    requires Short(t) && ShortPage(p') && t'.pages == t.pages[q := p']
    ensures Short(t')
  {
    hide ShortPage;
  }

  lemma {:induction false} ShortHalves(p: Page, l: Page, r: Page, size: nat, right: nat)
    requires Halved(p, l, r, size, right) && ShortPage(p)
    ensures ShortPage(l) && ShortPage(r)
  {
    hide Entries, PageOk;
    assert forall e | e in Entries(l) || e in Entries(r) :: e in Entries(l) + Entries(r);
  }

  lemma {:induction false} ShortInsert(p: Page, p': Page, i: nat, x: Entry)
    requires ShortPage(p) && p'.lvl == p.lvl && i <= |Entries(p)| && Entries(p') == InsertAt(Entries(p), i, x)
    requires x.cell.len <= MaxLen(p.lvl) && |p'.slots| <= |p.slots| + 1
    ensures ShortPage(p')
  {
    hide Entries;
  }

  lemma {:induction false} ShortChild(p: Page, p': Page, i: nat, c: nat)
    requires ShortPage(p) && p'.lvl == p.lvl && p'.slots == p.slots && i < |Entries(p)|
    requires Entries(p') == Entries(p)[i := Entry(Entries(p)[i].key, Entries(p)[i].cell.(child := c))]
    ensures ShortPage(p')
  {
    hide Entries;
    assert Entries(p)[i] in Entries(p);
    forall e | e in Entries(p') ensures e.cell.len <= MaxLen(p.lvl) {
      var j :| 0 <= j < |Entries(p')| && Entries(p')[j] == e;
      if j != i { assert e in Entries(p); }
    }
  }

  lemma {:induction false} ShortAt(t: Tree, n: nat)
    requires Short(t) && n in t.pages
    ensures ShortPage(t.pages[n])
  {
  }

  lemma {:induction false} ShortRoot(m: int, len: nat, l: nat, r: nat, lvl: nat, p: Page)
    requires Entries(p) == RootEntries(m, len, l, r) && p.lvl == lvl && lvl > 0 && len <= LONGEST && |p.slots| <= 3
    ensures ShortPage(p)
  {
    hide Entries;
  }

  // ---------- the state of the whole tree ----------

  /** Every level from `lvl` up agrees with the pages it leads to. */
  ghost predicate AllTight(t: Tree, g: Ranges, lvl: nat) {
    forall k: nat | k >= lvl :: LevelFits(t, g, k, Tight)
  }

  /** Nothing changes below a level but its own pages; the levels below keep their stages. */
  ghost predicate KeepsBelow(t: Tree, g: Ranges, t': Tree, g': Ranges, lvl: nat) {
    && PagesBelow(t, g, t', g', lvl)
    && (forall k: nat, st: Stage | k < lvl && LevelFits(t, g, k, st) :: LevelFits(t', g', k, st))
    && LvlOf(t', t'.root) >= LvlOf(t, t.root)
  }

  ghost predicate PagesBelow(t: Tree, g: Ranges, t': Tree, g': Ranges, lvl: nat) {
    forall n | n in t.pages && LvlOf(t, n) < lvl :: SamePage(t, g, t', g', n)
  }

  lemma {:induction false} PagesTrans(t: Tree, g: Ranges, t1: Tree, g1: Ranges, t2: Tree, g2: Ranges, lvl: nat)
    requires PagesBelow(t, g, t1, g1, lvl) && PagesBelow(t1, g1, t2, g2, lvl)
    ensures PagesBelow(t, g, t2, g2, lvl)
  {
  }

  lemma {:induction false} KeepsTrans(t: Tree, g: Ranges, t1: Tree, g1: Ranges, t2: Tree, g2: Ranges, lvl: nat)
    requires KeepsBelow(t, g, t1, g1, lvl) && KeepsBelow(t1, g1, t2, g2, lvl)
    ensures KeepsBelow(t, g, t2, g2, lvl)
  {
    hide LevelFits;
  }

  lemma {:induction false} KeepsLower(t: Tree, g: Ranges, t': Tree, g': Ranges, lvl: nat, low: nat)
    requires KeepsBelow(t, g, t', g', lvl) && low <= lvl
    ensures KeepsBelow(t, g, t', g', low)
  {
    hide LevelFits, SamePage, LvlOf;
  }

  lemma {:induction false} KeepsSelf(t: Tree, g: Ranges, lvl: nat)
    requires Sound(t, g)
    ensures KeepsBelow(t, g, t, g, lvl)
  {
    hide Sound, LevelFits, LvlOf, NodeGood;
    forall n | n in t.pages ensures Ranged(g, n) {
      GoodNode(t, g, n);
      NodeRanged(t, g, n);
    }
  }

  // ---------- the steps in these terms ----------

  lemma {:induction false} LinkDone(t: Tree, g: Ranges, t': Tree, g': Ranges, n: nat, r: nat, lp: Page, rp: Page, lvl: nat)
    requires Sound(t, g) && Short(t) && LinkOf(t, g, t', g', n, r, lp, rp) && LvlOf(t, n) == lvl && AllTight(t, g, lvl)
    ensures Sound(t', g') && Short(t') && SameCells(t, t', lvl + 1) && KeepsBelow(t, g, t', g', lvl)
    ensures LevelFits(t', g', lvl, Linked(n, r)) && AllTight(t', g', lvl + 1)
    ensures LvlOf(t', n) == LvlOf(t', r) == lvl && LvlOf(t', t'.root) == LvlOf(t, t.root)
    ensures Ranged(g', n) && Ranged(g', r) && g'.hi[n] == Fence(lp) && g'.lo[r] == g'.hi[n]
  {
    hide Sound, Short, LinkOf, LevelFits, Es, Step, Fence;
    LinkSound(t, g, t', g', n, r, lp, rp);
    LinkCells(t, g, t', g', n, r, lp, rp, lvl + 1);
    LinkOwnStage(t, g, t', g', n, r, lp, rp);
    LinkFacts(t, g, t', g', n, r, lp, rp);
    LinkStep(t, g, t', g', n, r, lp, rp);
    LinkShort(t, g, t', g', n, r, lp, rp);
    LinkRootLevel(t, g, t', g', n, r, lp, rp);
    forall k: nat, st: Stage | k != lvl && LevelFits(t, g, k, st) ensures LevelFits(t', g', k, st) {
      LinkStages(t, g, t', g', n, r, lp, rp, k, st);
    }
    forall x | x in t.pages && LvlOf(t, x) < lvl ensures SamePage(t, g, t', g', x) {
      LinkFresh(t, g, t', g', n, r, lp, rp);
      StepSame(t, g, t', g', {n, r}, x);
    }
  }

  lemma {:induction false} LinkRootLevel(t: Tree, g: Ranges, t': Tree, g': Ranges, n: nat, r: nat, lp: Page, rp: Page)
    requires Sound(t, g) && LinkOf(t, g, t', g', n, r, lp, rp)
    ensures LvlOf(t', t'.root) == LvlOf(t, t.root)
  {
    hide Sound, Entries, PageOk, Halved, Fence;
    RootAlone(t, g);
    RootIn(t, g);
  }

  lemma {:induction false} LinkShort(t: Tree, g: Ranges, t': Tree, g': Ranges, n: nat, r: nat, lp: Page, rp: Page)
    requires Short(t) && LinkOf(t, g, t', g', n, r, lp, rp)
    ensures Short(t')
  {
    hide ShortPage, Entries, PageOk, Halved, Fence;
    ShortHalves(t.pages[n], lp, rp, PAGE_SIZE, r);
    ShortOnePage(t, Tree(t.root, t.pages[n := lp]), n, lp);
    ShortOnePage(Tree(t.root, t.pages[n := lp]), t', r, rp);
  }

  lemma {:induction false} PostDone(
      t: Tree, g: Ranges, t': Tree, q: nat, p': Page, i: nat, m: int, cell: Cell, lvl: nat, p: nat, r: nat)
    requires Sound(t, g) && PostOf(t, g, t', q, p', i, m, cell) && LvlOf(t, q) == lvl + 1 && AllTight(t, g, lvl + 1)
    requires LevelFits(t, g, lvl, Linked(p, r)) && p in t.pages && Ranged(g, p) && LvlOf(t, p) == lvl
    requires EntryOwns(t, g, q, i, g.hi[p]) && cell.child == p && g.hi[p] == Fin(m)
    ensures Sound(t', g) && SameCells(t, t', lvl) && KeepsBelow(t, g, t', g, lvl) && PagesBelow(t, g, t', g, lvl + 1)
    ensures OneCellMore(t, t', lvl + 1, m, cell.len)
    ensures LevelFits(t', g, lvl, Posted(p, r)) && AllTight(t', g, lvl + 1)
    ensures forall x :: LvlOf(t', x) == LvlOf(t, x)
    ensures t'.root == t.root && t'.pages.Keys == t.pages.Keys
  {
    hide Sound, PostOf, LevelFits, Es, Step, EntryOwns, LvlOf;
    PostFacts(t, g, t', q, p', i, m, cell);
    PostLinked(t, g, t', q, p', i, m, cell, lvl, p, r);
    PostSound(t, g, t', q, p', i, m, cell);
    PostStage(t, g, t', q, p', i, m, cell, lvl, p, r);
    PostStep(t, g, t', q, p', i, m, cell);
    forall k: nat, st: Stage | k != lvl && LevelFits(t, g, k, st) ensures LevelFits(t', g, k, st) {
      PostOtherStages(t, g, t', q, p', i, m, cell, k, st);
    }
    forall x | x in t.pages && LvlOf(t, x) < lvl + 1 ensures SamePage(t, g, t', g, x) { StepSame(t, g, t', g, {q}, x); }
    LevelsSame(t, g, t', g, {q}, lvl);
    PostCells(t, g, t', q, p', i, m, cell, lvl + 1);
  }

  lemma {:induction false} PostLinked(
      t: Tree, g: Ranges, t': Tree, q: nat, p': Page, i: nat, m: int, cell: Cell, lvl: nat, p: nat, r: nat)
    requires Sound(t, g) && PostOf(t, g, t', q, p', i, m, cell) && LvlOf(t, q) == lvl + 1
    requires LevelFits(t, g, lvl, Linked(p, r)) && p in t.pages && Ranged(g, p) && LvlOf(t, p) == lvl
    requires EntryOwns(t, g, q, i, g.hi[p]) && cell.child == p
    ensures q in t.pages && Ranged(g, q) && i < |Es(t, q)| && PostChild(t, g, q, i, cell)
  {
    hide Sound, PostOf, LevelFits, Es, EntryOwns, LvlOf, Prev;
    PostFacts(t, g, t', q, p', i, m, cell);
    LinkedEntry(t, g, lvl, p, r, q, i);
    LeSelf(g.lo[p]);
  }

  lemma {:induction false} CellInserted(es: seq<Entry>, i: nat, x: Entry, key: Bound, len: nat)
    requires i <= |es|
    ensures HasCell(InsertAt(es, i, x), key, len) <==> HasCell(es, key, len) || (x.key == key && x.cell.len == len)
  {
    hide HasCell;
    assert es == es[..i] + es[i..];
    CellsConcat(es[..i], es[i..], key, len);
    CellsConcat(es[..i] + [x], es[i..], key, len);
    CellsConcat(es[..i], [x], key, len);
    OneCell(x, key, len);
  }

  /** An entry put in on a page: its level holds one more key. */
  lemma {:induction false} PostHolds(
      t: Tree, g: Ranges, t': Tree, q: nat, p': Page, i: nat, m: int, cell: Cell, lvl: nat, key: Bound, len: nat)
    requires Sound(t, g) && PostOf(t, g, t', q, p', i, m, cell) && LvlOf(t, q) == lvl
    ensures Holds(t', lvl, key, len) <==> Holds(t, lvl, key, len) || (key == Fin(m) && len == cell.len)
  {
    hide Sound, PostOf, Es, Step, LvlOf, InsertAt, Prev, HasCell;
    PostFacts(t, g, t', q, p', i, m, cell);
    PostStep(t, g, t', q, p', i, m, cell);
    CellInserted(Es(t, q), i, Entry(Fin(m), cell), key, len);
    forall x: nat | x != q ensures HeldBy(t', x, lvl, key, len) <==> HeldBy(t, x, lvl, key, len) {
      StepHeld(t, g, t', g, {q}, x, lvl, key, len);
    }
    assert HeldBy(t', q, lvl, key, len) <==> HeldBy(t, q, lvl, key, len) || (key == Fin(m) && len == cell.len);
  }

  lemma {:induction false} PostCells(
      t: Tree, g: Ranges, t': Tree, q: nat, p': Page, i: nat, m: int, cell: Cell, lvl: nat)
    requires Sound(t, g) && PostOf(t, g, t', q, p', i, m, cell) && LvlOf(t, q) == lvl
    ensures OneCellMore(t, t', lvl, m, cell.len)
  {
    hide Sound, PostOf, LvlOf, Holds;
    forall b: Bound, n: nat ensures Holds(t', lvl, b, n) <==> Holds(t, lvl, b, n) || (b == Fin(m) && n == cell.len) {
      PostHolds(t, g, t', q, p', i, m, cell, lvl, b, n);
    }
  }

  /** Another child in an entry: all levels hold the same keys. */
  lemma {:induction false} FixHolds(
      t: Tree, g: Ranges, t': Tree, q: nat, p': Page, i: nat, r: nat, lvl: nat, key: Bound, len: nat)
    requires Sound(t, g) && FixOf(t, g, t', q, p', i, r)
    ensures Holds(t', lvl, key, len) <==> Holds(t, lvl, key, len)
  {
    hide Sound, FixOf, Es, Step, LvlOf, HasCell;
    FixFacts(t, g, t', q, p', i, r);
    FixStep(t, g, t', q, p', i, r);
    CellsAlike(Es(t', q), Es(t, q), key, len);
    assert HeldBy(t', q, lvl, key, len) <==> HeldBy(t, q, lvl, key, len);
    StepHolds(t, g, t', g, {q}, lvl, key, len);
  }

  lemma {:induction false} FixCells(t: Tree, g: Ranges, t': Tree, q: nat, p': Page, i: nat, r: nat, lvl: nat)
    requires Sound(t, g) && FixOf(t, g, t', q, p', i, r)
    ensures SameCells(t, t', lvl)
  {
    hide Sound, FixOf, Holds;
    forall k: nat, key: Bound, len: nat | k <= lvl ensures Holds(t', k, key, len) <==> Holds(t, k, key, len) {
      FixHolds(t, g, t', q, p', i, r, k, key, len);
    }
  }

  lemma {:induction false} FixDone(
      t: Tree, g: Ranges, t': Tree, q: nat, p': Page, i: nat, lvl: nat, p: nat, r: nat)
    requires Sound(t, g) && FixOf(t, g, t', q, p', i, r) && LvlOf(t, q) == lvl + 1 && AllTight(t, g, lvl + 1)
    requires LevelFits(t, g, lvl, Posted(p, r)) && r in t.pages && Ranged(g, r) && LvlOf(t, r) == lvl
    requires EntryOwns(t, g, q, i, g.hi[r])
    ensures Sound(t', g) && SameCells(t, t', lvl + 1) && KeepsBelow(t, g, t', g, lvl) && AllTight(t', g, lvl)
    ensures PagesBelow(t, g, t', g, lvl + 1)
    ensures forall x :: LvlOf(t', x) == LvlOf(t, x)
    ensures t'.root == t.root && t'.pages.Keys == t.pages.Keys
  {
    hide Sound, FixOf, LevelFits, Es, Step, EntryOwns, LvlOf;
    FixFacts(t, g, t', q, p', i, r);
    FixLow(t, g, t', q, p', i, lvl, p, r);
    FixSound(t, g, t', q, p', i, r);
    FixStage(t, g, t', q, p', i, lvl, p, r);
    FixStep(t, g, t', q, p', i, r);
    forall k: nat, st: Stage | k != lvl && LevelFits(t, g, k, st) ensures LevelFits(t', g, k, st) {
      FixOtherStages(t, g, t', q, p', i, r, k, st);
    }
    forall x | x in t.pages && LvlOf(t, x) < lvl + 1 ensures SamePage(t, g, t', g, x) { StepSame(t, g, t', g, {q}, x); }
    FixCells(t, g, t', q, p', i, r, lvl + 1);
  }

  lemma {:induction false} FixLow(
      t: Tree, g: Ranges, t': Tree, q: nat, p': Page, i: nat, lvl: nat, p: nat, r: nat)
    requires Sound(t, g) && FixOf(t, g, t', q, p', i, r) && LvlOf(t, q) == lvl + 1
    requires LevelFits(t, g, lvl, Posted(p, r)) && r in t.pages && Ranged(g, r) && EntryOwns(t, g, q, i, g.hi[r])
    ensures Ranged(g, q) && i < |Es(t, q)| && Le(g.lo[r], Prev(g.lo[q], Es(t, q), i))
  {
    hide Sound, FixOf, LevelFits, Es, EntryOwns, LvlOf, Prev;
    FixFacts(t, g, t', q, p', i, r);
    PostedOwner(t, g, lvl, p, r, q, i);
    LeSelf(g.lo[r]);
  }

  lemma {:induction false} SplitDone(
      t: Tree, g: Ranges, t': Tree, g': Ranges, l: nat, r: nat, lp: Page, rp: Page, np: Page, lvl: nat)
    requires Sound(t, g) && RootSplitOf(t, g, t', g', l, r, lp, rp, np) && LvlOf(t, t.root) == lvl
    requires Short(t) && ShortPage(np)
    ensures Sound(t', g') && Short(t') && SameCells(t, t', lvl) && KeepsBelow(t, g, t', g', lvl) && AllTight(t', g', lvl)
  {
    hide Sound, Short, RootSplitOf, LevelFits, Es, Step, Fence, Holds;
    SplitSound(t, g, t', g', l, r, lp, rp, np);
    SplitShort(t, g, t', g', l, r, lp, rp, np);
    SplitFacts(t, g, t', g', l, r, lp, rp, np);
    SplitStep(t, g, t', g', l, r, lp, rp, np);
    SplitCells(t, g, t', g', l, r, lp, rp, np, lvl);
    forall k: nat, st: Stage | k < lvl && LevelFits(t, g, k, st) ensures LevelFits(t', g', k, st) {
      SplitStages(t, g, t', g', l, r, lp, rp, np, k, st);
    }
    forall k: nat | k >= lvl ensures LevelFits(t', g', k, Tight) {
      SplitTopStages(t, g, t', g', l, r, lp, rp, np, k);
    }
    forall x | x in t.pages && LvlOf(t, x) < lvl ensures SamePage(t, g, t', g', x) {
      StepSame(t, g, t', g', {t.root, l, r}, x);
    }
  }

  lemma {:induction false} SplitShort(
      t: Tree, g: Ranges, t': Tree, g': Ranges, l: nat, r: nat, lp: Page, rp: Page, np: Page)
    requires RootSplitOf(t, g, t', g', l, r, lp, rp, np) && Short(t) && ShortPage(np)
    ensures Short(t')
  {
    hide ShortPage, Entries, PageOk, Halved, Fence;
    ShortHalves(t.pages[t.root], lp, rp, PAGE_SIZE, r);
    var t1 := Tree(t.root, t.pages[t.root := np]);
    var t2 := Tree(t.root, t1.pages[l := lp]);
    ShortOnePage(t, t1, t.root, np);
    ShortOnePage(t1, t2, l, lp);
    ShortOnePage(t2, t', r, rp);
  }

  /** A leaf takes a key that is not stored yet. */
  lemma {:induction false} LeafDone(t: Tree, g: Ranges, t': Tree, q: nat, p': Page, i: nat, key: int, cell: Cell)
    requires Sound(t, g) && PostOf(t, g, t', q, p', i, key, cell) && LvlOf(t, q) == 0 && AllTight(t, g, 0)
    ensures Sound(t', g) && OneCellMore(t, t', 0, key, cell.len) && KeepsBelow(t, g, t', g, 0) && AllTight(t', g, 0)
  {
    hide Sound, PostOf, LevelFits, Es, Step, LvlOf;
    PostFacts(t, g, t', q, p', i, key, cell);
    LeafChild(t, g, q, i, cell);
    PostSound(t, g, t', q, p', i, key, cell);
    PostStep(t, g, t', q, p', i, key, cell);
    forall k: nat, st: Stage | LevelFits(t, g, k, st) ensures LevelFits(t', g, k, st) {
      PostOtherStages(t, g, t', q, p', i, key, cell, k, st);
    }
    NoLevelBelow(t, g, t');
    PostCells(t, g, t', q, p', i, key, cell, 0);
  }

  lemma {:induction false} LeafChild(t: Tree, g: Ranges, q: nat, i: nat, cell: Cell)
    requires q in t.pages && Ranged(g, q) && i < |Es(t, q)| && LvlOf(t, q) == 0
    ensures PostChild(t, g, q, i, cell)
  {
  }

  lemma {:induction false} NoLevelBelow(t: Tree, g: Ranges, t': Tree)
    requires forall x :: LvlOf(t', x) == LvlOf(t, x)
    ensures forall n | n in t.pages && LvlOf(t, n) < 0 :: SamePage(t, g, t', g, n)
  {
  }
}
