/**
 A tree that satisfies all that insertions need and keep, and in which the next insertion ends
 with a misplaced fence: the leaf, the page above it and the rightmost page of level 2 are full.
 */
module BtreeOverflow {
  import opened BtreePages
  import opened BtreeInsertSlot
  import opened BtreeSplit
  import opened BtreeTree
  import opened BtreeStages
  import opened BtreeStep
  import opened BtreeInsert
  import opened BtreeHeight
  import opened BtreeSpill

  function OnePage(lvl: nat, right: nat, a: Cell, typ: SlotType): Page
    requires a.len <= PAGE_SIZE
  {
    var off := PAGE_SIZE - a.len;
    Page(lvl, right, off, 1, [Slot(off, typ, false)], map[off := a])
  }

  lemma {:induction false} OneOk(lvl: nat, right: nat, a: Cell, typ: SlotType)
    requires 0 < a.len <= LONGEST && typ != Librarian
    ensures var p := OnePage(lvl, right, a, typ);
            PageOk(p, PAGE_SIZE) && Entries(p) == [Entry(if right == 0 then High else Fin(a.key), a)]
  {
    var p := OnePage(lvl, right, a, typ);
    assert EntriesTo(p, 0) == [];
    assert EntriesTo(p, 1) == [] + [Entry(KeyAt(p, 0), CellAt(p, 0))];
    assert Entries(p)[..0] == [];
  }

  // ---------- the tree ----------

  /** Root, the full page of level 2, three pages of level 1 with the first one full, five leaves likewise. */
  function CasePage(n: nat): Page {
    match n
    case 1 => OnePage(3, 0, Cell(EMPTY, 10, 2), Indexed)
    case 2 => ThreePage(2, 0, Cell(5, 2712, 3), Cell(6, 2712, 4), Cell(EMPTY, 10, 5), Indexed)
    case 3 => ThreePage(1, 4, Cell(3, 2712, 6), Cell(4, 2712, 7), Cell(5, 2712, 8), Indexed)
    case 4 => OnePage(1, 5, Cell(6, 2712, 9), Indexed)
    case 5 => OnePage(1, 0, Cell(EMPTY, 10, 10), Stopper)
    case 6 => ThreePage(0, 7, Cell(1, 2704, 0), Cell(2, 2704, 0), Cell(3, 2704, 0), Indexed)
    case 7 => OnePage(0, 8, Cell(4, 2704, 0), Indexed)
    case 8 => OnePage(0, 9, Cell(5, 2704, 0), Indexed)
    case 9 => OnePage(0, 10, Cell(6, 2704, 0), Indexed)
    case _ => OnePage(0, 0, Cell(EMPTY, 1, 0), Stopper)
  }

  function CaseLo(n: nat): Bound {
    match n
    case 4 => Fin(5)
    case 5 => Fin(6)
    case 7 => Fin(3)
    case 8 => Fin(4)
    case 9 => Fin(5)
    case 10 => Fin(6)
    case _ => Low
  }

  function CaseHi(n: nat): Bound {
    match n
    case 3 => Fin(5)
    case 4 => Fin(6)
    case 6 => Fin(3)
    case 7 => Fin(4)
    case 8 => Fin(5)
    case 9 => Fin(6)
    case _ => High
  }

  function CaseTree(): Tree { Tree(1, map n: nat | 1 <= n <= 10 :: CasePage(n)) }

  function CaseRanges(): Ranges {
    Ranges(map n: nat | 1 <= n <= 10 :: CaseLo(n), map n: nat | 1 <= n <= 10 :: CaseHi(n))
  }

  function CaseEntries(n: nat): seq<Entry> {
    match n
    case 1 => [Entry(High, Cell(EMPTY, 10, 2))]
    case 2 => [Entry(Fin(5), Cell(5, 2712, 3)), Entry(Fin(6), Cell(6, 2712, 4)), Entry(High, Cell(EMPTY, 10, 5))]
    case 3 => [Entry(Fin(3), Cell(3, 2712, 6)), Entry(Fin(4), Cell(4, 2712, 7)), Entry(Fin(5), Cell(5, 2712, 8))]
    case 4 => [Entry(Fin(6), Cell(6, 2712, 9))]
    case 5 => [Entry(High, Cell(EMPTY, 10, 10))]
    case 6 => [Entry(Fin(1), Cell(1, 2704, 0)), Entry(Fin(2), Cell(2, 2704, 0)), Entry(Fin(3), Cell(3, 2704, 0))]
    case 7 => [Entry(Fin(4), Cell(4, 2704, 0))]
    case 8 => [Entry(Fin(5), Cell(5, 2704, 0))]
    case 9 => [Entry(Fin(6), Cell(6, 2704, 0))]
    case _ => [Entry(High, Cell(EMPTY, 1, 0))]
  }

  lemma {:induction false} CasePageOk(n: nat)
    requires 1 <= n <= 10
    ensures PageOk(CasePage(n), PAGE_SIZE) && Entries(CasePage(n)) == CaseEntries(n)
  {
    hide PageOk, Entries, KeySpace;
    match n
    case 1 => OneOk(3, 0, Cell(EMPTY, 10, 2), Indexed);
    case 2 =>
      ThreeOk(2, 0, Cell(5, 2712, 3), Cell(6, 2712, 4), Cell(EMPTY, 10, 5), Indexed);
      ThreeEntries(2, 0, Cell(5, 2712, 3), Cell(6, 2712, 4), Cell(EMPTY, 10, 5), Indexed);
    case 3 =>
      ThreeOk(1, 4, Cell(3, 2712, 6), Cell(4, 2712, 7), Cell(5, 2712, 8), Indexed);
      ThreeEntries(1, 4, Cell(3, 2712, 6), Cell(4, 2712, 7), Cell(5, 2712, 8), Indexed);
    case 4 => OneOk(1, 5, Cell(6, 2712, 9), Indexed);
    case 5 => OneOk(1, 0, Cell(EMPTY, 10, 10), Stopper);
    case 6 =>
      ThreeOk(0, 7, Cell(1, 2704, 0), Cell(2, 2704, 0), Cell(3, 2704, 0), Indexed);
      ThreeEntries(0, 7, Cell(1, 2704, 0), Cell(2, 2704, 0), Cell(3, 2704, 0), Indexed);
    case 7 => OneOk(0, 8, Cell(4, 2704, 0), Indexed);
    case 8 => OneOk(0, 9, Cell(5, 2704, 0), Indexed);
    case 9 => OneOk(0, 10, Cell(6, 2704, 0), Indexed);
    case _ => OneOk(0, 0, Cell(EMPTY, 1, 0), Stopper);
  }

  lemma {:induction false} CaseMarked(n: nat)
    requires 1 <= n <= 10
    ensures Marked(CasePage(n)) && Lean(CasePage(n))
  {
    hide PageOk, Entries;
    CasePageOk(n);
  }

  lemma {:induction false} CaseShort(n: nat)
    requires 1 <= n <= 10
    ensures ShortPage(CasePage(n))
  {
    hide PageOk, Entries, Lean;
    CasePageOk(n);
    CaseMarked(n);
  }

  lemma {:induction false} CaseAt(n: nat)
    requires 1 <= n <= 10
    ensures var t, g := CaseTree(), CaseRanges();
            && n in t.pages && t.pages[n] == CasePage(n) && Es(t, n) == CaseEntries(n) && LvlOf(t, n) == CasePage(n).lvl
            && Ranged(g, n) && g.lo[n] == CaseLo(n) && g.hi[n] == CaseHi(n)
  {
    hide Entries, CasePage, CaseEntries, PageOk;
    CasePageOk(n);
  }

  lemma {:induction false} CaseIncreasing(n: nat)
    requires 1 <= n <= 10
    ensures var es := CaseEntries(n); Increasing(CaseLo(n), es) && es[|es| - 1].key == CaseHi(n)
  {
  }

  /** Right links and children, and the levels they are on. */
  lemma {:induction false} CaseNode(n: nat)
    requires 1 <= n <= 10
    ensures var t, g := CaseTree(), CaseRanges(); n in t.pages && NodeGood(t, g, n)
  {
    hide PageOk, Entries, Increasing, CaseEntries, Es;
    CaseAt(n);
    CasePageOk(n);
    CaseIncreasing(n);
    var r := CasePage(n).right;
    if r != 0 { CaseAt(r); }
  }

  /** Every entry stands for its child's range. */
  lemma {:induction false} CaseChild(n: nat, i: nat)
    requires 1 <= n <= 5 && i < |CaseEntries(n)|
    ensures var c := CaseEntries(n)[i].cell.child;
            && 1 <= c <= 10 && CasePage(c).lvl + 1 == CasePage(n).lvl
            && CaseLo(c) == Prev(CaseLo(n), CaseEntries(n), i) && CaseHi(c) == CaseEntries(n)[i].key
  {
  }

  lemma {:induction false} CaseLevels(n: nat)
    requires 1 <= n <= 10
    ensures CasePage(n).lvl <= 3 && (CasePage(n).lvl > 0 <==> n <= 5) && (CasePage(n).lvl == 3 <==> n == 1)
  {
  }

  lemma {:induction false} CaseApart(n: nat, m: nat)
    requires 1 <= n <= 10 && 1 <= m <= 10 && n != m && CasePage(n).lvl == CasePage(m).lvl
    ensures Le(CaseHi(n), CaseLo(m)) || Le(CaseHi(m), CaseLo(n))
  {
  }

  lemma {:induction false} CaseFits(n: nat)
    requires 1 <= n <= 10
    ensures var t, g := CaseTree(), CaseRanges(); n in t.pages && PageFits(t, g, n)
  {
    hide CaseTree, CaseRanges, CasePage, CaseEntries, CaseLo, CaseHi, NodeGood, Es, LvlOf, Le, Prev;
    var t, g := CaseTree(), CaseRanges();
    CaseNode(n);
    CaseAt(n);
    CaseLevels(n);
    forall i: nat | LvlOf(t, n) > 0 && i < |Es(t, n)| ensures ChildGood(t, g, n, i) {
      CaseChild(n, i);
      CaseAt(CaseEntries(n)[i].cell.child);
      LeSame(CaseLo(CaseEntries(n)[i].cell.child));
    }
  }

  lemma {:induction false} CaseSound()
    ensures Sound(CaseTree(), CaseRanges())
  {
    hide CaseTree, CaseRanges, CasePage, CaseEntries, CaseLo, CaseHi, NodeGood, Es, LvlOf, Le, Prev;
    var t, g := CaseTree(), CaseRanges();
    CaseDomain();
    forall n | n in t.pages && n != t.root ensures LvlOf(t, n) < LvlOf(t, t.root) {
      CaseAt(n);
      CaseAt(1);
      CaseLevels(n);
      CaseLevels(1);
    }
    CaseAt(1);
    CaseRoot();
    forall n | n in t.pages ensures PageFits(t, g, n) { CaseFits(n); }
    AllPages(t, g);
    forall x, y | x in t.pages && y in t.pages && x != y && LvlOf(t, x) == LvlOf(t, y)
      ensures Ranged(g, x) && Ranged(g, y) && Apart(g, x, y)
    {
      CaseAt(x);
      CaseAt(y);
      CaseApart(x, y);
    }
    AllSound(t, g);
  }

  lemma {:induction false} LeSame(b: Bound)
    ensures Le(b, b)
  {
  }

  lemma {:induction false} CaseDomain()
    ensures CaseTree().root == 1 && forall n: nat :: n in CaseTree().pages <==> 1 <= n <= 10
  {
  }

  lemma {:induction false} CaseRoot()
    ensures CaseLo(1) == Low && CasePage(1).right == 0 && CasePage(1).lvl == 3
  {
  }

  lemma {:induction false} CaseTight(lvl: nat)
    ensures LevelFits(CaseTree(), CaseRanges(), lvl, Tight)
  {
    hide CaseTree, CaseRanges, CasePage, CaseEntries, CaseLo, CaseHi, Es, LvlOf, Prev;
    var t, g := CaseTree(), CaseRanges();
    CaseDomain();
    forall n, i: nat | n in t.pages && LvlOf(t, n) == lvl + 1 && i < |Es(t, n)| ensures EntryFits(t, g, n, i, Tight) {
      CaseAt(n);
      CaseLevels(n);
      CaseChild(n, i);
      CaseAt(CaseEntries(n)[i].cell.child);
    }
  }

  // ---------- the insertion ----------

  lemma {:induction false} CaseFull()
    ensures !Room(CasePage(6), 2704) && MidCell(CasePage(6)) == Cell(1, 2704, 0)
    ensures !Room(CasePage(3), 2712) && MidCell(CasePage(3)) == Cell(3, 2712, 6)
    ensures !Room(CasePage(2), 2712) && CasePage(2).right == 0
  {
    ThreeCells(0, 7, Cell(1, 2704, 0), Cell(2, 2704, 0), Cell(3, 2704, 0), Indexed);
    ThreeCells(1, 4, Cell(3, 2712, 6), Cell(4, 2712, 7), Cell(5, 2712, 8), Indexed);
  }

  lemma {:induction false} CaseLevel(n: nat)
    requires n == 2 || n == 3 || n == 6
    ensures CasePage(n).lvl == (if n == 2 then 2 else if n == 3 then 1 else 0) && CaseLo(n) == Low
    ensures CaseHi(n) == if n == 2 then High else if n == 3 then Fin(5) else Fin(3)
  {
  }

  lemma {:induction false} CaseOverflows()
    ensures Overflows(CaseTree(), CaseRanges(), 0, 0, 2704)
  {
    hide CaseTree, CaseRanges, CasePage, Es, LvlOf, Room, MidCell, CaseLo, CaseHi;
    var t, g := CaseTree(), CaseRanges();
    CaseDomain();
    CaseRoot();
    CaseAt(1);
    CaseAt(2);
    CaseAt(3);
    CaseAt(6);
    CaseLevel(2);
    CaseLevel(3);
    CaseLevel(6);
    CaseFull();
    assert Spills(t, g, 2);
    assert Owns(t, g, 2, 3);
    assert Overflows(t, g, 3, 2, 2712);
    assert FenceLen(1, 2712) == 2712;
    assert Spills(t, g, 3);
    assert Owns(t, g, 3, 1);
    assert Overflows(t, g, 1, 1, 2712);
    assert FenceLen(0, 2704) == 2712;
    assert Spills(t, g, 6);
    assert Owns(t, g, 6, 0);
  }

  lemma {:induction false} CaseNew(n: nat, i: nat)
    requires 1 <= n <= 10 && i < |CaseEntries(n)|
    ensures CaseEntries(n)[i].key != Fin(0)
  {
  }

  /** All that InsertKey asks for holds of the tree, and the insertion overflows. */
  lemma {:induction false} OverflowCase()
    ensures var t, g := CaseTree(), CaseRanges();
            && Sound(t, g) && Short(t) && Stops(t) && Numbered(t, 11) && (forall k: nat :: LevelFits(t, g, k, Tight))
            && !Stored(t, 0) && 2704 <= MaxLen(0) && Overflows(t, g, 0, 0, 2704)
  {
    hide CaseTree, CaseRanges, CasePage, CaseEntries, Sound, Overflows, LevelFits, LvlOf, Es, ShortPage, Marked;
    var t, g := CaseTree(), CaseRanges();
    CaseSound();
    CaseOverflows();
    CaseDomain();
    forall k: nat ensures LevelFits(t, g, k, Tight) { CaseTight(k); }
    forall n | n in t.pages ensures ShortPage(t.pages[n]) && Marked(t.pages[n]) {
      CaseAt(n);
      CaseShort(n);
      CaseMarked(n);
    }
    forall n, i: nat | n in t.pages && i < |Es(t, n)| ensures Es(t, n)[i].key != Fin(0) {
      CaseAt(n);
      CaseNew(n, i);
    }
  }
}
