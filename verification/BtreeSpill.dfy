/**
 Where page splits go wrong. btreeFixKey looks for the stopper only when the slot says so, and from
 the third level on no slot does: the fence of a rightmost page there is looked up by the empty
 key, and the first entry of the level above is repointed instead of the last one.
 */
module BtreeSpill {
  import opened BtreePages
  import opened BtreeInsertSlot
  import opened BtreeSplit
  import opened BtreeTree
  import opened BtreeStages
  import opened BtreeStep
  import opened BtreeLink
  import opened BtreePost
  import opened BtreeFix
  import opened BtreeRoot
  import opened BtreeInsert
  import opened BtreeHeight

  // ---------- the misplaced fence ----------

  ghost predicate Searchable(t: Tree) { exists g :: Sound(t, g) }

  ghost predicate Stops(t: Tree) { forall n | n in t.pages :: Marked(t.pages[n]) }

  /** btreeFixKey repoints the entry of this right page. */
  predicate Completes(p: Page) { p.right != 0 || (|p.slots| > 0 && p.slots[|p.slots| - 1].typ == Stopper) }

  lemma {:induction false} ChildMarked(p: Page, size: nat, i: nat, c: nat)
    requires PageOk(p, size) && i < |p.slots| && !p.slots[i].dead && Marked(p)
    ensures Marked(WithChild(p, i, c))
  {
    hide PageOk, KeyAt;
    var q := WithChild(p, i, c);
    forall j: nat | j < |q.slots| ensures MarkedSlot(q, j) {
      ChildSlot(p, size, i, c, j);
      assert MarkedSlot(p, j);
    }
  }

  /** No entry lies below the empty key. */
  lemma {:induction false} AboveEmpty(p: Page, k: nat)
    requires SlotsOk(p) && Marked(p) && k < |Entries(p)|
    ensures Lt(Fin(EMPTY), Entries(p)[k].key)
  {
    hide EntriesTo;
    var i := SlotOfEntry(p, |p.slots|, k);
    assert MarkedSlot(p, i) && p.slots[i] in p.slots;
  }

  /** Down the first entries. */
  ghost function Leftmost(t: Tree, n: nat, lvl: nat): nat
    decreases LvlOf(t, n)
  {
    if LvlOf(t, n) > lvl && |Es(t, n)| > 0 && LvlOf(t, Es(t, n)[0].cell.child) < LvlOf(t, n)
    then Leftmost(t, Es(t, n)[0].cell.child, lvl) else n
  }

  lemma {:induction false} LeftmostLow(t: Tree, g: Ranges, n: nat, lvl: nat)
    requires Sound(t, g) && n in t.pages && Ranged(g, n) && g.lo[n] == Low && lvl <= LvlOf(t, n)
    ensures var m := Leftmost(t, n, lvl); m in t.pages && Ranged(g, m) && g.lo[m] == Low && LvlOf(t, m) == lvl
    decreases LvlOf(t, n)
  {
    hide Sound, Es, PageOk, Increasing;
    if LvlOf(t, n) > lvl {
      GoodNode(t, g, n);
      GoodEntries(t, g, n);
      SomeEntry(g.lo[n], Es(t, n));
      GoodChild(t, g, n, 0);
      LeftmostLow(t, g, Es(t, n)[0].cell.child, lvl);
    }
  }

  lemma {:induction false} SomeEntry(lo: Bound, es: seq<Entry>)
    requires Increasing(lo, es)
    ensures |es| > 0
  {
  }

  lemma {:induction false} LeftmostSame(t: Tree, t': Tree, n: nat, lvl: nat)
    requires forall x :: LvlOf(t', x) == LvlOf(t, x)
    requires forall x | LvlOf(t, x) > lvl :: Es(t', x) == Es(t, x)
    ensures Leftmost(t', n, lvl) == Leftmost(t, n, lvl)
    decreases LvlOf(t, n)
  {
    hide Es, LvlOf;
    if LvlOf(t, n) > lvl && |Es(t, n)| > 0 && LvlOf(t, Es(t, n)[0].cell.child) < LvlOf(t, n) {
      LeftmostSame(t, t', Es(t, n)[0].cell.child, lvl);
    }
  }

  /** The empty key belongs to the leftmost page, and there to the first entry. */
  lemma {:induction false} EmptyOwner(t: Tree, g: Ranges, q: nat, i: nat, lvl: nat)
    requires Sound(t, g) && Stops(t) && EntryOwns(t, g, q, i, Fin(EMPTY)) && LvlOf(t, q) == lvl
    ensures i == 0 && q == Leftmost(t, t.root, lvl)
  {
    hide Sound, Entries, PageOk, RightGood, Increasing, Marked, SlotsOk, Leftmost, SortedPage;
    SearchReady(t, g, q);
    if i > 0 { AboveEmpty(t.pages[q], i - 1); }
    EntryInRange(t, g, q, i, Fin(EMPTY));
    RootStart(t, g, EMPTY);
    RootLow(t, g, q);
    LeftmostLow(t, g, t.root, lvl);
    var m := Leftmost(t, t.root, lvl);
    PageRange(t, g, m);
    GoodNode(t, g, m);
    GoodEntries(t, g, m);
    SomeEntry(g.lo[m], Es(t, m));
    SearchReady(t, g, m);
    AboveEmpty(t.pages[m], |Es(t, m)| - 1);
    OwnerOnce(t, g, q, m, EMPTY);
  }

  lemma {:induction false} RootLow(t: Tree, g: Ranges, n: nat)
    requires Sound(t, g) && n in t.pages
    ensures t.root in t.pages && Ranged(g, t.root) && g.lo[t.root] == Low && LvlOf(t, n) <= LvlOf(t, t.root)
  {
    hide NodesGood, ChildrenGood, RangesApart;
  }

  /** With the first entry led to a page that has a left sibling, no ranges make the tree searchable. */
  lemma {:induction false} Misplaced(t: Tree, g: Ranges, t': Tree, q: nat, p': Page, i: nat, r: nat, p: nat)
    requires Sound(t, g) && Stops(t) && FixOf(t, g, t', q, p', i, r) && EntryOwns(t, g, q, i, Fin(EMPTY))
    requires p in t.pages && t.pages[p].right == r != 0 && LvlOf(t, p) + 1 == LvlOf(t, q)
    ensures !Searchable(t')
  {
    hide Sound, Es, PageOk, EntryOwns, Leftmost, FixOf, Stops;
    FixFacts(t, g, t', q, p', i, r);
    FixEntry(t, g, t', q, p', i, r, i);
    EmptyOwner(t, g, q, i, LvlOf(t, q));
    FixElsewhere(t, g, t', q, p', i, r);
    LeftmostSame(t, t', t.root, LvlOf(t, q));
    forall g' ensures !Sound(t', g') {
      if Sound(t', g') {
        RootLow(t', g', q);
        LeftmostLow(t', g', t'.root, LvlOf(t, q));
        GoodChild(t', g', q, 0);
        GoodNode(t', g', p);
        PageRange(t', g', p);
        assert false;
      }
    }
  }

  lemma {:induction false} FixElsewhere(t: Tree, g: Ranges, t': Tree, q: nat, p': Page, i: nat, r: nat)
    requires Sound(t, g) && FixOf(t, g, t', q, p', i, r)
    ensures forall x | x != q :: Es(t', x) == Es(t, x)
  {
    hide Sound, Entries, PageOk;
  }

  // ---------- which insertions come to that ----------

  /** The split of page `n` ends with a misplaced fence: its own, or that of a page its fence overflows. */
  ghost predicate Spills(t: Tree, g: Ranges, n: nat)
    decreases LvlOf(t, t.root) - LvlOf(t, n), 0
  {
    && n in t.pages && LvlOf(t, n) < LvlOf(t, t.root)
    && var p, mid := t.pages[n], MidCell(t.pages[n]);
       (p.right == 0 && p.lvl >= 2) || Overflows(t, g, mid.key, p.lvl + 1, FenceLen(p.lvl, mid.len))
  }

  /** The page that owns the key has no room for `len` bytes, and its split spills. */
  ghost predicate Overflows(t: Tree, g: Ranges, key: int, lvl: nat, len: nat)
    decreases LvlOf(t, t.root) - lvl, 1
  {
    exists n: nat :: Owns(t, g, n, key) && LvlOf(t, n) == lvl && !Room(t.pages[n], len) && Spills(t, g, n)
  }

  predicate LiveRoom(live: seq<Live>, len: nat) { PAGE_SIZE >= Total(live) + 2 * |live| * SLOT + HEAD + len }

  /** After its split the page has room on either side. */
  predicate HalvesRoom(p: Page, len: nat) { LiveRoom(LowerLive(p), len) && LiveRoom(UpperLive(p), len) }

  /** No page is split twice for the fence of page `n`. */
  ghost predicate OnceAbove(t: Tree, g: Ranges, n: nat)
    decreases LvlOf(t, t.root) - LvlOf(t, n), 0
  {
    n in t.pages && LvlOf(t, n) < LvlOf(t, t.root) ==>
      var p, mid := t.pages[n], MidCell(t.pages[n]);
      SplitsOnce(t, g, mid.key, p.lvl + 1, FenceLen(p.lvl, mid.len))
  }

  /** No page is split twice for this key. */
  ghost predicate SplitsOnce(t: Tree, g: Ranges, key: int, lvl: nat, len: nat)
    decreases LvlOf(t, t.root) - lvl, 1
  {
    forall n: nat | Owns(t, g, n, key) && LvlOf(t, n) == lvl && !Room(t.pages[n], len) ::
      HalvesRoom(t.pages[n], len) && OnceAbove(t, g, n)
  }

  /** Root and pages from level `lvl` up are the same. */
  ghost predicate SameAbove(t: Tree, g: Ranges, t': Tree, g': Ranges, lvl: nat) {
    && t'.root == t.root && LvlOf(t', t.root) == LvlOf(t, t.root)
    && forall n: nat | LvlOf(t, n) >= lvl || LvlOf(t', n) >= lvl :: SamePage(t, g, t', g', n)
  }

  lemma {:induction false} SameOwner(t: Tree, g: Ranges, t': Tree, g': Ranges, low: nat, n: nat, key: int)
    requires SameAbove(t, g, t', g', low) && (LvlOf(t, n) >= low || LvlOf(t', n) >= low)
    ensures n in t.pages && n in t'.pages && t'.pages[n] == t.pages[n] && LvlOf(t', n) == LvlOf(t, n) >= low
    ensures Owns(t', g', n, key) <==> Owns(t, g, n, key)
  {
  }

  lemma {:induction false} SpillsSame(t: Tree, g: Ranges, t': Tree, g': Ranges, low: nat, n: nat)
    requires SameAbove(t, g, t', g', low) && LvlOf(t, n) >= low
    ensures Spills(t', g', n) <==> Spills(t, g, n)
    ensures OnceAbove(t', g', n) <==> OnceAbove(t, g, n)
    decreases LvlOf(t, t.root) - LvlOf(t, n), 0
  {
    hide Owns, MidCell, Room, SameAbove, HalvesRoom, SplitsOnce, Overflows;
    SameOwner(t, g, t', g', low, n, 0);
    SameRoots(t, g, t', g', low);
    if LvlOf(t, n) < LvlOf(t, t.root) {
      var p, mid := t.pages[n], MidCell(t.pages[n]);
      OverflowsSame(t, g, t', g', low, mid.key, p.lvl + 1, FenceLen(p.lvl, mid.len));
    }
  }

  lemma {:induction false} SameRoots(t: Tree, g: Ranges, t': Tree, g': Ranges, lvl: nat)
    requires SameAbove(t, g, t', g', lvl)
    ensures t'.root == t.root && LvlOf(t', t'.root) == LvlOf(t, t.root)
  {
  }

  lemma {:induction false} OverflowsSame(t: Tree, g: Ranges, t': Tree, g': Ranges, low: nat, key: int, lvl: nat, len: nat)
    requires SameAbove(t, g, t', g', low) && low <= lvl
    ensures Overflows(t', g', key, lvl, len) <==> Overflows(t, g, key, lvl, len)
    ensures SplitsOnce(t', g', key, lvl, len) <==> SplitsOnce(t, g, key, lvl, len)
    decreases LvlOf(t, t.root) - lvl, 1
  {
    hide Owns, MidCell, Room, SameAbove, HalvesRoom, Spills, OnceAbove, LvlOf;
    forall n: nat | LvlOf(t, n) == lvl || LvlOf(t', n) == lvl
      ensures n in t.pages && n in t'.pages && t'.pages[n] == t.pages[n] && LvlOf(t', n) == LvlOf(t, n)
      ensures Owns(t', g', n, key) <==> Owns(t, g, n, key)
      ensures Spills(t', g', n) <==> Spills(t, g, n)
      ensures OnceAbove(t', g', n) <==> OnceAbove(t, g, n)
    {
      SameOwner(t, g, t', g', low, n, key);
      SpillsSame(t, g, t', g', low, n);
    }
  }

  /** Up to a root on level 2 nothing spills before a split raises it. */
  lemma {:induction false} LowRootHolds(t: Tree, g: Ranges, key: int, lvl: nat, len: nat)
    requires LvlOf(t, t.root) <= 2
    ensures !Overflows(t, g, key, lvl, len)
    decreases LvlOf(t, t.root) - lvl
  {
    hide Owns, MidCell, Room;
    forall n: nat | LvlOf(t, n) == lvl ensures !Spills(t, g, n) {
      if n in t.pages && LvlOf(t, n) < LvlOf(t, t.root) {
        var p, mid := t.pages[n], MidCell(t.pages[n]);
        LowRootHolds(t, g, mid.key, lvl + 1, FenceLen(p.lvl, mid.len));
      }
    }
  }

  // ---------- the page that owns the key decides ----------

  lemma {:induction false} OwnerOverflows(t: Tree, g: Ranges, n: nat, key: int, lvl: nat, len: nat)
    requires Sound(t, g) && Owns(t, g, n, key) && LvlOf(t, n) == lvl
    ensures n in t.pages
    ensures Overflows(t, g, key, lvl, len) <==> !Room(t.pages[n], len) && Spills(t, g, n)
    ensures SplitsOnce(t, g, key, lvl, len) <==>
            (!Room(t.pages[n], len) ==> HalvesRoom(t.pages[n], len) && OnceAbove(t, g, n))
  {
    hide Sound, Room, Spills, HalvesRoom, OnceAbove;
    forall m: nat | Owns(t, g, m, key) && LvlOf(t, m) == lvl ensures m == n { OwnerOnce(t, g, n, m, key); }
  }

  /** Whatever page of the level owns the key has room for `len` bytes. */
  ghost predicate OwnerRoom(t: Tree, g: Ranges, lvl: nat, key: int, len: nat) {
    forall n: nat | Owns(t, g, n, key) && LvlOf(t, n) == lvl :: Room(t.pages[n], len)
  }

  lemma {:induction false} HalvesHaveRoom(p: Page, l: Page, r: Page, right: nat, len: nat)
    requires HalvesAre(p, l, r, PAGE_SIZE, right)
    ensures HalvesRoom(p, len) ==> Room(l, len) && Room(r, len)
  {
    hide HalvesAre, LowerLive, UpperLive, Total;
    HalfSizes(p, l, r, PAGE_SIZE, right);
  }

  // ---------- short keys ----------

  /** Keys with which no page is ever split twice for one key. */
  const NARROW := 41

  function NarrowLen(lvl: int): nat { if lvl == 0 then NARROW - 8 else NARROW }

  ghost predicate Narrow(t: Tree) { forall n | n in t.pages :: KeysUpTo(t.pages[n], NarrowLen(t.pages[n].lvl)) }

  lemma {:induction false} SpaceAtMost(es: seq<Entry>)
    requires forall e | e in es :: e.cell.len <= NARROW
    ensures KeySpace(es) <= NARROW * |es|
  {
    if es != [] {
      assert es[|es| - 1] in es;
      SpaceAtMost(es[..|es| - 1]);
    }
  }

  lemma {:induction false} TotalAtLeast(live: seq<Live>)
    requires forall k | 0 <= k < |live| :: live[k].cell.len > 0
    ensures Total(live) >= |live|
  {
    if live != [] { TotalAtLeast(live[..|live| - 1]); }
  }

  /** At least every second slot is live. */
  lemma {:induction false} LiveMany(p: Page, from: nat, n: nat)
    requires SlotsOk(p) && from <= n <= |p.slots|
    ensures 2 * |LiveTo(p, from, n)| + (if from < n && p.slots[n - 1].dead then 1 else 0) >= n - from
  {
    hide CellAt;
    if from < n {
      LiveMany(p, from, n - 1);
      assert n >= 2 && p.slots[n - 2].dead ==> !p.slots[n - 1].dead;
    }
  }

  /** The slots and bytes of a half, and what the other half takes of them. */
  lemma {:induction false} HalfCounts(p: Page)
    requires PageOk(p, PAGE_SIZE)
    ensures var s, a, b := |p.slots|, LowerLive(p), UpperLive(p);
            && Total(a) + Total(b) == PAGE_SIZE - p.min && Total(a) >= |a| && Total(b) >= |b|
            && s / 2 - 1 <= 2 * |a| && |a| <= s / 2 && s - s / 2 <= 2 * |b| && |b| <= s - s / 2
  {
    hide LiveTo, EntriesTo, KeySpace, LowerEnd, LiveOk, SortedPage;
    PageParts(p, PAGE_SIZE);
    var n := |p.slots| / 2;
    LowerHalf(p);
    LastLive(p);
    LiveTotal(p, 0, n);
    LiveTotal(p, n, |p.slots|);
    EmptyStart(p);
    LiveCount(p, 0, n);
    LiveCount(p, n, |p.slots|);
    LiveMany(p, 0, n);
    LiveMany(p, n, |p.slots|);
    forall k | 0 <= k < |LiveTo(p, 0, n)| ensures LiveTo(p, 0, n)[k].cell.len > 0 { LiveLength(p, PAGE_SIZE, 0, n, k); }
    forall k | 0 <= k < |LiveTo(p, n, |p.slots|)| ensures LiveTo(p, n, |p.slots|)[k].cell.len > 0 {
      LiveLength(p, PAGE_SIZE, n, |p.slots|, k);
    }
    TotalAtLeast(LiveTo(p, 0, n));
    TotalAtLeast(LiveTo(p, n, |p.slots|));
  }

  lemma {:induction false} EmptyStart(p: Page)
    ensures EntriesTo(p, 0) == [] && KeySpace(EntriesTo(p, 0)) == 0
  {
  }

  /** A full page of short keys has so many that either half makes room for one more. */
  lemma {:induction false} NarrowHalves(p: Page, len: nat)
    requires PageOk(p, PAGE_SIZE) && KeysUpTo(p, NARROW) && len <= NARROW && !Room(p, len)
    ensures HalvesRoom(p, len)
  {
    hide Entries, KeySpace, LowerLive, UpperLive, Total, SlotsOk, SortedPage, Overlap;
    SpaceAtMost(Entries(p));
    EntriesBounded(p, |p.slots|);
    SizeOf(p);
    HalfCounts(p);
  }

  lemma {:induction false} SizeOf(p: Page)
    requires PageOk(p, PAGE_SIZE)
    ensures KeySpace(Entries(p)) == PAGE_SIZE - p.min && HEAD + SLOT * |p.slots| <= p.min
    ensures |EntriesTo(p, |p.slots|)| == |Entries(p)|
  {
  }

  lemma {:induction false} MidLength(p: Page, max: nat)
    requires SlotsOk(p) && KeysUpTo(p, max)
    ensures MidCell(p).len <= max
  {
    hide EntriesTo, CellAt;
    LowerHalf(p);
    if LowerEnd(p) > 0 {
      EntryOfSlot(p, LowerEnd(p) - 1);
      assert Entries(p)[|EntriesTo(p, LowerEnd(p) - 1)|] in Entries(p);
    }
  }

  /** With keys of up to 33 bytes, length prefix included, no page is split twice for one key. */
  lemma {:induction false} NarrowOnce(t: Tree, g: Ranges, key: int, lvl: nat, len: nat)
    requires Sound(t, g) && Narrow(t) && len <= NarrowLen(lvl)
    ensures SplitsOnce(t, g, key, lvl, len)
    decreases LvlOf(t, t.root) - lvl
  {
    hide Sound, PageOk, KeysUpTo, Room, HalvesRoom, MidCell, SlotsOk, SortedPage;
    forall n: nat | Owns(t, g, n, key) && LvlOf(t, n) == lvl && !Room(t.pages[n], len)
      ensures HalvesRoom(t.pages[n], len) && OnceAbove(t, g, n)
    {
      var p := t.pages[n];
      SearchReady(t, g, n);
      KeysUpToMore(p, NarrowLen(lvl), NARROW);
      NarrowHalves(p, len);
      MidLength(p, NarrowLen(lvl));
      if lvl < LvlOf(t, t.root) {
        NarrowOnce(t, g, MidCell(p).key, lvl + 1, FenceLen(lvl, MidCell(p).len));
      }
    }
  }

  // ---------- short keys through the steps ----------

  lemma {:induction false} NarrowAt(t: Tree, n: nat)
    requires Narrow(t) && n in t.pages
    ensures KeysUpTo(t.pages[n], NarrowLen(t.pages[n].lvl))
  {
    hide KeysUpTo;
  }

  lemma {:induction false} NarrowOnePage(t: Tree, t': Tree, q: nat, p': Page)
    requires Narrow(t) && KeysUpTo(p', NarrowLen(p'.lvl)) && t'.pages == t.pages[q := p']
    ensures Narrow(t')
  {
    hide KeysUpTo;
  }

  lemma {:induction false} NarrowInsert(t: Tree, t': Tree, n: nat, p': Page, i: nat, x: Entry)
    requires Narrow(t) && n in t.pages && t'.pages == t.pages[n := p'] && p'.lvl == t.pages[n].lvl
    requires i <= |Es(t, n)| && Entries(p') == InsertAt(Es(t, n), i, x) && x.cell.len <= NarrowLen(p'.lvl)
    ensures Narrow(t')
  {
    hide Entries;
    NarrowAt(t, n);
    NarrowOnePage(t, t', n, p');
  }

  lemma {:induction false} NarrowChild(t: Tree, t': Tree, n: nat, i: nat, c: nat)
    requires Narrow(t) && n in t.pages && PageOk(t.pages[n], PAGE_SIZE) && i < |t.pages[n].slots| && !t.pages[n].slots[i].dead
    requires t'.pages == t.pages[n := WithChild(t.pages[n], i, c)]
    ensures Narrow(t')
  {
    hide Entries, PageOk, WithChild;
    var p, q := t.pages[n], WithChild(t.pages[n], i, c);
    NarrowAt(t, n);
    ChildOk(p, PAGE_SIZE, i, c);
    var k := |EntriesTo(p, i)|;
    assert Entries(p)[k] in Entries(p);
    forall e | e in Entries(q) ensures e.cell.len <= NarrowLen(p.lvl) {
      var j :| 0 <= j < |Entries(q)| && Entries(q)[j] == e;
      if j != k { assert e in Entries(p); }
    }
    NarrowOnePage(t, t', n, q);
  }

  lemma {:induction false} NarrowHalved(p: Page, l: Page, r: Page, right: nat, max: nat)
    requires Halved(p, l, r, PAGE_SIZE, right) && KeysUpTo(p, max)
    ensures l.lvl == r.lvl == p.lvl && KeysUpTo(l, max) && KeysUpTo(r, max)
  {
    hide Entries, PageOk;
    assert forall e | e in Entries(l) || e in Entries(r) :: e in Entries(l) + Entries(r);
  }

  lemma {:induction false} NarrowSplit(t: Tree, t': Tree, n: nat, r: nat, lp: Page, rp: Page, cell: Cell)
    requires Narrow(t) && n in t.pages && Halved(t.pages[n], lp, rp, PAGE_SIZE, r)
    requires t'.pages == t.pages[n := lp][r := rp]
    requires |Entries(lp)| > 0 && Entries(lp)[|Entries(lp)| - 1].cell == cell
    ensures Narrow(t') && FenceLen(lp.lvl, cell.len) <= NARROW
  {
    hide Entries, Halved, KeysUpTo;
    var p := t.pages[n];
    NarrowAt(t, n);
    NarrowHalved(p, lp, rp, r, NarrowLen(p.lvl));
    NarrowFence(lp, cell);
    NarrowOnePage(t, Tree(t.root, t.pages[n := lp]), n, lp);
    NarrowOnePage(Tree(t.root, t.pages[n := lp]), t', r, rp);
  }

  lemma {:induction false} NarrowFence(p: Page, cell: Cell)
    requires KeysUpTo(p, NarrowLen(p.lvl)) && |Entries(p)| > 0 && Entries(p)[|Entries(p)| - 1].cell == cell
    ensures FenceLen(p.lvl, cell.len) <= NARROW
  {
    hide Entries;
    assert Entries(p)[|Entries(p)| - 1] in Entries(p);
  }

  lemma {:induction false} NarrowRoot(
      t: Tree, t': Tree, n: nat, l: nat, r: nat, lp: Page, rp: Page, np: Page, m: int, len: nat, cell: Cell)
    requires Narrow(t) && n in t.pages && Halved(t.pages[n], lp, rp, PAGE_SIZE, r)
    requires t'.pages == t.pages[n := np][l := lp][r := rp] && n != l && n != r && l != r
    requires |Entries(lp)| > 0 && Entries(lp)[|Entries(lp)| - 1].cell == cell
    requires Entries(np) == RootEntries(m, len, l, r) && len == FenceLen(lp.lvl, cell.len) && np.lvl > 0
    ensures Narrow(t')
  {
    hide Entries, Halved, FenceLen;
    var p := t.pages[n];
    NarrowAt(t, n);
    NarrowHalved(p, lp, rp, r, NarrowLen(p.lvl));
    NarrowFence(lp, cell);
    assert KeysUpTo(np, NarrowLen(np.lvl));
    hide KeysUpTo;
    var t1 := Tree(t.root, t.pages[n := np]);
    var t2 := Tree(t.root, t1.pages[l := lp]);
    NarrowOnePage(t, t1, n, np);
    NarrowOnePage(t1, t2, l, lp);
    NarrowOnePage(t2, t', r, rp);
  }
}
