/** Installing a key on a page of the B-link tree. */
module BtreeInsertSlot {
  import opened BtreePages

  /** Where slot `i` of the new page was on the old one; slot `s` is new, slot `e` was dead or beyond the end. */
  function Source(s: nat, e: nat, i: nat): (j: int)
    ensures i < s || e < i ==> j == i
  {
    if i < s || e < i then i else i - 1
  }

  /** Page `q` is `p` with cell `cell` in a new slot `s`. */
  ghost predicate Inserted(p: Page, q: Page, s: nat, e: nat, cell: Cell, typ: SlotType) {
    && s <= e <= |p.slots| && s < |p.slots|
    && (e < |p.slots| ==> p.slots[e].dead) && (forall i | s <= i < e :: !p.slots[i].dead)
    && cell.len <= p.min && q.min == p.min - cell.len && q.lvl == p.lvl && q.right == p.right && q.act == p.act + 1
    && q.cells == p.cells[q.min := cell]
    && |q.slots| == (if e < |p.slots| then |p.slots| else |p.slots| + 1)
    && q.slots[s] == Slot(q.min, typ, false)
    && forall i | 0 <= i < |q.slots| && i != s :: 0 <= Source(s, e, i) < |p.slots| && q.slots[i] == p.slots[Source(s, e, i)]
  }

  predicate Room(p: Page, len: nat) { p.min >= (|p.slots| + 1) * SLOT + HEAD + len }

  /** The slot stands where the key belongs. */
  ghost predicate Belongs(p: Page, s: nat, key: int) {
    s < |p.slots| && Le(Fin(key), KeyAt(p, s)) && forall i | 0 <= i < s :: Lt(KeyAt(p, i), Fin(key))
  }

  /** The preconditions of an insertion at slot `s`. */
  ghost predicate InsertSite(p: Page, size: nat, s: nat, cell: Cell, typ: SlotType) {
    PageOk(p, size) && Belongs(p, s, cell.key) && Room(p, cell.len) && cell.len > 0 && typ != Librarian
  }

  lemma {:induction false} NoLibrarianBefore(p: Page, s: nat, key: int)
    requires SlotsOk(p) && Belongs(p, s, key)
    ensures s > 0 ==> !p.slots[s - 1].dead
  {
    if s > 0 { LibrarianShares(p, s - 1); }
  }

  lemma {:induction false} LibrarianShares(p: Page, i: nat)
    requires SlotsOk(p) && i + 1 < |p.slots|
    ensures p.slots[i].dead ==> KeyAt(p, i) == KeyAt(p, i + 1)
  {
  }

  /** A slot that is kept holds what it held, and stands in the same order. */
  lemma {:induction false} KeptSlot(p: Page, q: Page, size: nat, s: nat, e: nat, cell: Cell, typ: SlotType, i: nat)
    requires InsertSite(p, size, s, cell, typ) && Inserted(p, q, s, e, cell, typ) && i < |q.slots| && i != s
    ensures var j := Source(s, e, i);
            && 0 <= j < |p.slots| && q.slots[i] == p.slots[j] && q.slots[i].off in q.cells
            && CellAt(q, i) == CellAt(p, j) && KeyAt(q, i) == KeyAt(p, j) && p.min <= q.slots[i].off
            && (i == |q.slots| - 1 <==> j == |p.slots| - 1) && (i < s ==> j == i) && (i > s ==> j >= s)
  {
    assert p.slots[Source(s, e, i)] in p.slots;
  }

  lemma {:induction false} NewSlot(p: Page, q: Page, size: nat, s: nat, e: nat, cell: Cell, typ: SlotType)
    requires InsertSite(p, size, s, cell, typ) && Inserted(p, q, s, e, cell, typ)
    ensures s < |q.slots| - 1 && CellAt(q, s) == cell && KeyAt(q, s) == Fin(cell.key)
  {
    assert |q.slots| - 1 > s;
  }

  lemma {:induction false} InsertedSorted(p: Page, q: Page, size: nat, s: nat, e: nat, cell: Cell, typ: SlotType)
    requires InsertSite(p, size, s, cell, typ) && Inserted(p, q, s, e, cell, typ)
    ensures SortedPage(q)
  {
    NewSlot(p, q, size, s, e, cell, typ);
    AllAbove(p, s, cell.key);
    assert SortedPage(p) && s < |p.slots|;
    forall i, j | 0 <= i < j < |q.slots| ensures Le(KeyAt(q, i), KeyAt(q, j)) {
      if i != s { KeptSlot(p, q, size, s, e, cell, typ, i); }
      if j != s { KeptSlot(p, q, size, s, e, cell, typ, j); }
      InOrder(p, KeyAt(q, i), KeyAt(q, j), s, e, cell.key, i, j);
    }
  }

  lemma {:induction false} InOrder(p: Page, a: Bound, b: Bound, s: nat, e: nat, key: int, i: nat, j: nat)
    requires SortedPage(p) && Belongs(p, s, key) && i < j && s <= e
    requires forall m | s <= m < |p.slots| :: Le(Fin(key), KeyAt(p, m))
    requires if i == s then a == Fin(key) else 0 <= Source(s, e, i) < |p.slots| && a == KeyAt(p, Source(s, e, i))
    requires if j == s then b == Fin(key) else 0 <= Source(s, e, j) < |p.slots| && b == KeyAt(p, Source(s, e, j))
    ensures Le(a, b)
  {
    hide SortedPage, KeyAt;
    if i != s && j != s {
      assert Source(s, e, i) < Source(s, e, j);
      PageInOrder(p, Source(s, e, i), Source(s, e, j));
    }
  }

  lemma {:induction false} PageInOrder(p: Page, i: nat, j: nat)
    requires SortedPage(p) && i < j < |p.slots|
    ensures Le(KeyAt(p, i), KeyAt(p, j))
  {
  }

  lemma {:induction false} InsertedSlots(p: Page, q: Page, size: nat, s: nat, e: nat, cell: Cell, typ: SlotType)
    requires InsertSite(p, size, s, cell, typ) && Inserted(p, q, s, e, cell, typ)
    ensures SlotsOk(q)
  {
    hide SortedPage, SpaceOk, KeyAt, Entries;
    NewSlot(p, q, size, s, e, cell, typ);
    NoLibrarianBefore(p, s, cell.key);
    assert SlotsOk(p);
    forall i | 0 <= i < |q.slots|
      ensures q.slots[i].off in q.cells && (q.slots[i].dead <==> q.slots[i].typ == Librarian)
    {
      if i != s { assert q.slots[i] in p.slots; }
    }
    forall i | 0 <= i < |q.slots| - 1 && q.slots[i].dead
      ensures !q.slots[i + 1].dead && q.slots[i + 1].off == q.slots[i].off
    {
      assert i != s;
      var j := Source(s, e, i);
      assert p.slots[j].dead;
      assert i + 1 != s;
      assert Source(s, e, i + 1) == j + 1;
    }
  }

  /** An entry in the middle of a list. */
  function InsertAt(es: seq<Entry>, n: nat, x: Entry): seq<Entry>
    requires n <= |es|
  {
    es[..n] + [x] + es[n..]
  }

  lemma {:induction false} InsertAtLonger(es: seq<Entry>, n: nat, x: Entry, y: Entry)
    requires n <= |es|
    ensures InsertAt(es + [y], n, x) == InsertAt(es, n, x) + [y]
  {
  }

  lemma {:induction false} OneEntryMore(p: Page, i: nat)
    requires i < |p.slots|
    ensures EntriesTo(p, i + 1) == EntriesTo(p, i) + if p.slots[i].dead then [] else [Entry(KeyAt(p, i), CellAt(p, i))]
  {
  }

  predicate SameSlot(p: Page, j: nat, q: Page, i: nat) {
    && j < |p.slots| && i < |q.slots| && q.slots[i] == p.slots[j]
    && CellAt(q, i) == CellAt(p, j) && KeyAt(q, i) == KeyAt(p, j)
  }

  /** The insertion in terms of keys: one new slot, the slots up to `e` one further, the rest in place. */
  ghost predicate Shifted(p: Page, q: Page, s: nat, e: nat, x: Entry) {
    && s <= e <= |p.slots| && s < |p.slots| && |q.slots| == (if e < |p.slots| then |p.slots| else |p.slots| + 1)
    && (e < |p.slots| ==> p.slots[e].dead) && (forall i | s <= i < e :: !p.slots[i].dead)
    && !q.slots[s].dead && Entry(KeyAt(q, s), CellAt(q, s)) == x
    && (forall i: nat | i < s :: SameSlot(p, i, q, i))
    && (forall i: nat, j: nat | j + 1 == i && s < i <= e && i < |q.slots| :: SameSlot(p, j, q, i))
    && forall i: nat | e < i < |p.slots| :: SameSlot(p, i, q, i)
  }

  lemma {:induction false} InsertedShifted(p: Page, q: Page, size: nat, s: nat, e: nat, cell: Cell, typ: SlotType)
    requires InsertSite(p, size, s, cell, typ) && Inserted(p, q, s, e, cell, typ)
    ensures Shifted(p, q, s, e, Entry(Fin(cell.key), cell))
  {
    hide InsertSite, KeyAt, CellAt, SameSlot;
    NewSlot(p, q, size, s, e, cell, typ);
    forall i: nat | i < s ensures SameSlot(p, i, q, i) { SameAtSource(p, q, size, s, e, cell, typ, i); }
    forall i: nat, j: nat | j + 1 == i && s < i <= e && i < |q.slots| ensures SameSlot(p, j, q, i) {
      SameAtSource(p, q, size, s, e, cell, typ, i);
    }
    forall i: nat | e < i < |p.slots| ensures SameSlot(p, i, q, i) { SameAtSource(p, q, size, s, e, cell, typ, i); }
  }

  lemma {:induction false} SameAtSource(p: Page, q: Page, size: nat, s: nat, e: nat, cell: Cell, typ: SlotType, i: nat)
    requires InsertSite(p, size, s, cell, typ) && Inserted(p, q, s, e, cell, typ) && i < |q.slots| && i != s
    ensures Source(s, e, i) >= 0 && SameSlot(p, Source(s, e, i), q, i)
  {
    hide InsertSite, KeyAt, CellAt;
    KeptSlot(p, q, size, s, e, cell, typ, i);
  }

  lemma {:induction false} EntriesBefore(p: Page, q: Page, s: nat, e: nat, x: Entry, i: nat)
    requires Shifted(p, q, s, e, x) && i <= s
    ensures EntriesTo(q, i) == EntriesTo(p, i)
  {
    hide KeyAt, CellAt;
    if i > 0 {
      EntriesBefore(p, q, s, e, x, i - 1);
      assert SameSlot(p, i - 1, q, i - 1);
    }
  }

  /** The entries of the shifted slots: those before, with the new one in their midst. */
  lemma {:induction false} EntriesShifted(p: Page, q: Page, s: nat, e: nat, x: Entry, i: nat)
    requires Shifted(p, q, s, e, x) && s <= i <= e && i < |q.slots|
    ensures var n := |EntriesTo(p, s)|;
            i <= |p.slots| && n <= |EntriesTo(p, i)| && EntriesTo(q, i + 1) == InsertAt(EntriesTo(p, i), n, x)
    decreases i
  {
    hide KeyAt, CellAt, EntriesTo;
    OneEntryMore(q, i);
    if i == s {
      EntriesBefore(p, q, s, e, x, s);
    } else {
      EntriesShifted(p, q, s, e, x, i - 1);
      assert SameSlot(p, i - 1, q, i);
      OneEntryMore(p, i - 1);
      InsertAtLonger(EntriesTo(p, i - 1), |EntriesTo(p, s)|, x, Entry(KeyAt(p, i - 1), CellAt(p, i - 1)));
    }
  }

  /** Behind the slot that was overwritten the slots stand where they stood. */
  lemma {:induction false} EntriesBehind(p: Page, q: Page, s: nat, e: nat, x: Entry, i: nat)
    requires Shifted(p, q, s, e, x) && e < i <= |p.slots|
    ensures var n := |EntriesTo(p, s)|;
            i <= |q.slots| && n <= |EntriesTo(p, i)| && EntriesTo(q, i) == InsertAt(EntriesTo(p, i), n, x)
    decreases i
  {
    hide KeyAt, CellAt, EntriesTo;
    OneEntryMore(p, i - 1);
    if i == e + 1 {
      EntriesShifted(p, q, s, e, x, e);
      assert EntriesTo(p, i) == EntriesTo(p, e);
    } else {
      EntriesBehind(p, q, s, e, x, i - 1);
      assert SameSlot(p, i - 1, q, i - 1);
      OneEntryMore(q, i - 1);
      InsertAtLonger(EntriesTo(p, i - 1), |EntriesTo(p, s)|, x, Entry(KeyAt(p, i - 1), CellAt(p, i - 1)));
    }
  }

  lemma {:induction false} InsertedEntries(p: Page, q: Page, size: nat, s: nat, e: nat, cell: Cell, typ: SlotType)
    requires InsertSite(p, size, s, cell, typ) && Inserted(p, q, s, e, cell, typ)
    ensures s < |p.slots| && |EntriesTo(p, s)| <= |Entries(p)|
    ensures Entries(q) == InsertAt(Entries(p), |EntriesTo(p, s)|, Entry(Fin(cell.key), cell))
  {
    hide *;
    InsertedShifted(p, q, size, s, e, cell, typ);
    ShiftedEntries(p, q, s, e, Entry(Fin(cell.key), cell));
  }

  lemma {:induction false} ShiftedEntries(p: Page, q: Page, s: nat, e: nat, x: Entry)
    requires Shifted(p, q, s, e, x)
    ensures s < |p.slots| && |EntriesTo(p, s)| <= |Entries(p)|
    ensures Entries(q) == InsertAt(Entries(p), |EntriesTo(p, s)|, x)
  {
    hide KeyAt, CellAt, SameSlot, EntriesTo, InsertAt;
    if e < |p.slots| {
      EntriesBehind(p, q, s, e, x, |p.slots|);
    } else {
      EntriesShifted(p, q, s, e, x, e);
    }
  }

  lemma {:induction false} SpaceOfInsert(es: seq<Entry>, n: nat, x: Entry)
    requires n <= |es|
    ensures KeySpace(InsertAt(es, n, x)) == KeySpace(es) + x.cell.len
  {
    assert es == es[..n] + es[n..];
    KeySpaceConcat(es[..n], es[n..]);
    KeySpaceConcat(es[..n] + [x], es[n..]);
    KeySpaceConcat(es[..n], [x]);
    assert [x][..0] == [];
  }

  lemma {:induction false} InsertedSpace(p: Page, q: Page, size: nat, s: nat, e: nat, cell: Cell, typ: SlotType)
    requires InsertSite(p, size, s, cell, typ) && Inserted(p, q, s, e, cell, typ)
    ensures SpaceOk(q, size) && q.act == |Entries(q)|
  {
    hide Entries, EntriesTo, KeySpace, KeyAt, SortedPage, SlotsOk, CellAt, Overlap, Belongs, Source;
    InsertedEntries(p, q, size, s, e, cell, typ);
    SpaceOfInsert(Entries(p), |EntriesTo(p, s)|, Entry(Fin(cell.key), cell));
    NewSlot(p, q, size, s, e, cell, typ);
    forall i | 0 <= i < |q.slots|
      ensures q.min <= q.slots[i].off && CellAt(q, i).len > 0 && q.slots[i].off + CellAt(q, i).len <= size
    {
      if i != s { KeptSlot(p, q, size, s, e, cell, typ, i); }
    }
    forall i, j | 0 <= i < j < |q.slots| && !q.slots[i].dead && !q.slots[j].dead ensures !Overlap(q, i, j) {
      InsertedApart(p, q, size, s, e, cell, typ, i, j);
    }
  }

  lemma {:induction false} InsertedApart(
      p: Page, q: Page, size: nat, s: nat, e: nat, cell: Cell, typ: SlotType, i: nat, j: nat)
    requires InsertSite(p, size, s, cell, typ) && Inserted(p, q, s, e, cell, typ)
    requires i < j < |q.slots| && !q.slots[i].dead && !q.slots[j].dead
    ensures !Overlap(q, i, j)
  {
    hide Entries, KeySpace, KeyAt, SortedPage, SlotsOk, CellAt, Belongs;
    NewSlot(p, q, size, s, e, cell, typ);
    if i != s { KeptSlot(p, q, size, s, e, cell, typ, i); }
    if j != s { KeptSlot(p, q, size, s, e, cell, typ, j); }
    if i != s && j != s {
      assert !Overlap(p, Source(s, e, i), Source(s, e, j));
    }
  }

  /**
   btreeInsertSlot: the key goes below the heap, and its slot where the key belongs, over a
   librarian slot if one is near.
   */
  method InsertSlot(p: Page, slotIdx: nat, cell: Cell, typ: SlotType, ghost size: nat) returns (q: Page)
    requires slotIdx > 0 && InsertSite(p, size, slotIdx - 1, cell, typ)
    ensures slotIdx <= |p.slots|
    ensures PageOk(q, size) && q.lvl == p.lvl && q.right == p.right && q.min == p.min - cell.len
    ensures |q.slots| <= |p.slots| + 1
    ensures |EntriesTo(p, slotIdx - 1)| <= |Entries(p)|
    ensures Entries(q) == InsertAt(Entries(p), |EntriesTo(p, slotIdx - 1)|, Entry(Fin(cell.key), cell))
    ensures Marked(p) && typ == Indexed && cell.key >= 0 ==> Marked(q)
  {
    hide *;
    ghost var s := slotIdx - 1;
    SiteFacts(p, size, s, cell, typ);
    var first: int := slotIdx;
    if first > 1 && p.slots[first - 2].typ == Librarian {
      first := first - 1;
    }
    var min := p.min - cell.len;
    var idx := FirstDead(p, slotIdx);
    ghost var e := idx - 1;
    var slots := p.slots;
    if idx == |p.slots| + 1 {
      slots := slots + [Slot(0, Indexed, false)];
    }
    slots := ShiftSlots(slots, slotIdx, idx);
    slots := slots[first - 1 := Slot(min, typ, false)];
    q := Page(p.lvl, p.right, min, p.act + 1, slots, p.cells[min := cell]);
    InstalledSlot(p, q, s, e, cell, typ);
    InsertedOk(p, q, size, s, e, cell, typ);
    if Marked(p) && typ == Indexed && cell.key >= 0 {
      InsertedMarked(p, q, size, s, e, cell, typ);
    }
  }

  /** The stopper stays where it is. */
  lemma {:induction false} InsertedMarked(p: Page, q: Page, size: nat, s: nat, e: nat, cell: Cell, typ: SlotType)
    requires InsertSite(p, size, s, cell, typ) && Inserted(p, q, s, e, cell, typ)
    requires Marked(p) && typ == Indexed && cell.key >= 0
    ensures Marked(q)
  {
    hide InsertSite, KeyAt, CellAt;
    NewSlot(p, q, size, s, e, cell, typ);
    forall i: nat | i < |q.slots| ensures MarkedSlot(q, i) {
      if i != s {
        KeptSlot(p, q, size, s, e, cell, typ, i);
        assert MarkedSlot(p, Source(s, e, i));
      }
    }
  }

  lemma {:induction false} InsertedOk(p: Page, q: Page, size: nat, s: nat, e: nat, cell: Cell, typ: SlotType)
    requires InsertSite(p, size, s, cell, typ) && Inserted(p, q, s, e, cell, typ)
    ensures PageOk(q, size) && |q.slots| <= |p.slots| + 1
    ensures q.lvl == p.lvl && q.right == p.right && q.min == p.min - cell.len
    ensures |EntriesTo(p, s)| <= |Entries(p)|
    ensures Entries(q) == InsertAt(Entries(p), |EntriesTo(p, s)|, Entry(Fin(cell.key), cell))
  {
    hide *;
    InsertedSlots(p, q, size, s, e, cell, typ);
    InsertedSorted(p, q, size, s, e, cell, typ);
    InsertedSpace(p, q, size, s, e, cell, typ);
    InsertedEntries(p, q, size, s, e, cell, typ);
    AllOk(q, size);
    InsertedSize(p, q, s, e, cell, typ);
  }

  lemma {:induction false} InsertedSize(p: Page, q: Page, s: nat, e: nat, cell: Cell, typ: SlotType)
    requires Inserted(p, q, s, e, cell, typ)
    ensures |q.slots| <= |p.slots| + 1 && q.lvl == p.lvl && q.right == p.right && q.min == p.min - cell.len
  {
  }

  lemma {:induction false} InstalledSlot(p: Page, q: Page, s: nat, e: nat, cell: Cell, typ: SlotType)
    requires s <= e <= |p.slots| && s < |p.slots| && cell.len <= p.min
    requires (e < |p.slots| ==> p.slots[e].dead) && forall i | s <= i < e :: !p.slots[i].dead
    requires |q.slots| == (if e < |p.slots| then |p.slots| else |p.slots| + 1)
    requires q == Page(p.lvl, p.right, p.min - cell.len, p.act + 1, q.slots, p.cells[p.min - cell.len := cell])
    requires q.slots[s] == Slot(q.min, typ, false)
    requires forall i | 0 <= i < |p.slots| && (i < s || e < i) :: q.slots[i] == p.slots[i]
    requires forall i | s < i <= e && i < |q.slots| :: q.slots[i] == p.slots[i - 1]
    ensures Inserted(p, q, s, e, cell, typ)
  {
  }

  /** The first empty slot from `slotIdx` on, or the one behind the last. */
  method FirstDead(p: Page, slotIdx: nat) returns (idx: nat)
    requires 0 < slotIdx <= |p.slots| && !p.slots[|p.slots| - 1].dead
    ensures slotIdx <= idx <= |p.slots| + 1 && (idx <= |p.slots| ==> p.slots[idx - 1].dead)
    ensures forall i | slotIdx - 1 <= i < idx - 1 :: !p.slots[i].dead
  {
    idx := slotIdx;
    while idx < |p.slots| && !p.slots[idx - 1].dead
      invariant slotIdx <= idx <= |p.slots| && forall i | slotIdx - 1 <= i < idx - 1 :: !p.slots[i].dead
    {
      idx := idx + 1;
    }
    if idx == |p.slots| {
      idx := idx + 1;
    }
  }

  /** Moves the slots from `slotIdx` on one up, over slot `idx`. */
  method ShiftSlots(slots: seq<Slot>, slotIdx: nat, last: nat) returns (r: seq<Slot>)
    requires 0 < slotIdx <= last <= |slots|
    ensures |r| == |slots| && forall i | 0 <= i < |r| && (i < slotIdx || last <= i) :: r[i] == slots[i]
    ensures forall i | slotIdx <= i < last :: r[i] == slots[i - 1]
  {
    r := slots;
    var idx := last;
    while idx > slotIdx
      invariant slotIdx <= idx <= last && |r| == |slots|
      invariant forall i | 0 <= i < |r| && (i < idx || last <= i) :: r[i] == slots[i]
      invariant forall i | idx <= i < last :: r[i] == slots[i - 1]
    {
      r := r[idx - 1 := r[idx - 2]];
      idx := idx - 1;
    }
  }

  lemma {:induction false} SiteFacts(p: Page, size: nat, s: nat, cell: Cell, typ: SlotType)
    requires InsertSite(p, size, s, cell, typ)
    ensures s < |p.slots| && !p.slots[|p.slots| - 1].dead && cell.len <= p.min
    ensures s > 0 ==> p.slots[s - 1].typ != Librarian
  {
    NoLibrarianBefore(p, s, cell.key);
    if s > 0 { assert p.slots[s - 1] in p.slots; }
  }

  lemma {:induction false} AllOk(q: Page, size: nat)
    requires SlotsOk(q) && SortedPage(q) && SpaceOk(q, size) && q.act == |Entries(q)|
    ensures PageOk(q, size)
  {
  }
}
