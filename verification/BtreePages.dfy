/**
 Slotted pages of the B-link tree: a slot array with librarian filler slots growing up, key
 cells growing down. Keys are compared as their numbers in the order of keys, from 0 on; the last
 slot of a page without right sibling is an infinite fence.
 */
module BtreePages {

  datatype SlotType = Indexed | Deleted | Librarian | Stopper

  datatype Slot = Slot(off: nat, typ: SlotType, dead: bool)

  /** The bytes of a key with its length prefix; on interior pages they end in a page number. */
  datatype Cell = Cell(key: int, len: nat, child: nat)

  datatype Page = Page(lvl: nat, right: nat, min: nat, act: nat, slots: seq<Slot>, cells: map<nat, Cell>)

  const HEAD := 40 // bytes of the page header
  const SLOT := 4  // bytes of a slot

  datatype Bound = Low | Fin(key: int) | High

  predicate Le(a: Bound, b: Bound) {
    a.Low? || b.High? || (a.Fin? && b.Fin? && a.key <= b.key)
  }

  predicate Lt(a: Bound, b: Bound) { Le(a, b) && a != b }

  /** The key of a slot as the search sees it; slots are counted from 0 here, from 1 in the source. */
  function KeyAt(p: Page, i: nat): Bound {
    if i >= |p.slots| || (p.right == 0 && i == |p.slots| - 1) then High
    else if p.slots[i].off in p.cells then Fin(p.cells[p.slots[i].off].key) else High
  }

  // ---------- the live entries of a page ----------

  datatype Entry = Entry(key: Bound, cell: Cell)

  function CellAt(p: Page, i: nat): Cell {
    if i < |p.slots| && p.slots[i].off in p.cells then p.cells[p.slots[i].off] else Cell(0, 0, 0)
  }

  /** The entries of the first `n` slots that are not dead. */
  function EntriesTo(p: Page, n: nat): seq<Entry>
    requires n <= |p.slots|
  {
    if n == 0 then [] else
      EntriesTo(p, n - 1) + (if p.slots[n - 1].dead then [] else [Entry(KeyAt(p, n - 1), CellAt(p, n - 1))])
  }

  function Entries(p: Page): seq<Entry> { EntriesTo(p, |p.slots|) }

  /** The bytes the keys of the entries take. */
  function KeySpace(es: seq<Entry>): nat {
    if es == [] then 0 else KeySpace(es[..|es| - 1]) + es[|es| - 1].cell.len
  }

  lemma {:induction false} KeySpaceConcat(a: seq<Entry>, b: seq<Entry>)
    ensures KeySpace(a + b) == KeySpace(a) + KeySpace(b)
  {
    if b == [] {
      assert a + b == a;
    } else {
      assert (a + b)[..|a + b| - 1] == a + b[..|b| - 1];
      KeySpaceConcat(a, b[..|b| - 1]);
    }
  }

  // ---------- what a page keeps ----------

  /** Only librarians are dead, and each shares the key of the live slot behind it. */
  predicate SlotsOk(p: Page) {
    && |p.slots| > 0 && !p.slots[|p.slots| - 1].dead
    && (forall s | s in p.slots :: s.off in p.cells && (s.dead <==> s.typ == Librarian))
    && (forall i | 0 <= i < |p.slots| - 1 && p.slots[i].dead ::
          !p.slots[i + 1].dead && p.slots[i + 1].off == p.slots[i].off)
    && (p.right == 0 && |p.slots| > 1 ==> !p.slots[|p.slots| - 2].dead)
  }

  predicate SortedPage(p: Page) {
    forall i, j | 0 <= i < j < |p.slots| :: Le(KeyAt(p, i), KeyAt(p, j))
  }

  predicate Overlap(p: Page, i: nat, j: nat)
    requires i < |p.slots| && j < |p.slots|
  {
    var a, b := p.slots[i].off, p.slots[j].off;
    a < b + CellAt(p, j).len && b < a + CellAt(p, i).len
  }

  /** The slots end below the keys, and the keys of live slots lie apart inside the page. */
  predicate SpaceOk(p: Page, size: nat) {
    && HEAD + SLOT * |p.slots| <= p.min <= size
    && KeySpace(Entries(p)) == size - p.min
    && (forall i | 0 <= i < |p.slots| ::
          p.min <= p.slots[i].off && CellAt(p, i).len > 0 && p.slots[i].off + CellAt(p, i).len <= size)
    && (forall i, j | 0 <= i < j < |p.slots| && !p.slots[i].dead && !p.slots[j].dead :: !Overlap(p, i, j))
  }

  predicate PageOk(p: Page, size: nat) {
    SlotsOk(p) && SortedPage(p) && SpaceOk(p, size) && p.act == |Entries(p)|
  }

  // ---------- stoppers ----------

  /** The key that stoppers carry; as a search key it is not above any key. */
  const EMPTY := -1

  predicate MarkedSlot(p: Page, i: nat)
    requires i < |p.slots|
  {
    var fence := p.right == 0 && i == |p.slots| - 1;
    && (p.slots[i].typ == Stopper <==> fence && p.lvl <= 1)
    && if fence then CellAt(p, i).key == EMPTY else CellAt(p, i).key >= 0
  }

  /** The infinite fence has the empty key; only on the two lowest levels its slot is of type stopper. */
  predicate Marked(p: Page) { forall i: nat | i < |p.slots| :: MarkedSlot(p, i) }

  lemma {:induction false} PageParts(p: Page, size: nat)
    requires PageOk(p, size)
    ensures SlotsOk(p) && SortedPage(p) && SpaceOk(p, size)
  {
  }

  lemma {:induction false} LastLive(p: Page)
    requires SlotsOk(p)
    ensures |p.slots| > 0 && !p.slots[|p.slots| - 1].dead
  {
  }

  // ---------- binary search ----------

  /** btreeKeyCmp with the key of a slot. */
  predicate SlotBelow(p: Page, slot: nat, key: int)
    requires 0 < slot <= |p.slots| && p.slots[slot - 1].off in p.cells
  {
    p.cells[p.slots[slot - 1].off].key < key
  }

  lemma {:induction false} AllBelow(p: Page, n: nat, key: int)
    requires SortedPage(p) && 0 < n <= |p.slots| && Lt(KeyAt(p, n - 1), Fin(key))
    ensures forall i | 0 <= i < n :: Lt(KeyAt(p, i), Fin(key))
  {
    forall i | 0 <= i < n ensures Lt(KeyAt(p, i), Fin(key)) {
      if i < n - 1 { assert Le(KeyAt(p, i), KeyAt(p, n - 1)); }
    }
  }

  lemma {:induction false} AllAbove(p: Page, n: nat, key: int)
    requires SortedPage(p) && n < |p.slots| && Le(Fin(key), KeyAt(p, n))
    ensures forall i | n <= i < |p.slots| :: Le(Fin(key), KeyAt(p, i))
  {
    forall i | n <= i < |p.slots| ensures Le(Fin(key), KeyAt(p, i)) {
      if n < i { assert Le(KeyAt(p, n), KeyAt(p, i)); }
    }
  }

  /**
   btreeFindSlot: the least slot at or above the key, counted from 1; 0 exactly when the key
   belongs to a right sibling. Asked for the stopper, it answers the last slot.
   */
  method FindSlot(p: Page, key: int, stopper: bool) returns (slot: nat)
    requires SlotsOk(p) && SortedPage(p)
    ensures stopper ==> slot == |p.slots|
    ensures !stopper ==> slot <= |p.slots|
    ensures !stopper && slot > 0 ==> Le(Fin(key), KeyAt(p, slot - 1))
    ensures !stopper && slot > 0 ==> forall i | 0 <= i < slot - 1 :: Lt(KeyAt(p, i), Fin(key))
    ensures !stopper ==> (slot == 0 <==> p.right != 0 && forall i | 0 <= i < |p.slots| :: Lt(KeyAt(p, i), Fin(key)))
  {
    var higher, low, good := |p.slots|, 1, 0;
    if stopper {
      return higher;
    }
    if p.right != 0 {
      higher := higher + 1;
    } else {
      good := good + 1;
    }
    while higher - low > 0
      invariant 1 <= low <= higher <= |p.slots| + (if p.right != 0 then 1 else 0)
      invariant forall i | 0 <= i < low - 1 :: Lt(KeyAt(p, i), Fin(key))
      invariant good >= 0 && (good == 0 <==> higher == |p.slots| + 1)
      invariant good > 0 ==> Le(Fin(key), KeyAt(p, higher - 1))
      decreases higher - low
    {
      var diff := higher - low;
      var mid := low + diff / 2;
      assert p.slots[mid - 1] in p.slots;
      assert KeyAt(p, mid - 1) == Fin(p.cells[p.slots[mid - 1].off].key);
      if SlotBelow(p, mid, key) {
        AllBelow(p, mid, key);
        low := mid + 1;
      } else {
        higher := mid;
        good := good + 1;
      }
    }
    slot := if good > 0 then higher else 0;
  }

  /** The first live slot from `slot` on. */
  method NextLive(p: Page, slot: nat) returns (live: nat)
    requires SlotsOk(p) && 0 < slot <= |p.slots|
    ensures slot <= live <= |p.slots| && !p.slots[live - 1].dead
    ensures forall i | slot - 1 <= i < live - 1 :: p.slots[i].dead
  {
    live := slot;
    while p.slots[live - 1].dead
      invariant slot <= live <= |p.slots| && forall i | slot - 1 <= i < live - 1 :: p.slots[i].dead
      decreases |p.slots| - live
    {
      live := live + 1;
    }
  }

  // ---------- entries and slots ----------

  lemma {:induction false} EntriesShorter(p: Page, m: nat, n: nat)
    requires m <= n <= |p.slots|
    ensures EntriesTo(p, m) <= EntriesTo(p, n)
  {
    if m < n { EntriesShorter(p, m, n - 1); }
  }

  /** A live slot is the entry behind those of the slots before it. */
  lemma {:induction false} EntryOfSlot(p: Page, i: nat)
    requires i < |p.slots| && !p.slots[i].dead
    ensures |EntriesTo(p, i)| < |Entries(p)| && Entries(p)[|EntriesTo(p, i)|] == Entry(KeyAt(p, i), CellAt(p, i))
    ensures Entries(p)[..|EntriesTo(p, i)|] == EntriesTo(p, i)
  {
    EntriesShorter(p, i, |p.slots|);
    EntriesShorter(p, i + 1, |p.slots|);
  }

  /** Every entry among the first slots comes from one of them. */
  lemma {:induction false} SlotOfEntry(p: Page, n: nat, k: nat) returns (i: nat)
    requires n <= |p.slots| && k < |EntriesTo(p, n)|
    ensures i < n && !p.slots[i].dead && |EntriesTo(p, i)| == k
    ensures EntriesTo(p, n)[k] == Entry(KeyAt(p, i), CellAt(p, i))
  {
    if k < |EntriesTo(p, n - 1)| {
      i := SlotOfEntry(p, n - 1, k);
    } else {
      i := n - 1;
    }
  }

  predicate SortedEntries(es: seq<Entry>) {
    forall i, j | 0 <= i < j < |es| :: Le(es[i].key, es[j].key)
  }

  lemma {:induction false} EntriesSorted(p: Page)
    requires SlotsOk(p) && SortedPage(p)
    ensures SortedEntries(Entries(p)) && |Entries(p)| > 0
    ensures Entries(p)[|Entries(p)| - 1].key == KeyAt(p, |p.slots| - 1)
  {
    forall k, m | 0 <= k < m < |Entries(p)| ensures Le(Entries(p)[k].key, Entries(p)[m].key) {
      var i := SlotOfEntry(p, |p.slots|, k);
      var j := SlotOfEntry(p, |p.slots|, m);
      if j <= i { EntriesShorter(p, j, i); }
    }
    EntryOfSlot(p, |p.slots| - 1);
  }

  /** The place of a key among the entries: what lies before is below it, what lies behind is not. */
  ghost predicate Splits(es: seq<Entry>, n: nat, key: int) {
    && n <= |es| && (forall i | 0 <= i < n :: Lt(es[i].key, Fin(key)))
    && forall i | n <= i < |es| :: Le(Fin(key), es[i].key)
  }

  /** The entries of the slots before `n` come first, those of the others behind. */
  lemma {:induction false} EntryBySlot(p: Page, n: nat, k: nat) returns (i: nat)
    requires n <= |p.slots| && k < |Entries(p)|
    ensures i < |p.slots| && Entries(p)[k].key == KeyAt(p, i) && (k < |EntriesTo(p, n)| <==> i < n)
  {
    i := SlotOfEntry(p, |p.slots|, k);
    if i < n {
      EntriesShorter(p, i + 1, n);
    } else {
      EntriesShorter(p, n, i);
    }
  }

  /** The slot that the search found stands where the key belongs. */
  lemma {:induction false} FoundSplits(p: Page, slot: nat, key: int)
    requires SlotsOk(p) && SortedPage(p) && 0 < slot <= |p.slots| && Le(Fin(key), KeyAt(p, slot - 1))
    requires forall i | 0 <= i < slot - 1 :: Lt(KeyAt(p, i), Fin(key))
    ensures Splits(Entries(p), |EntriesTo(p, slot - 1)|, key) && |EntriesTo(p, slot - 1)| < |Entries(p)|
  {
    hide *;
    LastLive(p);
    EntryOfSlot(p, |p.slots| - 1);
    EntriesShorter(p, slot - 1, |p.slots| - 1);
    AllAbove(p, slot - 1, key);
    var es, n := Entries(p), |EntriesTo(p, slot - 1)|;
    forall k | 0 <= k < |es| ensures if k < n then Lt(es[k].key, Fin(key)) else Le(Fin(key), es[k].key) {
      var i := EntryBySlot(p, slot - 1, k);
    }
    SplitsIf(es, n, key);
  }

  lemma {:induction false} SplitsIf(es: seq<Entry>, n: nat, key: int)
    requires n <= |es|
    requires forall k | 0 <= k < |es| :: if k < n then Lt(es[k].key, Fin(key)) else Le(Fin(key), es[k].key)
    ensures Splits(es, n, key)
  {
  }

  /** All keys of the page are below one that its search sends to the right. */
  lemma {:induction false} NotFound(p: Page, key: int)
    requires SlotsOk(p) && forall i | 0 <= i < |p.slots| :: Lt(KeyAt(p, i), Fin(key))
    ensures Splits(Entries(p), |Entries(p)|, key)
  {
    forall k | 0 <= k < |Entries(p)| ensures Lt(Entries(p)[k].key, Fin(key)) {
      var i := SlotOfEntry(p, |p.slots|, k);
    }
  }

  /** The next live slot behind the slot found is the entry at or above the key. */
  lemma {:induction false} LiveEntry(p: Page, slot: nat, live: nat)
    requires SlotsOk(p) && 0 < slot <= live <= |p.slots| && !p.slots[live - 1].dead
    requires forall i | slot - 1 <= i < live - 1 :: p.slots[i].dead
    ensures |EntriesTo(p, live - 1)| == |EntriesTo(p, slot - 1)| < |Entries(p)|
    ensures Entries(p)[|EntriesTo(p, slot - 1)|] == Entry(KeyAt(p, live - 1), CellAt(p, live - 1))
    decreases live - slot
  {
    EntryOfSlot(p, live - 1);
    if slot < live {
      LiveEntry(p, slot + 1, live);
    }
  }
}
