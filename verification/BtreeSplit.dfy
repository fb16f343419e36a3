/** Splitting a page of the B-link tree into halves laid out afresh, with librarian slots between the keys. */
module BtreeSplit {
  import opened BtreePages

  /** A live slot with the cell it refers to. */
  datatype Live = Live(typ: SlotType, cell: Cell)

  /** The live slots among those from `from` up to `n`. */
  function LiveTo(p: Page, from: nat, n: nat): seq<Live>
    requires from <= n <= |p.slots|
  {
    if n == from then [] else
      LiveTo(p, from, n - 1) + (if p.slots[n - 1].dead then [] else [Live(p.slots[n - 1].typ, CellAt(p, n - 1))])
  }

  function Total(live: seq<Live>): nat {
    if live == [] then 0 else Total(live[..|live| - 1]) + live[|live| - 1].cell.len
  }

  /** Slots laid out in pairs of librarian and live slot, keys from `top` down. */
  function Pairs(live: seq<Live>, top: nat): seq<Slot>
    requires Total(live) <= top
  {
    if live == [] then [] else
      var off := top - Total(live);
      Pairs(live[..|live| - 1], top) + [Slot(off, Librarian, true), Slot(off, live[|live| - 1].typ, false)]
  }

  function Heap(live: seq<Live>, top: nat): map<nat, Cell>
    requires Total(live) <= top
  {
    if live == [] then map[] else
      Heap(live[..|live| - 1], top)[top - Total(live) := live[|live| - 1].cell]
  }

  /** The whole half: no librarian before its last slot. */
  function Laid(live: seq<Live>, top: nat): seq<Slot>
    requires live != [] && Total(live) <= top
  {
    Pairs(live[..|live| - 1], top) + [Slot(top - Total(live), live[|live| - 1].typ, false)]
  }

  lemma {:induction false} TotalMore(live: seq<Live>, x: Live)
    ensures Total(live + [x]) == Total(live) + x.cell.len
  {
    assert (live + [x])[..|live|] == live;
  }

  lemma {:induction false} LiveShorter(p: Page, from: nat, m: nat, n: nat)
    requires from <= m <= n <= |p.slots|
    ensures Total(LiveTo(p, from, m)) <= Total(LiveTo(p, from, n))
  {
    if m < n {
      LiveShorter(p, from, m, n - 1);
      LiveStep(p, from, n - 1);
      if p.slots[n - 1].dead {
        assert LiveTo(p, from, n) == LiveTo(p, from, n - 1);
      } else {
        TotalMore(LiveTo(p, from, n - 1), Live(p.slots[n - 1].typ, CellAt(p, n - 1)));
      }
    }
  }

  /** One more live slot, in the list and in the layout. */
  lemma {:induction false} LayOne(before: seq<Live>, x: Live, top: nat)
    requires Total(before + [x]) <= top
    ensures Total(before + [x]) == Total(before) + x.cell.len
    ensures var off, after := top - Total(before + [x]), before + [x];
            && Pairs(after, top) == Pairs(before, top) + [Slot(off, Librarian, true)] + [Slot(off, x.typ, false)]
            && Laid(after, top) == Pairs(before, top) + [Slot(off, x.typ, false)]
            && Heap(after, top) == Heap(before, top)[off := x.cell]
  {
    TotalMore(before, x);
    assert (before + [x])[..|before|] == before;
  }

  lemma {:induction false} LiveStep(p: Page, from: nat, cnt: nat)
    requires from <= cnt < |p.slots|
    ensures LiveTo(p, from, from) == []
    ensures LiveTo(p, from, cnt + 1) ==
              LiveTo(p, from, cnt) + if p.slots[cnt].dead then [] else [Live(p.slots[cnt].typ, CellAt(p, cnt))]
  {
  }

  lemma {:induction false} NothingLaid(top: nat)
    ensures Total([]) == 0 && Pairs([], top) == [] && Heap([], top) == map[]
  {
  }

  /** One of the two copy loops of the split: the live slots from `from` up to `max`, laid out afresh. */
  method CopyLive(p: Page, from: nat, max: nat, size: nat)
    returns (slots: seq<Slot>, cells: map<nat, Cell>, nxt: nat, act: nat)
    requires from < max <= |p.slots| && !p.slots[max - 1].dead && Total(LiveTo(p, from, max)) <= size
    ensures var live := LiveTo(p, from, max);
            && live != [] && slots == Laid(live, size) && cells == Heap(live, size)
            && nxt == size - Total(live) && act == |live|
  {
    hide *;
    slots, cells, nxt, act := [], map[], size, 0;
    var cnt := from;
    LiveStep(p, from, from);
    NothingLaid(size);
    while cnt < max
      invariant from <= cnt <= max && Total(LiveTo(p, from, cnt)) <= size
      invariant cells == Heap(LiveTo(p, from, cnt), size)
      invariant nxt == size - Total(LiveTo(p, from, cnt)) && act == |LiveTo(p, from, cnt)|
      invariant cnt < max ==> slots == Pairs(LiveTo(p, from, cnt), size)
      invariant cnt == max ==> LiveTo(p, from, max) != [] && slots == Laid(LiveTo(p, from, max), size)
    {
      LiveShorter(p, from, cnt + 1, max);
      LiveStep(p, from, cnt);
      var source := p.slots[cnt];
      if !source.dead {
        var cell := CellAt(p, cnt);
        LayOne(LiveTo(p, from, cnt), Live(source.typ, cell), size);
        nxt := nxt - cell.len;
        cells := cells[nxt := cell];
        act := act + 1;
        if cnt + 1 < max {
          slots := slots + [Slot(nxt, Librarian, true)];
        }
        slots := slots + [Slot(nxt, source.typ, false)];
      } else {
        assert LiveTo(p, from, cnt + 1) == LiveTo(p, from, cnt);
      }
      cnt := cnt + 1;
    }
  }

  // ---------- the page laid out ----------

  /** A page laid out from a list of live slots. */
  ghost predicate LaidOut(q: Page, live: seq<Live>, size: nat) {
    && live != [] && Total(live) <= size && q.slots == Laid(live, size) && q.cells == Heap(live, size)
    && q.min == size - Total(live) && q.act == |live|
  }

  /** Where the key of the `k`th live slot ends up. */
  function Off(live: seq<Live>, k: nat, top: nat): nat
    requires k < |live| && Total(live[..k + 1]) <= top
  {
    top - Total(live[..k + 1])
  }

  lemma {:induction false} TotalTo(live: seq<Live>, k: nat)
    requires k < |live|
    ensures Total(live[..k + 1]) == Total(live[..k]) + live[k].cell.len <= Total(live)
    decreases |live| - k
  {
    assert live[..k + 1][..k] == live[..k];
    if k + 1 < |live| {
      TotalTo(live, k + 1);
    } else {
      assert live[..k + 1] == live;
    }
  }

  lemma {:induction false} TotalUpTo(live: seq<Live>, j: nat, k: nat)
    requires j <= k <= |live|
    ensures Total(live[..j]) <= Total(live[..k])
    decreases k
  {
    if j < k {
      TotalUpTo(live, j, k - 1);
      TotalTo(live, k - 1);
    }
  }

  /** Every slot of the pairs stands for one of the live slots. */
  lemma {:induction false} PairSlot(live: seq<Live>, top: nat, i: nat) returns (k: nat)
    requires Total(live) <= top && i < |Pairs(live, top)|
    ensures k < |live| && Total(live[..k + 1]) <= top && (i == 2 * k || i == 2 * k + 1)
    ensures Pairs(live, top)[i] == if i == 2 * k then Slot(Off(live, k, top), Librarian, true)
                                   else Slot(Off(live, k, top), live[k].typ, false)
  {
    PairsLength(live, top);
    var n := |live| - 1;
    var front := live[..n];
    TotalTo(live, n);
    PairsLength(front, top);
    if i < 2 * n {
      k := PairSlot(front, top, i);
      assert front[..k + 1] == live[..k + 1];
    } else {
      k := n;
      assert live[..n + 1] == live;
    }
  }

  lemma {:induction false} PairsLength(live: seq<Live>, top: nat)
    requires Total(live) <= top
    ensures |Pairs(live, top)| == 2 * |live|
  {
    if live != [] { PairsLength(live[..|live| - 1], top); }
  }

  /** Every slot of a half stands for one of the live slots. */
  lemma {:induction false} LaidSlot(live: seq<Live>, top: nat, i: nat) returns (k: nat)
    requires live != [] && Total(live) <= top && i < |Laid(live, top)|
    ensures |Laid(live, top)| == 2 * |live| - 1
    ensures k < |live| && Total(live[..k + 1]) <= top && (i == 2 * k || i == 2 * k + 1)
    ensures var s := Laid(live, top)[i];
            s.off == Off(live, k, top) && (s.dead <==> i == 2 * k && k < |live| - 1)
            && (s.dead ==> s.typ == Librarian) && (!s.dead ==> s.typ == live[k].typ)
  {
    var n := |live| - 1;
    var front := live[..n];
    TotalTo(live, n);
    PairsLength(front, top);
    if i < 2 * n {
      k := PairSlot(front, top, i);
      assert front[..k + 1] == live[..k + 1];
    } else {
      k := n;
      assert live[..n + 1] == live;
    }
  }

  lemma {:induction false} HeapAt(live: seq<Live>, top: nat, k: nat)
    requires Total(live) <= top && k < |live| && forall j | 0 <= j < |live| :: live[j].cell.len > 0
    ensures Total(live[..k + 1]) <= top && Off(live, k, top) in Heap(live, top)
    ensures Heap(live, top)[Off(live, k, top)] == live[k].cell
  {
    var n := |live| - 1;
    var front := live[..n];
    TotalTo(live, k);
    if k < n {
      TotalTo(live, n);
      HeapAt(front, top, k);
      assert front[..k + 1] == live[..k + 1];
      TotalTo(front, k);
    } else {
      assert live[..k + 1] == live;
    }
  }

  /** The live slots have keys, in order; the last one may be the infinite fence. */
  ghost predicate LiveOk(live: seq<Live>, open: bool) {
    && (forall k | 0 <= k < |live| :: live[k].cell.len > 0 && live[k].typ != Librarian)
    && forall j, k | 0 <= j < k < |live| && !(open && k == |live| - 1) :: live[j].cell.key <= live[k].cell.key
  }

  /** A slot of the laid out page: the live slot it stands for, with its key. */
  lemma {:induction false} LaidPageSlot(q: Page, live: seq<Live>, size: nat, i: nat) returns (k: nat)
    requires LaidOut(q, live, size) && LiveOk(live, q.right == 0) && i < |q.slots|
    ensures |q.slots| == 2 * |live| - 1 && k < |live| && (i == 2 * k || i == 2 * k + 1)
    ensures Total(live[..k + 1]) <= size && q.slots[i].off == Off(live, k, size) && q.slots[i].off in q.cells
    ensures CellAt(q, i) == live[k].cell && (q.slots[i].dead <==> i == 2 * k && k < |live| - 1)
    ensures if q.slots[i].dead then q.slots[i].typ == Librarian else q.slots[i].typ == live[k].typ != Librarian
    ensures KeyAt(q, i) == if q.right == 0 && k == |live| - 1 then High else Fin(live[k].cell.key)
  {
    hide Laid, Heap, Total;
    k := LaidSlot(live, size, i);
    HeapAt(live, size, k);
  }

  lemma {:induction false} LaidCount(q: Page, live: seq<Live>, size: nat)
    requires LaidOut(q, live, size)
    ensures |live| > 0 && |q.slots| == 2 * |live| - 1
  {
    var n := |live| - 1;
    TotalTo(live, n);
    PairsLength(live[..n], size);
  }

  lemma {:induction false} LaidSlotsOk(q: Page, live: seq<Live>, size: nat)
    requires LaidOut(q, live, size) && LiveOk(live, q.right == 0)
    ensures SlotsOk(q)
  {
    hide LaidOut, LiveOk, CellAt, KeyAt;
    var m := |live|;
    LaidCount(q, live, size);
    var last := LaidPageSlot(q, live, size, 2 * m - 2);
    forall i | 0 <= i < |q.slots| ensures q.slots[i].off in q.cells && (q.slots[i].dead <==> q.slots[i].typ == Librarian) {
      var k := LaidPageSlot(q, live, size, i);
    }
    forall i | 0 <= i < |q.slots| - 1 && q.slots[i].dead
      ensures !q.slots[i + 1].dead && q.slots[i + 1].off == q.slots[i].off
    {
      var k := LaidPageSlot(q, live, size, i);
      var k' := LaidPageSlot(q, live, size, i + 1);
    }
    if |q.slots| > 1 {
      var k := LaidPageSlot(q, live, size, 2 * m - 3);
    }
  }

  lemma {:induction false} LaidSorted(q: Page, live: seq<Live>, size: nat)
    requires LaidOut(q, live, size) && LiveOk(live, q.right == 0)
    ensures SortedPage(q)
  {
    hide LaidOut, CellAt, KeyAt;
    forall i, j | 0 <= i < j < |q.slots| ensures Le(KeyAt(q, i), KeyAt(q, j)) {
      var a := LaidPageSlot(q, live, size, i);
      var b := LaidPageSlot(q, live, size, j);
    }
  }

  lemma {:induction false} LaidApart(q: Page, live: seq<Live>, size: nat, i: nat, j: nat)
    requires LaidOut(q, live, size) && LiveOk(live, q.right == 0)
    requires i < j < |q.slots| && !q.slots[i].dead && !q.slots[j].dead
    ensures !Overlap(q, i, j)
  {
    hide LaidOut, LiveOk, CellAt, KeyAt, Total;
    var a := LaidPageSlot(q, live, size, i);
    var b := LaidPageSlot(q, live, size, j);
    assert a < b;
    TotalTo(live, b);
    TotalUpTo(live, a + 1, b);
  }

  /** The entries the live slots become. */
  function AsEntries(live: seq<Live>, open: bool): (es: seq<Entry>)
    ensures |es| == |live|
    ensures forall k | 0 <= k < |live| ::
              es[k] == Entry(if open && k == |live| - 1 then High else Fin(live[k].cell.key), live[k].cell)
  {
    seq(|live|, k requires 0 <= k < |live| =>
      Entry(if open && k == |live| - 1 then High else Fin(live[k].cell.key), live[k].cell))
  }

  lemma {:induction false} TwoSlots(q: Page, i: nat)
    requires i + 2 <= |q.slots| && q.slots[i].dead && !q.slots[i + 1].dead
    ensures EntriesTo(q, i + 2) == EntriesTo(q, i) + [Entry(KeyAt(q, i + 1), CellAt(q, i + 1))]
  {
    assert EntriesTo(q, i + 1) == EntriesTo(q, i);
  }

  lemma {:induction false} PairEntry(q: Page, live: seq<Live>, size: nat, k: nat)
    requires LaidOut(q, live, size) && LiveOk(live, q.right == 0) && k + 1 < |live|
    ensures 2 * k + 2 <= |q.slots| && q.slots[2 * k].dead && !q.slots[2 * k + 1].dead
    ensures Entry(KeyAt(q, 2 * k + 1), CellAt(q, 2 * k + 1)) == AsEntries(live, q.right == 0)[k]
  {
    hide LaidOut, LiveOk, CellAt, KeyAt;
    LaidCount(q, live, size);
    var a := LaidPageSlot(q, live, size, 2 * k);
    var b := LaidPageSlot(q, live, size, 2 * k + 1);
  }

  lemma {:induction false} LaidEntriesTo(q: Page, live: seq<Live>, size: nat, k: nat)
    requires LaidOut(q, live, size) && LiveOk(live, q.right == 0) && k < |live|
    ensures 2 * k <= |q.slots| && EntriesTo(q, 2 * k) == AsEntries(live, q.right == 0)[..k]
  {
    hide LaidOut, LiveOk, CellAt, KeyAt;
    if k > 0 {
      LaidEntriesTo(q, live, size, k - 1);
      PairEntry(q, live, size, k - 1);
      hide *;
      TwoSlots(q, 2 * k - 2);
      var es := AsEntries(live, q.right == 0);
      assert es[..k] == es[..k - 1] + [es[k - 1]];
    }
  }

  lemma {:induction false} LaidEntries(q: Page, live: seq<Live>, size: nat)
    requires LaidOut(q, live, size) && LiveOk(live, q.right == 0)
    ensures |q.slots| == 2 * |live| - 1 && Entries(q) == AsEntries(live, q.right == 0)
  {
    hide LaidOut, LiveOk, CellAt, KeyAt;
    var m := |live|;
    LaidCount(q, live, size);
    LaidEntriesTo(q, live, size, m - 1);
    var k := LaidPageSlot(q, live, size, 2 * m - 2);
    var es := AsEntries(live, q.right == 0);
    assert es == es[..m - 1] + [es[m - 1]];
  }

  lemma {:induction false} EntriesTotal(live: seq<Live>, open: bool, k: nat)
    requires k <= |live|
    ensures KeySpace(AsEntries(live, open)[..k]) == Total(live[..k])
  {
    if k > 0 {
      EntriesTotal(live, open, k - 1);
      TotalTo(live, k - 1);
      var es := AsEntries(live, open);
      assert es[..k][..k - 1] == es[..k - 1];
    }
  }

  /** A page laid out from fewer live slots than fit is a proper page with exactly those entries. */
  lemma {:induction false} LaidOk(q: Page, live: seq<Live>, size: nat)
    requires LaidOut(q, live, size) && LiveOk(live, q.right == 0)
    requires HEAD + SLOT * (2 * |live| - 1) + Total(live) <= size
    ensures PageOk(q, size) && Entries(q) == AsEntries(live, q.right == 0) && |q.slots| == 2 * |live| - 1
  {
    hide *;
    LaidSlotsOk(q, live, size);
    LaidSorted(q, live, size);
    LaidEntries(q, live, size);
    LaidSpace(q, live, size);
    LaidPage(q, live, size);
  }

  lemma {:induction false} LaidPage(q: Page, live: seq<Live>, size: nat)
    requires LaidOut(q, live, size) && SlotsOk(q) && SortedPage(q) && SpaceOk(q, size)
    requires Entries(q) == AsEntries(live, q.right == 0)
    ensures PageOk(q, size)
  {
  }

  lemma {:induction false} LaidKeySpace(q: Page, live: seq<Live>, size: nat)
    requires LaidOut(q, live, size) && LiveOk(live, q.right == 0)
    ensures KeySpace(Entries(q)) == Total(live) == size - q.min && |q.slots| == 2 * |live| - 1
  {
    LaidEntries(q, live, size);
    var es := AsEntries(live, q.right == 0);
    assert es[..|live|] == es && live[..|live|] == live;
    EntriesTotal(live, q.right == 0, |live|);
  }

  lemma {:induction false} LaidInside(q: Page, live: seq<Live>, size: nat, i: nat)
    requires LaidOut(q, live, size) && LiveOk(live, q.right == 0) && i < |q.slots|
    ensures q.min <= q.slots[i].off && CellAt(q, i).len > 0 && q.slots[i].off + CellAt(q, i).len <= size
  {
    hide Laid, Heap, Total, KeyAt, CellAt;
    var k := LaidPageSlot(q, live, size, i);
    TotalTo(live, k);
  }

  lemma {:induction false} LaidSpace(q: Page, live: seq<Live>, size: nat)
    requires LaidOut(q, live, size) && LiveOk(live, q.right == 0)
    requires HEAD + SLOT * (2 * |live| - 1) + Total(live) <= size
    ensures SpaceOk(q, size)
  {
    hide Entries, KeySpace, Overlap, CellAt, LaidOut, LiveOk, Total;
    LaidKeySpace(q, live, size);
    forall i | 0 <= i < |q.slots|
      ensures q.min <= q.slots[i].off && CellAt(q, i).len > 0 && q.slots[i].off + CellAt(q, i).len <= size
    {
      LaidInside(q, live, size, i);
    }
    forall i, j | 0 <= i < j < |q.slots| && !q.slots[i].dead && !q.slots[j].dead ensures !Overlap(q, i, j) {
      LaidApart(q, live, size, i, j);
    }
  }

  // ---------- the split ----------

  /** The live slots of a page are its entries. */
  lemma {:induction false} LiveAreEntries(p: Page, from: nat, n: nat)
    requires SlotsOk(p) && from <= n <= |p.slots|
    ensures |EntriesTo(p, n)| == |EntriesTo(p, from)| + |LiveTo(p, from, n)|
    ensures EntriesTo(p, n) == EntriesTo(p, from) + AsEntries(LiveTo(p, from, n), p.right == 0 && n == |p.slots|)
    ensures forall k | 0 <= k < |LiveTo(p, from, n)| :: LiveTo(p, from, n)[k].typ != Librarian
  {
    if from < n {
      LiveAreEntries(p, from, n - 1);
      assert p.slots[n - 1] in p.slots;
    }
  }

  lemma {:induction false} LiveTotal(p: Page, from: nat, n: nat)
    requires SlotsOk(p) && from <= n <= |p.slots|
    ensures KeySpace(EntriesTo(p, n)) == KeySpace(EntriesTo(p, from)) + Total(LiveTo(p, from, n))
  {
    LiveAreEntries(p, from, n);
    var live, open := LiveTo(p, from, n), p.right == 0 && n == |p.slots|;
    KeySpaceConcat(EntriesTo(p, from), AsEntries(live, open));
    EntriesTotal(live, open, |live|);
    assert AsEntries(live, open)[..|live|] == AsEntries(live, open) && live[..|live|] == live;
  }

  lemma {:induction false} LiveLength(p: Page, size: nat, from: nat, n: nat, k: nat)
    requires PageOk(p, size) && from <= n <= |p.slots| && k < |LiveTo(p, from, n)|
    ensures LiveTo(p, from, n)[k].cell.len > 0
  {
    hide Entries, KeySpace, SortedPage, SlotsOk, EntriesTo, LiveTo, KeyAt, CellAt, Overlap;
    PageParts(p, size);
    LiveAreEntries(p, from, n);
    var i := SlotOfEntry(p, n, |EntriesTo(p, from)| + k);
    assert CellAt(p, i) == LiveTo(p, from, n)[k].cell;
  }

  lemma {:induction false} LiveInOrder(p: Page, size: nat, from: nat, n: nat, j: nat, k: nat)
    requires PageOk(p, size) && from <= n <= |p.slots| && j < k < |LiveTo(p, from, n)|
    requires !(p.right == 0 && n == |p.slots| && k == |LiveTo(p, from, n)| - 1)
    ensures LiveTo(p, from, n)[j].cell.key <= LiveTo(p, from, n)[k].cell.key
  {
    hide PageOk, LiveTo, EntriesTo;
    PageParts(p, size);
    LiveAreEntries(p, from, n);
    EntriesSorted(p);
    EntriesShorter(p, n, |p.slots|);
    var es, f := EntriesTo(p, n), |EntriesTo(p, from)|;
    assert Le(Entries(p)[f + j].key, Entries(p)[f + k].key);
    assert Entries(p)[f + j] == es[f + j] && Entries(p)[f + k] == es[f + k];
  }

  lemma {:induction false} LiveKeysOk(p: Page, size: nat, from: nat, n: nat)
    requires PageOk(p, size) && from <= n <= |p.slots|
    ensures LiveOk(LiveTo(p, from, n), p.right == 0 && n == |p.slots|)
  {
    hide PageOk, LiveTo, EntriesTo;
    PageParts(p, size);
    LiveAreEntries(p, from, n);
    var live, open := LiveTo(p, from, n), p.right == 0 && n == |p.slots|;
    forall k | 0 <= k < |live| ensures live[k].cell.len > 0 { LiveLength(p, size, from, n, k); }
    forall j, k | 0 <= j < k < |live| && !(open && k == |live| - 1) ensures live[j].cell.key <= live[k].cell.key {
      LiveInOrder(p, size, from, n, j, k);
    }
  }

  /** How many slots a stretch holds: at most one live slot each. */
  lemma {:induction false} LiveCount(p: Page, from: nat, n: nat)
    requires from <= n <= |p.slots|
    ensures |LiveTo(p, from, n)| <= n - from
    ensures from < n && !p.slots[n - 1].dead ==> LiveTo(p, from, n) != []
  {
    if from < n { LiveCount(p, from, n - 1); }
  }

  /** Where the lower half ends: in the middle, or one before when a librarian stands there. */
  function LowerEnd(p: Page): nat {
    var max := |p.slots| / 2;
    if 0 < max <= |p.slots| && p.slots[max - 1].typ == Librarian then max - 1 else max
  }

  /** Both halves get a key: two live slots or at least four slots. */
  predicate Splittable(p: Page) { |p.slots| >= 4 || (|p.slots| >= 2 && !p.slots[0].dead) }

  lemma {:induction false} LowerHalf(p: Page)
    requires SlotsOk(p)
    ensures LowerEnd(p) > 0 <==> Splittable(p)
    ensures LowerEnd(p) <= |p.slots| / 2 && (LowerEnd(p) > 0 ==> !p.slots[LowerEnd(p) - 1].dead)
    ensures LiveTo(p, 0, LowerEnd(p)) == LiveTo(p, 0, |p.slots| / 2)
  {
    var max := |p.slots| / 2;
    assert p.slots[0] in p.slots;
    if max > 0 {
      assert p.slots[max - 1] in p.slots;
      LiveStep(p, 0, max - 1);
      assert max > 1 && p.slots[max - 2].dead ==> !p.slots[max - 1].dead;
      if p.slots[max - 1].dead {
        assert LiveTo(p, 0, max) == LiveTo(p, 0, max - 1);
      }
    }
  }

  /** The page laid out from live slots. */
  function Fresh(lvl: nat, right: nat, live: seq<Live>, size: nat): Page
    requires live != [] && Total(live) <= size
  {
    Page(lvl, right, size - Total(live), |live|, Laid(live, size), Heap(live, size))
  }

  function LowerLive(p: Page): seq<Live> { LiveTo(p, 0, LowerEnd(p)) }

  function UpperLive(p: Page): seq<Live> { LiveTo(p, |p.slots| / 2, |p.slots|) }

  /** The last key of the lower half. */
  function MidCell(p: Page): Cell { if LowerEnd(p) > 0 then CellAt(p, LowerEnd(p) - 1) else Cell(0, 0, 0) }

  /** At most one librarian before every live slot but the last. */
  predicate Lean(p: Page) { |p.slots| < 2 * |Entries(p)| }

  /** The halves of a page: its entries in two, in pages with no more slots than before. */
  ghost predicate Halved(p: Page, l: Page, r: Page, size: nat, right: nat) {
    && PageOk(l, size) && PageOk(r, size) && l.lvl == p.lvl && r.lvl == p.lvl
    && l.right == right && r.right == p.right
    && Entries(l) != [] && Entries(r) != [] && Entries(l) + Entries(r) == Entries(p)
    && |l.slots| <= |p.slots| && |r.slots| <= |p.slots| && Lean(l) && Lean(r)
    && l.min >= p.min && r.min >= p.min
  }

  lemma {:induction false} LowerOk(p: Page, l: Page, size: nat, right: nat)
    requires PageOk(p, size) && Splittable(p) && right != 0
    requires LowerLive(p) != [] && Total(LowerLive(p)) <= size && l == Fresh(p.lvl, right, LowerLive(p), size)
    ensures PageOk(l, size) && Entries(l) == EntriesTo(p, |p.slots| / 2) && Lean(l)
    ensures |l.slots| <= |p.slots| && l.min >= p.min
  {
    hide LiveTo, Laid, Heap, Total, LiveOk, SlotsOk, SortedPage, KeyAt;
    var n := LowerEnd(p);
    LowerHalf(p);
    LiveAreEntries(p, 0, n);
    LiveAreEntries(p, 0, |p.slots| / 2);
    LiveTotal(p, 0, n);
    LiveTotal(p, 0, |p.slots|);
    LiveShorter(p, 0, n, |p.slots|);
    LiveCount(p, 0, n);
    LiveKeysOk(p, size, 0, n);
    var live := LowerLive(p);
    assert LiveOk(live, false) && 2 * |live| - 1 <= |p.slots|;
    LaidOk(l, live, size);
  }

  lemma {:induction false} UpperOk(p: Page, r: Page, size: nat)
    requires PageOk(p, size)
    requires UpperLive(p) != [] && Total(UpperLive(p)) <= size && r == Fresh(p.lvl, p.right, UpperLive(p), size)
    ensures PageOk(r, size) && EntriesTo(p, |p.slots| / 2) + Entries(r) == Entries(p)
    ensures |r.slots| <= |p.slots| && r.min >= p.min && Lean(r)
  {
    hide LiveTo, Laid, Heap, Total, LiveOk, SlotsOk, SortedPage, KeyAt;
    var n := |p.slots| / 2;
    LiveAreEntries(p, n, |p.slots|);
    LiveTotal(p, n, |p.slots|);
    LiveCount(p, n, |p.slots|);
    LiveKeysOk(p, size, n, |p.slots|);
    var live := UpperLive(p);
    assert LiveOk(live, p.right == 0) && 2 * |live| - 1 <= |p.slots|;
    LaidOk(r, live, size);
  }

  lemma {:induction false} HalvesFit(p: Page, size: nat)
    requires PageOk(p, size)
    ensures Total(LiveTo(p, 0, LowerEnd(p))) <= size && Total(LiveTo(p, |p.slots| / 2, |p.slots|)) <= size
  {
    LowerHalf(p);
    LiveTotal(p, 0, LowerEnd(p));
    LiveTotal(p, 0, |p.slots|);
    LiveShorter(p, 0, LowerEnd(p), |p.slots|);
    LiveTotal(p, |p.slots| / 2, |p.slots|);
  }

  lemma {:induction false} HalveFacts(p: Page, size: nat)
    requires PageOk(p, size) && Splittable(p)
    ensures 0 < |p.slots| / 2 < |p.slots| && !p.slots[|p.slots| - 1].dead
    ensures Total(LowerLive(p)) <= size && Total(UpperLive(p)) <= size
    ensures LowerEnd(p) == if p.slots[|p.slots| / 2 - 1].typ == Librarian then |p.slots| / 2 - 1 else |p.slots| / 2
    ensures 0 < LowerEnd(p) <= |p.slots| / 2 && !p.slots[LowerEnd(p) - 1].dead
    ensures LowerLive(p) != [] && UpperLive(p) != []
    ensures LowerLive(p) == LiveTo(p, 0, LowerEnd(p)) && UpperLive(p) == LiveTo(p, |p.slots| / 2, |p.slots|)
  {
    hide SpaceOk, SortedPage, LiveTo, Total;
    HalvesFit(p, size);
    LowerHalf(p);
    LiveCount(p, |p.slots| / 2, |p.slots|);
    LiveCount(p, 0, LowerEnd(p));
  }

  /** The halves as the split lays them out. */
  ghost predicate HalvesAre(p: Page, l: Page, r: Page, size: nat, right: nat) {
    && LowerLive(p) != [] && UpperLive(p) != [] && Total(LowerLive(p)) <= size && Total(UpperLive(p)) <= size
    && l == Fresh(p.lvl, right, LowerLive(p), size) && r == Fresh(p.lvl, p.right, UpperLive(p), size)
  }

  /** The copying part of btreeSplitPage: higher keys to a new page, lower keys laid out afresh. */
  method Halve(p: Page, size: nat, right: nat) returns (l: Page, r: Page)
    requires PageOk(p, size) && Splittable(p) && right != 0
    ensures HalvesAre(p, l, r, size, right) && Halved(p, l, r, size, right)
  {
    hide *;
    HalveFacts(p, size);
    var max := |p.slots| / 2;
    var slots, cells, nxt, act := CopyLive(p, max, |p.slots|, size);
    r := Page(p.lvl, p.right, nxt, act, slots, cells);
    if p.slots[max - 1].typ == Librarian {
      max := max - 1;
    }
    assert max == LowerEnd(p);
    slots, cells, nxt, act := CopyLive(p, 0, max, size);
    l := Page(p.lvl, right, nxt, act, slots, cells);
    AreHalves(p, l, r, size, right);
    AreHalved(p, l, r, size, right);
  }

  lemma {:induction false} AreHalves(p: Page, l: Page, r: Page, size: nat, right: nat)
    requires LowerLive(p) != [] && UpperLive(p) != [] && Total(LowerLive(p)) <= size && Total(UpperLive(p)) <= size
    requires l == Page(p.lvl, right, size - Total(LowerLive(p)), |LowerLive(p)|, Laid(LowerLive(p), size), Heap(LowerLive(p), size))
    requires r == Page(p.lvl, p.right, size - Total(UpperLive(p)), |UpperLive(p)|, Laid(UpperLive(p), size), Heap(UpperLive(p), size))
    ensures HalvesAre(p, l, r, size, right)
  {
  }

  lemma {:induction false} AreHalved(p: Page, l: Page, r: Page, size: nat, right: nat)
    requires PageOk(p, size) && Splittable(p) && right != 0 && HalvesAre(p, l, r, size, right)
    ensures Halved(p, l, r, size, right)
  {
    hide LiveTo, Laid, Heap, Total, SlotsOk, SortedPage, SpaceOk, EntriesTo, LowerEnd;
    UpperOk(p, r, size);
    LowerOk(p, l, size, right);
    HalvedIf(p, l, r, size, right);
  }

  lemma {:induction false} HalvedIf(p: Page, l: Page, r: Page, size: nat, right: nat)
    requires PageOk(l, size) && PageOk(r, size) && l.lvl == r.lvl == p.lvl && l.right == right && r.right == p.right
    requires |p.slots| > 0 && Entries(l) == EntriesTo(p, |p.slots| / 2)
    requires EntriesTo(p, |p.slots| / 2) + Entries(r) == Entries(p)
    requires |l.slots| <= |p.slots| && |r.slots| <= |p.slots| && l.min >= p.min && r.min >= p.min && Lean(l) && Lean(r)
    ensures Halved(p, l, r, size, right)
  {
    EntriesSorted(l);
    EntriesSorted(r);
  }

  // ---------- stoppers and sizes of the halves ----------

  /** The slot that a live slot of a stretch stands for. */
  lemma {:induction false} LiveSource(p: Page, from: nat, n: nat, k: nat) returns (j: nat)
    requires from <= n <= |p.slots| && k < |LiveTo(p, from, n)|
    ensures from <= j < n && !p.slots[j].dead && LiveTo(p, from, n)[k] == Live(p.slots[j].typ, CellAt(p, j))
    ensures !p.slots[n - 1].dead ==> (k == |LiveTo(p, from, n)| - 1 <==> j == n - 1)
  {
    if k < |LiveTo(p, from, n - 1)| {
      j := LiveSource(p, from, n - 1, k);
    } else {
      j := n - 1;
    }
  }

  lemma {:induction false} FreshMarked(p: Page, q: Page, from: nat, n: nat, size: nat)
    requires from < n <= |p.slots| && !p.slots[n - 1].dead && Marked(p) && q.lvl == p.lvl
    requires LaidOut(q, LiveTo(p, from, n), size) && LiveOk(LiveTo(p, from, n), q.right == 0)
    requires q.right == 0 <==> p.right == 0 && n == |p.slots|
    ensures Marked(q)
  {
    hide LaidOut, LiveOk, CellAt, KeyAt, LiveTo;
    var live := LiveTo(p, from, n);
    forall i: nat | i < |q.slots| ensures MarkedSlot(q, i) {
      var k := LaidPageSlot(q, live, size, i);
      var j := LiveSource(p, from, n, k);
      assert MarkedSlot(p, j);
    }
  }

  /** The upper half keeps the stopper, the lower half has none. */
  lemma {:induction false} HalvesMarked(p: Page, l: Page, r: Page, size: nat, right: nat)
    requires PageOk(p, size) && Splittable(p) && right != 0 && HalvesAre(p, l, r, size, right) && Marked(p)
    ensures Marked(l) && Marked(r)
  {
    hide LiveTo, Laid, Heap, Total, SlotsOk, SortedPage, SpaceOk, EntriesTo, LiveOk, LowerEnd, MarkedSlot;
    HalveFacts(p, size);
    LiveKeysOk(p, size, 0, LowerEnd(p));
    LiveKeysOk(p, size, |p.slots| / 2, |p.slots|);
    FreshMarked(p, l, 0, LowerEnd(p), size);
    FreshMarked(p, r, |p.slots| / 2, |p.slots|, size);
  }

  /** The fence of the lower half is the middle key. */
  lemma {:induction false} LowerFence(p: Page, l: Page, r: Page, size: nat, right: nat)
    requires PageOk(p, size) && Splittable(p) && right != 0 && HalvesAre(p, l, r, size, right)
    ensures |l.slots| > 0 && CellAt(l, |l.slots| - 1) == MidCell(p)
  {
    hide LiveTo, Laid, Heap, Total, SlotsOk, SortedPage, SpaceOk, EntriesTo, LiveOk, LowerEnd, CellAt;
    HalveFacts(p, size);
    LiveKeysOk(p, size, 0, LowerEnd(p));
    var live := LowerLive(p);
    LaidCount(l, live, size);
    var k := LaidPageSlot(l, live, size, |l.slots| - 1);
    var j := LiveSource(p, 0, LowerEnd(p), k);
  }

  /** How much of a half is free. */
  lemma {:induction false} HalfSizes(p: Page, l: Page, r: Page, size: nat, right: nat)
    requires HalvesAre(p, l, r, size, right)
    ensures |l.slots| == 2 * |LowerLive(p)| - 1 && l.min == size - Total(LowerLive(p))
    ensures |r.slots| == 2 * |UpperLive(p)| - 1 && r.min == size - Total(UpperLive(p))
  {
    hide LiveTo, Laid, Heap, Total;
    LaidCount(l, LowerLive(p), size);
    LaidCount(r, UpperLive(p), size);
  }
}
