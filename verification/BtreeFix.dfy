/** Repointing the entry of the higher keys to the new right page: the last step of a split. */
module BtreeFix {
  import opened BtreePages
  import opened BtreeTree
  import opened BtreeStages
  import opened BtreeStep
  import opened BtreePost

  // ---------- another page number in a cell ----------

  /** Page `p` with another child in the cell of slot `i`. */
  function WithChild(p: Page, i: nat, c: nat): Page
    requires i < |p.slots|
  {
    p.(cells := p.cells[p.slots[i].off := CellAt(p, i).(child := c)])
  }

  lemma {:induction false} OtherOff(p: Page, size: nat, i: nat, j: nat)
    requires PageOk(p, size) && i < |p.slots| && j < |p.slots| && i != j && !p.slots[i].dead && !p.slots[j].dead
    ensures p.slots[i].off != p.slots[j].off
  {
    assert if i < j then !Overlap(p, i, j) else !Overlap(p, j, i);
  }

  /** Keys and lengths stay, and so do all cells of other live slots. */
  lemma {:induction false} ChildSlot(p: Page, size: nat, i: nat, c: nat, j: nat)
    requires PageOk(p, size) && i < |p.slots| && !p.slots[i].dead && j < |p.slots|
    ensures var q := WithChild(p, i, c);
            && q.slots == p.slots && KeyAt(q, j) == KeyAt(p, j) && CellAt(q, j).len == CellAt(p, j).len
            && q.slots[j].off in q.cells
            && CellAt(q, j) == if p.slots[j].off == p.slots[i].off then CellAt(p, i).(child := c) else CellAt(p, j)
  {
    hide Entries, SpaceOk, SortedPage;
    assert p.slots[j] in p.slots && p.slots[i] in p.slots;
  }

  lemma {:induction false} ChildEntries(p: Page, size: nat, i: nat, c: nat, n: nat)
    requires PageOk(p, size) && i < |p.slots| && !p.slots[i].dead && n <= |p.slots|
    ensures var q := WithChild(p, i, c);
            var k := |EntriesTo(p, i)|;
            EntriesTo(q, n) == if i < n && k < |EntriesTo(p, n)| then
              EntriesTo(p, n)[k := Entry(KeyAt(p, i), CellAt(p, i).(child := c))] else EntriesTo(p, n)
    ensures i < n ==> |EntriesTo(p, i)| < |EntriesTo(p, n)|
  {
    hide PageOk, KeyAt, CellAt;
    if n > 0 {
      ChildEntries(p, size, i, c, n - 1);
      ChildSlot(p, size, i, c, n - 1);
      if n - 1 != i && !p.slots[n - 1].dead { OtherOff(p, size, i, n - 1); }
    }
  }

  lemma {:induction false} KeySpaceSame(a: seq<Entry>, b: seq<Entry>)
    requires |a| == |b| && forall i | 0 <= i < |a| :: a[i].cell.len == b[i].cell.len
    ensures KeySpace(a) == KeySpace(b)
  {
    if a != [] { KeySpaceSame(a[..|a| - 1], b[..|b| - 1]); }
  }

  lemma {:induction false} ChildSlotsOk(p: Page, size: nat, i: nat, c: nat)
    requires PageOk(p, size) && i < |p.slots| && !p.slots[i].dead
    ensures SlotsOk(WithChild(p, i, c)) && SortedPage(WithChild(p, i, c))
  {
    hide SpaceOk, Entries, KeyAt, CellAt;
    var q := WithChild(p, i, c);
    forall j | 0 <= j < |p.slots| ensures q.slots[j].off in q.cells && KeyAt(q, j) == KeyAt(p, j) {
      ChildSlot(p, size, i, c, j);
    }
  }

  lemma {:induction false} ChildSpaceOk(p: Page, size: nat, i: nat, c: nat)
    requires PageOk(p, size) && i < |p.slots| && !p.slots[i].dead
    ensures SpaceOk(WithChild(p, i, c), size) && |Entries(WithChild(p, i, c))| == |Entries(p)|
  {
    hide SlotsOk, SortedPage, EntriesTo, KeySpace, KeyAt, CellAt;
    var q := WithChild(p, i, c);
    ChildEntries(p, size, i, c, |p.slots|);
    var k := |EntriesTo(p, i)|;
    EntryOfSlot(p, i);
    assert forall j | 0 <= j < |Entries(p)| :: Entries(q)[j].cell.len == Entries(p)[j].cell.len;
    KeySpaceSame(Entries(q), Entries(p));
    forall j | 0 <= j < |p.slots| ensures CellAt(q, j).len == CellAt(p, j).len { ChildSlot(p, size, i, c, j); }
    assert forall a, b | 0 <= a < b < |p.slots| :: Overlap(q, a, b) == Overlap(p, a, b);
  }

  /** Another page number changes one entry and nothing else. */
  lemma {:induction false} ChildOk(p: Page, size: nat, i: nat, c: nat)
    requires PageOk(p, size) && i < |p.slots| && !p.slots[i].dead
    ensures var q, k := WithChild(p, i, c), |EntriesTo(p, i)|;
            && PageOk(q, size) && q.lvl == p.lvl && q.right == p.right && k < |Entries(p)|
            && Entries(q) == Entries(p)[k := Entry(Entries(p)[k].key, Entries(p)[k].cell.(child := c))]
  {
    hide SlotsOk, SortedPage, SpaceOk, EntriesTo, KeyAt, CellAt;
    ChildSlotsOk(p, size, i, c);
    ChildSpaceOk(p, size, i, c);
    ChildEntries(p, size, i, c, |p.slots|);
    EntryOfSlot(p, i);
  }

  // ---------- the repointed entry ----------

  ghost predicate FixOf(t: Tree, g: Ranges, t': Tree, q: nat, p': Page, i: nat, r: nat) {
    && q in t.pages && Ranged(g, q) && t' == Tree(t.root, t.pages[q := p'])
    && PageOk(p', PAGE_SIZE) && p'.lvl == t.pages[q].lvl && p'.right == t.pages[q].right && i < |Es(t, q)|
    && Entries(p') == Es(t, q)[i := Entry(Es(t, q)[i].key, Es(t, q)[i].cell.(child := r))]
  }

  lemma {:induction false} FixFacts(t: Tree, g: Ranges, t': Tree, q: nat, p': Page, i: nat, r: nat)
    requires Sound(t, g) && FixOf(t, g, t', q, p', i, r)
    ensures q in t.pages && q in t'.pages && t'.pages[q] == p' && Ranged(g, q) && LvlOf(t, q) >= 0 && PageOk(p', PAGE_SIZE)
    ensures i < |Es(t, q)| && Es(t', q) == Es(t, q)[i := Entry(Es(t, q)[i].key, Es(t, q)[i].cell.(child := r))]
    ensures t'.root == t.root && t'.pages.Keys == t.pages.Keys && p'.right == t.pages[q].right
    ensures forall x :: LvlOf(t', x) == LvlOf(t, x)
    ensures forall x | x in t.pages :: t'.pages[x].right == t.pages[x].right
  {
    hide Sound, Entries, PageOk;
  }

  lemma {:induction false} FixStep(t: Tree, g: Ranges, t': Tree, q: nat, p': Page, i: nat, r: nat)
    requires Sound(t, g) && FixOf(t, g, t', q, p', i, r)
    ensures Step(t, g, t', g, {q})
  {
    hide Sound, Entries, PageOk, Es;
    forall x | x in t.pages ensures Ranged(g, x) {
      GoodNode(t, g, x);
      NodeRanged(t, g, x);
    }
  }

  lemma {:induction false} FixEntry(t: Tree, g: Ranges, t': Tree, q: nat, p': Page, i: nat, r: nat, j: nat)
    requires Sound(t, g) && FixOf(t, g, t', q, p', i, r) && j < |Es(t', q)|
    ensures Ranged(g, q) && |Es(t', q)| == |Es(t, q)| && Es(t', q)[j].key == Es(t, q)[j].key
    ensures Prev(g.lo[q], Es(t', q), j) == Prev(g.lo[q], Es(t, q), j)
    ensures if j == i then Es(t', q)[j].cell.child == r else Es(t', q)[j] == Es(t, q)[j]
  {
    hide Sound, Es, PageOk, FixOf, LvlOf;
    FixFacts(t, g, t', q, p', i, r);
  }

  lemma {:induction false} SameKeysIncreasing(lo: Bound, a: seq<Entry>, b: seq<Entry>)
    requires Increasing(lo, a) && |b| == |a| && forall j | 0 <= j < |a| :: b[j].key == a[j].key
    ensures Increasing(lo, b) && b[|b| - 1].key == a[|a| - 1].key
  {
    hide Lt;
  }

  lemma {:induction false} FixNode(t: Tree, g: Ranges, t': Tree, q: nat, p': Page, i: nat, r: nat)
    requires Sound(t, g) && FixOf(t, g, t', q, p', i, r)
    ensures q in t'.pages && NodeGood(t', g, q)
  {
    hide Sound, Entries, PageOk, FixOf, Increasing, LvlOf;
    FixFacts(t, g, t', q, p', i, r);
    GoodNode(t, g, q);
    SameKeysIncreasing(g.lo[q], Es(t, q), Es(t', q));
  }

  /** An entry may lead to any page that begins below it: the tree stays searchable. */
  lemma {:induction false} FixSound(t: Tree, g: Ranges, t': Tree, q: nat, p': Page, i: nat, r: nat)
    requires Sound(t, g) && FixOf(t, g, t', q, p', i, r)
    requires r in t.pages && Ranged(g, r) && LvlOf(t, r) + 1 == LvlOf(t, q)
    requires i < |Es(t, q)| && Le(g.lo[r], Prev(g.lo[q], Es(t, q), i))
    ensures Sound(t', g)
  {
    hide Sound, Es, PageOk, Prev, FixOf, LvlOf, Le, NodeGood, Step, Apart, RootGood;
    FixFacts(t, g, t', q, p', i, r);
    FixStep(t, g, t', q, p', i, r);
    FixNode(t, g, t', q, p', i, r);
    RootAlone(t, g);
    RootIn(t, g);
    SameRoot(t, g, t');
    forall j: nat | j < |Es(t', q)| && LvlOf(t', q) > 0 ensures ChildIs(t', g, q, j) {
      FixEntry(t, g, t', q, p', i, r, j);
      if j != i { GoodChild(t, g, q, j); }
    }
    OnePageGood(t', g, q);
    forall x, y | x in {q} && x in t'.pages && y in t'.pages && x != y && LvlOf(t', x) == LvlOf(t', y)
      ensures Ranged(g, x) && Ranged(g, y) && Apart(g, x, y)
    {
      PagesApart(t, g, x, y);
    }
    StepSound(t, g, t', g, {q});
  }

  // ---------- stages ----------

  /** The entry that owns the fence of the right page, before and after: nothing else misses it. */
  lemma {:induction false} PostedOwner(t: Tree, g: Ranges, lvl: nat, p: nat, r: nat, q: nat, i: nat)
    requires Sound(t, g) && LevelFits(t, g, lvl, Posted(p, r)) && q in t.pages && LvlOf(t, q) == lvl + 1
    requires r in t.pages && Ranged(g, r) && EntryOwns(t, g, q, i, g.hi[r])
    ensures Ranged(g, q) && i < |Es(t, q)| && g.lo[r] == Prev(g.lo[q], Es(t, q), i) && g.hi[r] == Es(t, q)[i].key
  {
    hide Sound, Es, Prev, LevelFits, Increasing;
    EntryWas(t, g, lvl, Posted(p, r), q, i);
    var c := Es(t, q)[i].cell.child;
    if TightEntry(g, Prev(g.lo[q], Es(t, q), i), Es(t, q)[i].key, c) {
      PageRange(t, g, r);
      BoundOwnerOnce(t, g, c, r, g.hi[r]);
    }
  }

  lemma {:induction false} PostedOther(t: Tree, g: Ranges, lvl: nat, p: nat, r: nat, q: nat, i: nat, x: nat, j: nat)
    requires Sound(t, g) && LevelFits(t, g, lvl, Posted(p, r)) && q in t.pages && LvlOf(t, q) == lvl + 1
    requires r in t.pages && Ranged(g, r) && EntryOwns(t, g, q, i, g.hi[r])
    requires x in t.pages && LvlOf(t, x) == lvl + 1 && j < |Es(t, x)| && !(x == q && j == i)
    ensures Ranged(g, x)
    ensures Fits(g, Prev(g.lo[x], Es(t, x), j), Es(t, x)[j].key, Es(t, x)[j].cell.child, Tight)
  {
    hide Sound, Es, Prev, LevelFits, Increasing;
    EntryWas(t, g, lvl, Posted(p, r), x, j);
    var c := Es(t, x)[j].cell.child;
    if !TightEntry(g, Prev(g.lo[x], Es(t, x), j), Es(t, x)[j].key, c) {
      PageRange(t, g, r);
      EntryOnce(t, g, q, i, x, j, g.hi[r]);
    }
  }

  lemma {:induction false} FixedEntry(
      t: Tree, g: Ranges, t': Tree, q: nat, p': Page, i: nat, lvl: nat, p: nat, r: nat, x: nat, j: nat)
    requires Sound(t, g) && FixOf(t, g, t', q, p', i, r) && LvlOf(t, q) == lvl + 1
    requires LevelFits(t, g, lvl, Posted(p, r)) && r in t.pages && Ranged(g, r) && EntryOwns(t, g, q, i, g.hi[r])
    requires x in t'.pages && LvlOf(t', x) == lvl + 1 && j < |Es(t', x)|
    ensures EntryFits(t', g, x, j, Tight)
  {
    hide Sound, Es, Prev, LevelFits, FixOf, EntryOwns, Step, LvlOf;
    FixFacts(t, g, t', q, p', i, r);
    if x == q {
      FixEntry(t, g, t', q, p', i, r, j);
      if j == i {
        PostedOwner(t, g, lvl, p, r, q, i);
      } else {
        PostedOther(t, g, lvl, p, r, q, i, x, j);
      }
      EntryIs(t', g, x, j, Tight, Prev(g.lo[q], Es(t', q), j), Es(t', q)[j]);
    } else {
      FixStep(t, g, t', q, p', i, r);
      StepSame(t, g, t', g, {q}, x);
      SameEntries(t, t', x);
      PostedOther(t, g, lvl, p, r, q, i, x, j);
      EntryIs(t', g, x, j, Tight, Prev(g.lo[x], Es(t, x), j), Es(t, x)[j]);
    }
  }

  /** With the right fence repointed every entry stands for its child's range again. */
  lemma {:induction false} FixStage(t: Tree, g: Ranges, t': Tree, q: nat, p': Page, i: nat, lvl: nat, p: nat, r: nat)
    requires Sound(t, g) && FixOf(t, g, t', q, p', i, r) && LvlOf(t, q) == lvl + 1
    requires LevelFits(t, g, lvl, Posted(p, r)) && r in t.pages && Ranged(g, r) && EntryOwns(t, g, q, i, g.hi[r])
    ensures LevelFits(t', g, lvl, Tight)
  {
    hide Sound, Es, LevelFits, FixOf, EntryOwns, EntryFits, LvlOf;
    forall x, j: nat | x in t'.pages && LvlOf(t', x) == lvl + 1 && j < |Es(t', x)|
      ensures EntryFits(t', g, x, j, Tight)
    {
      FixedEntry(t, g, t', q, p', i, lvl, p, r, x, j);
    }
    LevelIs(t', g, lvl, Tight);
  }

  lemma {:induction false} FixOtherStages(
      t: Tree, g: Ranges, t': Tree, q: nat, p': Page, i: nat, r: nat, lvl: nat, st: Stage)
    requires Sound(t, g) && FixOf(t, g, t', q, p', i, r) && LvlOf(t, q) != lvl + 1 && LevelFits(t, g, lvl, st)
    ensures LevelFits(t', g, lvl, st)
  {
    hide Sound, Es, LevelFits, FixOf, EntryFits, LvlOf, Step;
    FixFacts(t, g, t', q, p', i, r);
    FixStep(t, g, t', q, p', i, r);
    SameRanges(t, g, t', lvl);
    StepStage(t, g, t', g, {q}, lvl, st);
  }
}
