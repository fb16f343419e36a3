/** A change of a few pages of the B-link tree: what it takes to keep the tree sound. */
module BtreeStep {
  import opened BtreePages
  import opened BtreeTree
  import opened BtreeStages

  ghost predicate SamePage(t: Tree, g: Ranges, t': Tree, g': Ranges, x: nat) {
    && x in t.pages && x in t'.pages && t'.pages[x] == t.pages[x] && Ranged(g, x) && Ranged(g', x)
    && g'.lo[x] == g.lo[x] && g'.hi[x] == g.hi[x]
  }

  /** The page is on the same level and begins where it began. */
  ghost predicate SamePlace(t: Tree, g: Ranges, t': Tree, g': Ranges, x: nat) {
    x in t'.pages && LvlOf(t', x) == LvlOf(t, x) && Ranged(g, x) && Ranged(g', x) && g'.lo[x] == g.lo[x]
  }

  /** Only pages of `ch` are changed or new, and none but the root changes its place. */
  ghost predicate Step(t: Tree, g: Ranges, t': Tree, g': Ranges, ch: set<nat>) {
    && (forall x | x in t.pages && x !in ch :: SamePage(t, g, t', g', x))
    && (forall x | x in t'.pages && x !in ch :: x in t.pages)
    && (forall x | x in t.pages && x != t.root :: SamePlace(t, g, t', g', x))
  }

  lemma {:induction false} StepSame(t: Tree, g: Ranges, t': Tree, g': Ranges, ch: set<nat>, x: nat)
    requires Step(t, g, t', g', ch) && (x in t.pages || x in t'.pages) && x !in ch
    ensures SamePage(t, g, t', g', x)
  {
    hide SamePage, SamePlace;
  }

  lemma {:induction false} StepPlace(t: Tree, g: Ranges, t': Tree, g': Ranges, ch: set<nat>, x: nat)
    requires Step(t, g, t', g', ch) && x in t.pages && x != t.root
    ensures SamePlace(t, g, t', g', x)
  {
    hide SamePage, SamePlace;
  }

  ghost predicate PageFits(t: Tree, g: Ranges, x: nat)
    requires x in t.pages
  {
    NodeGood(t, g, x) && (LvlOf(t, x) > 0 ==> forall i: nat | i < |Es(t, x)| :: ChildGood(t, g, x, i))
  }

  ghost predicate ChangedGood(t': Tree, g': Ranges, ch: set<nat>) {
    forall x | x in ch && x in t'.pages :: PageFits(t', g', x)
  }

  ghost predicate ChangedApart(t': Tree, g': Ranges, ch: set<nat>) {
    forall x, y | x in ch && x in t'.pages && y in t'.pages && x != y && LvlOf(t', x) == LvlOf(t', y) ::
      Ranged(g', x) && Ranged(g', y) && Apart(g', x, y)
  }

  lemma {:induction false} NotRoot(t: Tree, g: Ranges, x: nat, y: nat)
    requires Sound(t, g) && x in t.pages && y in t.pages && LvlOf(t, y) <= LvlOf(t, x)
    ensures y == t.root ==> x == t.root
  {
    hide NodesGood, ChildrenGood, RangesApart;
  }

  lemma {:induction false} RootAlone(t: Tree, g: Ranges)
    requires Sound(t, g)
    ensures RootGood(t, g)
  {
  }

  lemma {:induction false} StepNode(t: Tree, g: Ranges, t': Tree, g': Ranges, ch: set<nat>, x: nat)
    requires Sound(t, g) && Step(t, g, t', g', ch) && x in t.pages && x !in ch
    ensures x in t'.pages && NodeGood(t', g', x)
  {
    hide Sound, PageGood;
    GoodNode(t, g, x);
    var r := t.pages[x].right;
    if r != 0 {
      NotRoot(t, g, x, r);
      RootAlone(t, g);
    }
    assert SamePage(t, g, t', g', x);
    assert r != 0 ==> SamePlace(t, g, t', g', r);
  }

  lemma {:induction false} StepChild(t: Tree, g: Ranges, t': Tree, g': Ranges, ch: set<nat>, x: nat, i: nat)
    requires Sound(t, g) && Step(t, g, t', g', ch) && x in t.pages && x !in ch
    requires LvlOf(t, x) > 0 && i < |Es(t, x)|
    ensures x in t'.pages && Ranged(g', x) && i < |Es(t', x)| && ChildGood(t', g', x, i)
  {
    hide Sound, NodeGood, Entries, Le, Prev, Step, Es, LvlOf;
    GoodChild(t, g, x, i);
    NotRoot(t, g, x, Es(t, x)[i].cell.child);
    StepSame(t, g, t', g', ch, x);
    StepPlace(t, g, t', g', ch, Es(t, x)[i].cell.child);
    SameEntries(t, t', x);
    ChildKept(t, g, t', g', x, i);
  }

  lemma {:induction false} ChildKept(t: Tree, g: Ranges, t': Tree, g': Ranges, x: nat, i: nat)
    requires x in t.pages && x in t'.pages && LvlOf(t', x) == LvlOf(t, x) && Es(t', x) == Es(t, x)
    requires Ranged(g, x) && Ranged(g', x) && g'.lo[x] == g.lo[x] && i < |Es(t, x)| && ChildGood(t, g, x, i)
    requires SamePlace(t, g, t', g', Es(t, x)[i].cell.child)
    ensures ChildGood(t', g', x, i)
  {
    hide Es, LvlOf, Le, Prev;
  }

  lemma {:induction false} StepPage(t: Tree, g: Ranges, t': Tree, g': Ranges, ch: set<nat>, x: nat)
    requires Sound(t, g) && Step(t, g, t', g', ch) && ChangedGood(t', g', ch) && x in t'.pages
    ensures PageFits(t', g', x)
  {
    if x !in ch {
      StepNode(t, g, t', g', ch, x);
      assert x in t.pages && SamePage(t, g, t', g', x);
      hide Sound, Step, NodeGood, Entries, ChangedGood, ChildGood;
      forall i: nat | i < |Es(t', x)| && LvlOf(t', x) > 0 ensures Ranged(g', x) && ChildGood(t', g', x, i) {
        StepChild(t, g, t', g', ch, x, i);
      }
    }
  }

  lemma {:induction false} StepApart(t: Tree, g: Ranges, t': Tree, g': Ranges, ch: set<nat>, x: nat, y: nat)
    requires Sound(t, g) && Step(t, g, t', g', ch) && ChangedApart(t', g', ch)
    requires x in t'.pages && y in t'.pages && x != y && LvlOf(t', x) == LvlOf(t', y)
    ensures Ranged(g', x) && Ranged(g', y) && Apart(g', x, y)
  {
    hide Sound, Le;
    if x in ch {
    } else if y in ch {
      assert Apart(g', y, x);
    } else {
      assert SamePage(t, g, t', g', x) && SamePage(t, g, t', g', y);
      PagesApart(t, g, x, y);
    }
  }

  lemma {:induction false} StepSound(t: Tree, g: Ranges, t': Tree, g': Ranges, ch: set<nat>)
    requires Sound(t, g) && Step(t, g, t', g', ch) && RootGood(t', g')
    requires ChangedGood(t', g', ch) && ChangedApart(t', g', ch)
    ensures Sound(t', g')
  {
    hide Step, ChangedGood, ChangedApart, NodeGood, ChildGood, Apart, RootGood, Es, Sound;
    forall x | x in t'.pages ensures PageFits(t', g', x) { StepPage(t, g, t', g', ch, x); }
    AllPages(t', g');
    forall x, y | x in t'.pages && y in t'.pages && x != y && LvlOf(t', x) == LvlOf(t', y)
      ensures Ranged(g', x) && Ranged(g', y) && Apart(g', x, y)
    {
      StepApart(t, g, t', g', ch, x, y);
    }
    AllSound(t', g');
  }

  lemma {:induction false} AllPages(t: Tree, g: Ranges)
    requires forall x | x in t.pages :: PageFits(t, g, x)
    ensures NodesGood(t, g) && ChildrenGood(t, g)
  {
    hide NodeGood, ChildGood;
    forall x | x in t.pages ensures NodeGood(t, g, x) { assert PageFits(t, g, x); }
    forall x, i: nat | x in t.pages && LvlOf(t, x) > 0 && i < |Es(t, x)| ensures NodeGood(t, g, x) && ChildIs(t, g, x, i) {
      assert PageFits(t, g, x);
      FitsChild(t, g, x, i);
    }
  }

  lemma {:induction false} FitsChild(t: Tree, g: Ranges, x: nat, i: nat)
    requires x in t.pages && PageFits(t, g, x) && LvlOf(t, x) > 0 && i < |Es(t, x)|
    ensures ChildIs(t, g, x, i)
  {
    hide PageGood, RightGood, Es, ChildGood;
  }

  ghost predicate ChildIs(t: Tree, g: Ranges, x: nat, i: nat)
    requires x in t.pages && i < |Es(t, x)|
  {
    Ranged(g, x) && ChildGood(t, g, x, i)
  }

  lemma {:induction false} AllSound(t: Tree, g: Ranges)
    requires NodesGood(t, g) && ChildrenGood(t, g) && RootGood(t, g)
    requires forall x, y | x in t.pages && y in t.pages && x != y && LvlOf(t, x) == LvlOf(t, y) ::
               Ranged(g, x) && Ranged(g, y) && Apart(g, x, y)
    ensures Sound(t, g)
  {
    hide NodeGood, ChildGood, RootGood, Apart;
  }

  // ---------- stages ----------

  /** The ranges of a whole level are as they were. */
  ghost predicate SameLevel(t: Tree, g: Ranges, t': Tree, g': Ranges, lvl: nat) {
    forall x | x in t.pages && LvlOf(t, x) == lvl ::
      x in t'.pages && LvlOf(t', x) == lvl && Ranged(g, x) && Ranged(g', x) && g'.lo[x] == g.lo[x] && g'.hi[x] == g.hi[x]
  }

  lemma {:induction false} SameFits(g: Ranges, g': Ranges, prev: Bound, key: Bound, c: nat, st: Stage)
    requires Fits(g, prev, key, c, st)
    requires Ranged(g, c) && Ranged(g', c) && g'.lo[c] == g.lo[c] && g'.hi[c] == g.hi[c]
    requires !st.Tight? ==> Ranged(g, st.p) && Ranged(g', st.p) && g'.lo[st.p] == g.lo[st.p] && g'.hi[st.p] == g.hi[st.p]
    requires !st.Tight? ==> Ranged(g, st.r) && Ranged(g', st.r) && g'.lo[st.r] == g.lo[st.r] && g'.hi[st.r] == g.hi[st.r]
    ensures Fits(g', prev, key, c, st)
  {
  }

  /** An entry that was there still fits when the level it leads to has the same ranges. */
  lemma {:induction false} EntryKept(
      t: Tree, g: Ranges, t': Tree, g': Ranges, lvl: nat, st: Stage, x: nat, i: nat, y: nat, j: nat)
    requires Sound(t, g) && SameLevel(t, g, t', g', lvl) && LevelFits(t, g, lvl, st)
    requires StagePages(t, lvl, st) && y in t.pages && LvlOf(t, y) == lvl + 1 && j < |Es(t, y)| && Ranged(g, y)
    requires i < |Es(t', x)| && Ranged(g', x) && Es(t', x)[i] == Es(t, y)[j]
    requires Prev(g'.lo[x], Es(t', x), i) == Prev(g.lo[y], Es(t, y), j)
    ensures EntryFits(t', g', x, i, st)
  {
    hide SameLevel, LevelFits, StagePages, Sound, Fits, Es, Prev;
    var prev, e := Prev(g.lo[y], Es(t, y), j), Es(t, y)[j];
    EntryWas(t, g, lvl, st, y, j);
    LevelRange(t, g, t', g', lvl, e.cell.child);
    SameStage(t, g, t', g', lvl, st);
    SameFits(g, g', prev, e.key, e.cell.child, st);
    EntryIs(t', g', x, i, st, prev, e);
  }

  lemma {:induction false} EntryWas(t: Tree, g: Ranges, lvl: nat, st: Stage, y: nat, j: nat)
    requires Sound(t, g) && LevelFits(t, g, lvl, st)
    requires y in t.pages && LvlOf(t, y) == lvl + 1 && j < |Es(t, y)|
    ensures StagePages(t, lvl, st) && Ranged(g, y)
    ensures Fits(g, Prev(g.lo[y], Es(t, y), j), Es(t, y)[j].key, Es(t, y)[j].cell.child, st)
    ensures Es(t, y)[j].cell.child in t.pages && LvlOf(t, Es(t, y)[j].cell.child) == lvl
  {
    hide Sound, NodeGood, Es, Prev, Fits, Le, StagePages;
    EntryOf(t, g, lvl, st, y, j);
    GoodChild(t, g, y, j);
  }

  lemma {:induction false} EntryOf(t: Tree, g: Ranges, lvl: nat, st: Stage, y: nat, j: nat)
    requires LevelFits(t, g, lvl, st) && y in t.pages && LvlOf(t, y) == lvl + 1 && j < |Es(t, y)|
    ensures EntryFits(t, g, y, j, st) && StagePages(t, lvl, st)
  {
    hide EntryFits, Es;
  }

  lemma {:induction false} LevelRange(t: Tree, g: Ranges, t': Tree, g': Ranges, lvl: nat, c: nat)
    requires SameLevel(t, g, t', g', lvl) && c in t.pages && LvlOf(t, c) == lvl
    ensures Ranged(g, c) && Ranged(g', c) && g'.lo[c] == g.lo[c] && g'.hi[c] == g.hi[c]
  {
  }

  lemma {:induction false} EntryIs(t: Tree, g: Ranges, x: nat, i: nat, st: Stage, prev: Bound, e: Entry)
    requires i < |Es(t, x)| && Ranged(g, x) && Es(t, x)[i] == e && Prev(g.lo[x], Es(t, x), i) == prev
    requires Fits(g, prev, e.key, e.cell.child, st)
    ensures EntryFits(t, g, x, i, st)
  {
    hide Es, Prev, Fits;
  }

  lemma {:induction false} SameStage(t: Tree, g: Ranges, t': Tree, g': Ranges, lvl: nat, st: Stage)
    requires SameLevel(t, g, t', g', lvl) && StagePages(t, lvl, st)
    ensures StagePages(t', lvl, st)
    ensures !st.Tight? ==> Ranged(g, st.p) && Ranged(g', st.p) && g'.lo[st.p] == g.lo[st.p] && g'.hi[st.p] == g.hi[st.p]
    ensures !st.Tight? ==> Ranged(g, st.r) && Ranged(g', st.r) && g'.lo[st.r] == g.lo[st.r] && g'.hi[st.r] == g.hi[st.r]
  {
  }

  lemma {:induction false} StageOf(t: Tree, g: Ranges, lvl: nat, st: Stage)
    requires LevelFits(t, g, lvl, st)
    ensures StagePages(t, lvl, st)
  {
  }

  /** A level keeps its stage when its ranges and the pages above it are kept. */
  lemma {:induction false} StepStage(t: Tree, g: Ranges, t': Tree, g': Ranges, ch: set<nat>, lvl: nat, st: Stage)
    requires Sound(t, g) && Step(t, g, t', g', ch) && SameLevel(t, g, t', g', lvl) && LevelFits(t, g, lvl, st)
    requires forall x, i: nat | x in ch && x in t'.pages && LvlOf(t', x) == lvl + 1 && i < |Es(t', x)| ::
               EntryFits(t', g', x, i, st)
    ensures LevelFits(t', g', lvl, st)
  {
    hide Sound, Es, EntryFits, LevelFits;
    StageOf(t, g, lvl, st);
    forall x, i: nat | x in t'.pages && LvlOf(t', x) == lvl + 1 && i < |Es(t', x)| ensures EntryFits(t', g', x, i, st) {
      if x !in ch {
        assert SamePage(t, g, t', g', x);
        SameEntries(t, t', x);
        EntryKept(t, g, t', g', lvl, st, x, i, x, i);
      }
    }
    LevelIs(t', g', lvl, st);
  }

  lemma {:induction false} SameEntries(t: Tree, t': Tree, x: nat)
    requires x in t.pages && x in t'.pages && t'.pages[x] == t.pages[x]
    ensures Es(t', x) == Es(t, x) && LvlOf(t', x) == LvlOf(t, x)
  {
  }

  lemma {:induction false} LevelIs(t: Tree, g: Ranges, lvl: nat, st: Stage)
    requires StagePages(t, lvl, st)
    requires forall x, i: nat | x in t.pages && LvlOf(t, x) == lvl + 1 && i < |Es(t, x)| :: EntryFits(t, g, x, i, st)
    ensures LevelFits(t, g, lvl, st)
  {
  }

  // ---------- the cells on a level ----------

  lemma {:induction false} StepHeld(
      t: Tree, g: Ranges, t': Tree, g': Ranges, ch: set<nat>, x: nat, lvl: nat, key: Bound, len: nat)
    requires Step(t, g, t', g', ch) && x !in ch
    ensures HeldBy(t', x, lvl, key, len) <==> HeldBy(t, x, lvl, key, len)
  {
    hide Step, Es, LvlOf, HasCell;
    if x in t.pages || x in t'.pages {
      StepSame(t, g, t', g', ch, x);
      SameEntries(t, t', x);
    }
  }

  /** Whether a level holds a key is decided by the changed pages alone. */
  lemma {:induction false} StepHolds(t: Tree, g: Ranges, t': Tree, g': Ranges, ch: set<nat>, lvl: nat, key: Bound, len: nat)
    requires Step(t, g, t', g', ch)
    requires (exists x: nat :: x in ch && HeldBy(t', x, lvl, key, len)) <==> (exists x: nat :: x in ch && HeldBy(t, x, lvl, key, len))
    ensures Holds(t', lvl, key, len) <==> Holds(t, lvl, key, len)
  {
    hide Step, HeldBy;
    forall x: nat | x !in ch ensures HeldBy(t', x, lvl, key, len) <==> HeldBy(t, x, lvl, key, len) {
      StepHeld(t, g, t', g', ch, x, lvl, key, len);
    }
  }

  /** A change above a level leaves its cells alone. */
  lemma {:induction false} LevelsSame(t: Tree, g: Ranges, t': Tree, g': Ranges, ch: set<nat>, lvl: nat)
    requires Step(t, g, t', g', ch)
    requires forall x | x in ch :: (x in t.pages ==> LvlOf(t, x) > lvl) && (x in t'.pages ==> LvlOf(t', x) > lvl)
    ensures SameCells(t, t', lvl)
  {
    hide Step, Es, LvlOf, HasCell, Holds;
    forall k: nat, key: Bound, len: nat | k <= lvl ensures Holds(t', k, key, len) <==> Holds(t, k, key, len) {
      StepHolds(t, g, t', g', ch, k, key, len);
    }
  }
}
