/** New memory for the lists: frames for the free list, and objects for an object list. */
module FrameFill {
  import opened FrameLists
  import opened FrameStore
  import opened FrameAlloc

  // ---------- fresh addresses ----------

  ghost predicate Distinct(s: seq<nat>) { forall i, j | 0 <= i < j < |s| :: s[i] != s[j] }

  lemma {:induction false} DistinctOnce(s: seq<nat>)
    requires Distinct(s)
    ensures Once(multiset(s))
  {
    if s != [] {
      var n := |s| - 1;
      DistinctOnce(s[..n]);
      assert s == s[..n] + [s[n]];
      assert s[n] !in s[..n];
    }
  }

  lemma {:induction false} OnceJoin(a: multiset<nat>, b: multiset<nat>, n: nat, m: nat)
    requires Once(a) && Once(b) && Below(a, n) && 0 < n <= m && forall x | x in b :: n <= x < m
    ensures Once(a + b) && Below(a + b, m)
  {
    forall x ensures (a + b)[x] <= 1 {
      assert a[x] <= 1 && b[x] <= 1 && !(x in a && x in b);
    }
  }

  lemma {:induction false} OnceUnion(a: multiset<nat>, b: multiset<nat>, m: nat)
    requires Once(a) && Once(b) && Below(a, m) && Below(b, m) && forall x | x in b :: x !in a
    ensures Once(a + b) && Below(a + b, m)
  {
    forall x ensures (a + b)[x] <= 1 {
      assert a[x] <= 1 && b[x] <= 1 && !(x in a && x in b);
    }
  }

  lemma {:induction false} OncePart(a: multiset<nat>, b: multiset<nat>, n: nat)
    requires Once(a + b) && Below(a + b, n)
    ensures Once(a) && Below(a, n)
  {
    assert forall x :: a[x] <= (a + b)[x];
    assert forall x | x in a :: x in a + b;
  }

  /** More room: the allocation pointer moves on. */
  lemma {:induction false} BumpSound(s: Store, c: Chains, live: set<nat>, n: nat)
    requires Sound(s, c, live) && n >= s.nextObject
    ensures Sound(s.(nextObject := n), c, live)
    ensures |s.heads| == |c.lists| && Everything(s.(nextObject := n), c, live) == Everything(s, c, live)
    ensures Below(Everything(s, c, live), s.nextObject)
  {
    hide Linked, Items, Holds, ListOk, SumHolds, Once;
  }

  /** Whatever a store holds was held before, or is newly allocated. */
  ghost predicate Grown(s: Store, c: Chains, s': Store, c': Chains, live: set<nat>) {
    && |s.heads| == |c.lists| && |s'.heads| == |c'.lists| && s'.nextObject >= s.nextObject
    && (forall y | y in Everything(s', c', live) :: y in Everything(s, c, live) || y >= s.nextObject)
    && forall y | y in s'.frames :: y in s.frames || y >= s.nextObject
  }

  // ---------- initFreeFrame ----------

  /** The slots of the new head: all the other new frames. */
  function FrameSlots(base: nat): (r: seq<nat>)
    ensures |r| == SLOTS && forall k | 0 <= k < SLOTS :: r[k] == base + FRAME * (SLOTS - k)
  {
    seq(SLOTS, k requires 0 <= k < SLOTS => base + FRAME * (SLOTS - k))
  }

  /** The frames of a new block. */
  function Block(base: nat): multiset<nat> { multiset{base} + multiset(FrameSlots(base)) }

  /** Frame `k` of a new block. */
  predicate InBlock(base: nat, x: nat) { exists k: nat | k <= SLOTS :: x == base + FRAME * k }

  ghost predicate FreshFrames(s: Store, s': Store, base: nat) {
    && (forall x | x in s.frames :: x in s'.frames && s'.frames[x] == s.frames[x])
    && (forall x | x in s'.frames && x !in s.frames :: base <= x < s'.nextObject && |s'.frames[x].slots| == SLOTS)
    && (forall x | x in s'.frames && x !in s.frames :: InBlock(base, x))
    && (forall k: nat | k <= SLOTS :: base + FRAME * k in s'.frames)
    && s'.nextObject == base + FRAME * (SLOTS + 1) && base == s.nextObject
    && base in s'.frames && s'.frames[base] == Frame(0, FrameSlots(base))
    && s'.free == Head(base, SLOTS) && s'.heads == s.heads
  }

  lemma {:induction false} FreshHolds(frames: Frames, base: nat)
    requires base > 0 && base in frames && frames[base] == Frame(0, FrameSlots(base))
    ensures ListOk(frames, Head(base, SLOTS), [base])
    ensures Holds(frames, Head(base, SLOTS), [base]) == multiset{base} + multiset(FrameSlots(base))
  {
    assert [base][1..] == [];
    assert FrameSlots(base)[..SLOTS] == FrameSlots(base);
    assert Items(frames, [base], SLOTS) == FrameSlots(base) + Items(frames, [base][1..], SLOTS);
  }

  lemma {:induction false} BlockOnce(base: nat)
    ensures var m := multiset{base} + multiset(FrameSlots(base));
            Once(m) && forall x | x in m :: base <= x < base + FRAME * (SLOTS + 1) && InBlock(base, x)
  {
    var r := FrameSlots(base);
    assert Distinct([base] + r);
    DistinctOnce([base] + r);
    assert multiset([base] + r) == multiset{base} + multiset(r);
    forall x | x in multiset{base} + multiset(r) ensures base <= x < base + FRAME * (SLOTS + 1) && InBlock(base, x) {
      if x == base {
        assert x == base + FRAME * 0;
      } else {
        var k :| 0 <= k < |r| && r[k] == x;
        assert x == base + FRAME * (SLOTS - k);
      }
    }
  }

  lemma {:induction false} FreshLists(s: Store, c: Chains, s': Store, live: set<nat>, base: nat)
    requires Sound(s, c, live) && FreshFrames(s, s', base)
    ensures |s.heads| == |c.lists| && ListsOk(s'.frames, s'.heads, c.lists)
    ensures SumHolds(s'.frames, s'.heads, c.lists) == SumHolds(s.frames, s.heads, c.lists)
    ensures SameLists(s, c, s', c.(free := [base]))
  {
    hide Linked, Items, SumHolds, Once, Below;
    forall i | 0 <= i < |s.heads|
      ensures ListOk(s'.frames, s.heads[i], c.lists[i])
      ensures Holds(s'.frames, s.heads[i], c.lists[i]) == Holds(s.frames, s.heads[i], c.lists[i])
      ensures Stock(s'.frames, s.heads[i], c.lists[i]) == Stock(s.frames, s.heads[i], c.lists[i])
    {
      MoreFrames(s.frames, s'.frames, c.lists[i], s.heads[i].nslot);
    }
    SumSame(s.frames, s'.frames, s.heads, c.lists);
  }

  /** A block of new frames for the free list takes the place of all that the list held. */
  lemma {:induction false} FreshSound(s: Store, c: Chains, s': Store, live: set<nat>)
    requires Sound(s, c, live) && FreshFrames(s, s', s.nextObject)
    ensures Sound(s', c.(free := [s.nextObject]), live) && SameLists(s, c, s', c.(free := [s.nextObject]))
    ensures Grown(s, c, s', c.(free := [s.nextObject]), live)
    ensures |s.heads| == |c.lists| == |s'.heads|
    ensures Everything(s', c.(free := [s.nextObject]), live) + Holds(s.frames, s.free, c.free)
         == Everything(s, c, live) + Block(s.nextObject)
  {
    hide Linked, Items, Holds, ListOk, SumHolds, Once, Below, ListsOk, FrameSlots, InBlock, Stock;
    var base, c' := s.nextObject, c.(free := [s.nextObject]);
    SoundParts(s, c, live);
    FreshLists(s, c, s', live, base);
    FreshHolds(s'.frames, base);
    BlockOnce(base);
    var rest := SumHolds(s.frames, s.heads, c.lists) + multiset(live);
    assert Everything(s, c, live) == rest + Holds(s.frames, s.free, c.free);
    OncePart(rest, Holds(s.frames, s.free, c.free), base);
    var m := multiset{base} + multiset(FrameSlots(base));
    assert Everything(s', c', live) == rest + m;
    OnceJoin(rest, m, base, s'.nextObject);
    BlockFrames(s'.frames, base, m);
  }

  /** The block that allocFrame adds to the store. */
  function NewBlock(s: Store): multiset<nat> { if FreeDry(s) then Block(s.nextObject) else multiset{} }

  /** The frame that allocFrame drops with it. */
  function Dropped(s: Store): multiset<nat> {
    if FreeDry(s) && s.free.addr != 0 then multiset{s.free.addr} else multiset{}
  }

  /** A frame is lost, the head of the free list, exactly when the free list has an empty head and nothing else. */
  lemma {:induction false} LostExactly(s: Store, c: Chains, s': Store, c': Chains, live: set<nat>, x: nat)
    requires Sound(s, c, live) && |s.heads| == |c.lists| && |s'.heads| == |c'.lists|
    requires Everything(s', c', live) + multiset{x} + Dropped(s) == Everything(s, c, live) + NewBlock(s)
    ensures (exists y :: Lost(Everything(s, c, live), Everything(s', c', live), x, y))
       <==> FreeDry(s) && s.free.addr != 0
    ensures forall y | Lost(Everything(s, c, live), Everything(s', c', live), x, y) :: y == s.free.addr
  {
    hide Everything, ListOk, ListsOk, FrameSlots, Linked, AllFrames, Block, Sound;
    var m, m', b := Everything(s, c, live), Everything(s', c', live), NewBlock(s);
    SoundParts(s, c, live);
    forall y | Lost(m, m', x, y) ensures y == s.free.addr && FreeDry(s) && s.free.addr != 0 {
      assert (m' + multiset{x} + Dropped(s))[y] == (m + b)[y];
    }
    if FreeDry(s) && s.free.addr != 0 {
      var y := s.free.addr;
      DryHolds(s, c, live);
      HeldFree(s, c, live, y);
      BlockOnce(s.nextObject);
      assert b[y] == 0 by { if y in b { BlockIs(s.nextObject); assert false; } }
      assert (m' + multiset{x} + Dropped(s))[y] == (m + b)[y];
      assert Lost(m, m', x, y);
    }
  }

  ghost predicate Lost(m: multiset<nat>, m': multiset<nat>, x: nat, y: nat) { y in m && y != x && y !in m' }

  lemma {:induction false} BlockIs(base: nat)
    ensures Block(base) == multiset{base} + multiset(FrameSlots(base))
  {
  }

  lemma {:induction false} HeldFree(s: Store, c: Chains, live: set<nat>, y: nat)
    requires |s.heads| == |c.lists| && y in Holds(s.frames, s.free, c.free)
    ensures y in Everything(s, c, live)
  {
    hide Holds, SumHolds;
  }

  lemma {:induction false} BlockFrames(frames: Frames, base: nat, m: multiset<nat>)
    requires (forall k: nat | k <= SLOTS :: base + FRAME * k in frames) && forall x | x in m :: InBlock(base, x)
    ensures AllFrames(frames, m)
  {
  }

  // ---------- initObjFrame ----------

  /** The room `dup` objects of `unit` 8-byte units take. */
  function Extent(unit: nat, dup: nat): nat { unit * dup }

  /** The slots for `dup` new objects of `unit` 8-byte units from `base` on, the first object last. */
  function ObjectSlots(base: nat, unit: nat, dup: nat): (r: seq<nat>)
    ensures |r| == dup && forall k | 0 <= k < dup :: r[k] == base + Extent(unit, dup - 1 - k)
  {
    hide Extent;
    seq(dup, k requires 0 <= k < dup => base + Extent(unit, dup - 1 - k))
  }

  lemma {:induction false} Multiples(unit: nat, i: nat, j: nat)
    requires unit > 0 && i < j
    ensures unit * i + unit <= unit * j
    decreases j
  {
    assert unit * (j - 1) + unit == unit * j;
    if i < j - 1 { Multiples(unit, i, j - 1); }
  }

  lemma {:induction false} ObjectAt(base: nat, unit: nat, dup: nat, k: nat)
    requires unit > 0 && k < dup
    ensures base <= ObjectSlots(base, unit, dup)[k] < base + Extent(unit, dup)
  {
    Multiples(unit, dup - 1 - k, dup);
  }

  lemma {:induction false} ObjectsApart(base: nat, unit: nat, dup: nat, i: nat, j: nat)
    requires unit > 0 && i < j < dup
    ensures ObjectSlots(base, unit, dup)[i] >= ObjectSlots(base, unit, dup)[j] + unit
  {
    Multiples(unit, dup - 1 - j, dup - 1 - i);
  }

  /** The new objects lie apart, inside the new region. */
  lemma {:induction false} ObjectsOnce(base: nat, unit: nat, dup: nat)
    requires unit > 0
    ensures var m := multiset(ObjectSlots(base, unit, dup));
            Once(m) && forall x | x in ObjectSlots(base, unit, dup) :: base <= x < base + Extent(unit, dup)
  {
    hide ObjectSlots;
    var r := ObjectSlots(base, unit, dup);
    forall i, j | 0 <= i < j < |r| ensures r[i] != r[j] { ObjectsApart(base, unit, dup, i, j); }
    DistinctOnce(r);
    forall x | x in r ensures base <= x < base + Extent(unit, dup) {
      var k: nat :| k < |r| && r[k] == x;
      ObjectAt(base, unit, dup, k);
    }
  }

  /** The list with one frame `x` of new objects. */
  function Filled(s: Store, q: nat, x: nat, slots: seq<nat>, dup: nat): Store
    requires q < |s.heads|
  {
    s.(frames := s.frames[x := Frame(0, slots)], heads := s.heads[q := Head(x, dup)])
  }

  lemma {:induction false} FilledList(frames: Frames, x: nat, slots: seq<nat>, dup: nat)
    requires x != 0 && |slots| == SLOTS && dup <= SLOTS
    ensures var frames' := frames[x := Frame(0, slots)];
            && ListOk(frames', Head(x, dup), [x]) && Holds(frames', Head(x, dup), [x]) == multiset{x} + multiset(slots[..dup])
            && Stock(frames', Head(x, dup), [x]) == multiset(slots[..dup])
  {
    var frames' := frames[x := Frame(0, slots)];
    assert [x][1..] == [];
    assert Items(frames', [x], dup) == slots[..dup] + Items(frames', [x][1..], SLOTS);
  }

  /** An object list that has run dry: without a frame, or with an empty one at its end. */
  predicate Dry(s: Store, q: nat)
    requires q < |s.heads|
  {
    s.heads[q].addr == 0
    || (s.heads[q].nslot == 0 && s.heads[q].addr in s.frames && s.frames[s.heads[q].addr].next == 0)
  }

  lemma {:induction false} DryList(s: Store, c: Chains, live: set<nat>, q: nat)
    requires Sound(s, c, live) && q < |s.heads| && Dry(s, q)
    ensures |s.heads| == |c.lists| && c.lists[q] == (if s.heads[q].addr == 0 then [] else [s.heads[q].addr])
    ensures Stock(s.frames, s.heads[q], c.lists[q]) == multiset{}
    ensures Holds(s.frames, s.heads[q], c.lists[q]) == if s.heads[q].addr == 0 then multiset{} else multiset{s.heads[q].addr}
  {
    hide SumHolds, Once, Below;
    ListFacts(s, c, live, q);
    if s.heads[q].addr != 0 {
      HeadFrame(s.frames, s.heads[q], c.lists[q]);
    }
  }

  lemma {:induction false} CancelFill(
      e: multiset<nat>, e': multiset<nat>, h: multiset<nat>, x: multiset<nat>, o: multiset<nat>, l: multiset<nat>)
    requires e' + h + l == e + (h + x + o) + l
    ensures e' == e + x + o
  {
    forall z ensures e'[z] == (e + x + o)[z] {
      assert (e' + h + l)[z] == (e + (h + x + o) + l)[z];
    }
  }

  /** The addresses are new: in no list, not live, and apart from each other. */
  ghost predicate NewObjects(s: Store, c: Chains, live: set<nat>, x: nat, objects: multiset<nat>) {
    && |s.heads| == |c.lists| && Once(objects) && Below(objects, s.nextObject)
    && forall y | y in objects :: y !in Everything(s, c, live) && y != x
  }

  /** The list filled with new objects: the frame may come from hand. */
  lemma {:induction false} FillSound(s: Store, c: Chains, live: set<nat>, q: nat, x: nat, slots: seq<nat>, dup: nat)
    requires Sound(s, c, live) && q < |s.heads| && Dry(s, q) && |slots| == SLOTS && 0 < dup <= SLOTS && x in s.frames
    requires if s.heads[q].addr == 0 then InHand(s, c, live, x) else x == s.heads[q].addr
    requires NewObjects(s, c, live, x, multiset(slots[..dup]))
    ensures |s.heads| == |c.lists|
    ensures var s', c' := Filled(s, q, x, slots, dup), c.(lists := c.lists[q := [x]]);
            && Sound(s', c', live) && OthersSame(s, c, s', c', q)
            && Stock(s'.frames, s'.heads[q], c'.lists[q]) == multiset(slots[..dup])
  {
    hide Linked, Items, Holds, ListOk, SumHolds, Once, Below, Stock, Everything, Sound, OnlyIn, InHand;
    DryList(s, c, live, q);
    ListFacts(s, c, live, q);
    OwnFrame(s, c, live, q, x);
    FrameHere(s, c, live, x);
    FilledList(s.frames, x, slots, dup);
    var s', c' := Filled(s, q, x, slots, dup), c.(lists := c.lists[q := [x]]);
    ListStepSum(s, c, s', c', live, live, q, x, Frame(0, slots));
    SoundParts(s, c, live);
    var objects := multiset(slots[..dup]);
    var e, e', h := Everything(s, c, live), Everything(s', c', live), Holds(s.frames, s.heads[q], c.lists[q]);
    if s.heads[q].addr == 0 {
      HandFacts(s, c, live, q, x);
      assert e' + h + multiset(live) == e + (h + multiset{x} + objects) + multiset(live);
      CancelFill(e, e', h, multiset{x}, objects, multiset(live));
      OnceMore(e, e + multiset{x}, x, s.nextObject);
      OnceUnion(e + multiset{x}, objects, s.nextObject);
    } else {
      assert e' + h + multiset(live) == e + (h + multiset{} + objects) + multiset(live);
      CancelFill(e, e', h, multiset{}, objects, multiset(live));
      assert e' == e + objects;
      OnceUnion(e, objects, s.nextObject);
    }
    ListStepSound(s, c, s', c', live, live, q, x, Frame(0, slots));
  }

  lemma {:induction false} FrameHere(s: Store, c: Chains, live: set<nat>, x: nat)
    requires Sound(s, c, live) && x in s.frames
    ensures 0 < x < s.nextObject && |s.frames[x].slots| == SLOTS
  {
    hide Linked, Items, Holds, ListOk, SumHolds, Once, Below, Everything, ListsOk;
  }
}
