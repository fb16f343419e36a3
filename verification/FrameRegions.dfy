/** The memory behind the addresses: frames and objects lie apart from each other. */
module FrameRegions {
  import opened FrameLists
  import opened FrameStore
  import opened FrameAlloc
  import opened FrameFill

  /** The units of every object that was ever made, by its address. */
  type Blocks = map<nat, nat>

  /** Two regions of `m` and `n` units have no unit in common. */
  predicate Clear(x: nat, m: nat, y: nat, n: nat) { x + m <= y || y + n <= x }

  /** Frames and objects take up separate regions below `n`. */
  ghost predicate Apart(frames: set<nat>, blocks: Blocks, n: nat) {
    && (forall x, y | x in frames && y in frames && x != y :: Clear(x, FRAME, y, FRAME))
    && (forall x, y | x in frames && y in blocks :: Clear(x, FRAME, y, blocks[y]))
    && (forall x, y | x in blocks && y in blocks && x != y :: Clear(x, blocks[x], y, blocks[y]))
    && (forall x | x in frames :: x + FRAME <= n) && forall x | x in blocks :: blocks[x] > 0 && x + blocks[x] <= n
  }

  /** All regions are apart, and every live or stocked address begins an object. */
  ghost predicate Placed(s: Store, c: Chains, live: set<nat>, blocks: Blocks) {
    && |s.heads| == |c.lists| && Apart(s.frames.Keys, blocks, s.nextObject) && live <= blocks.Keys
    && forall i, y | 0 <= i < |s.heads| && y in Stock(s.frames, s.heads[i], c.lists[i]) :: y in blocks
  }

  /** No object changes its place or size. */
  ghost predicate Extended(blocks: Blocks, blocks': Blocks) {
    forall y | y in blocks :: y in blocks' && blocks'[y] == blocks[y]
  }

  lemma {:induction false} NothingPlaced(s: Store, c: Chains)
    requires s.frames == map[] && |s.heads| == |c.lists|
    requires forall i | 0 <= i < |s.heads| :: Stock(s.frames, s.heads[i], c.lists[i]) == multiset{}
    ensures Placed(s, c, {}, map[])
  {
    hide Stock;
  }

  lemma {:induction false} Known(s: Store, c: Chains, live: set<nat>, blocks: Blocks, q: nat)
    requires Placed(s, c, live, blocks) && q < |s.heads|
    ensures |s.heads| == |c.lists| && live <= blocks.Keys
    ensures forall y | y in Stock(s.frames, s.heads[q], c.lists[q]) :: y in blocks
  {
    hide Stock, Apart;
  }

  /** A step within the frames there are, on lists that stay. */
  lemma {:induction false} PlacedSame(s: Store, c: Chains, s': Store, c': Chains, live: set<nat>, blocks: Blocks)
    requires Placed(s, c, live, blocks) && SameLists(s, c, s', c')
    requires s'.frames.Keys == s.frames.Keys && s'.nextObject >= s.nextObject
    ensures Placed(s', c', live, blocks)
  {
    hide Stock, Holds;
  }

  /** A step within the frames there are, on one list. */
  lemma {:induction false} PlacedList(
      s: Store, c: Chains, s': Store, c': Chains, q: nat, live: set<nat>, live': set<nat>, blocks: Blocks)
    requires Placed(s, c, live, blocks) && OthersSame(s, c, s', c', q) && q < |s'.heads| == |c'.lists|
    requires s'.frames.Keys == s.frames.Keys && s'.nextObject == s.nextObject && live' <= blocks.Keys
    requires forall y | y in Stock(s'.frames, s'.heads[q], c'.lists[q]) :: y in blocks
    ensures Placed(s', c', live', blocks)
  {
    hide Stock, Apart;
  }

  lemma {:induction false} InBlockApart(base: nat, x: nat, y: nat)
    requires InBlock(base, x) && InBlock(base, y) && x != y
    ensures Clear(x, FRAME, y, FRAME)
  {
  }

  lemma {:induction false} InBlockInside(base: nat, x: nat)
    requires InBlock(base, x)
    ensures base <= x && x + FRAME <= base + FRAME * (SLOTS + 1)
  {
  }

  /** A block of new frames behind everything. */
  lemma {:induction false} PlacedFrames(s: Store, c: Chains, s': Store, c': Chains, live: set<nat>, blocks: Blocks)
    requires Placed(s, c, live, blocks) && SameLists(s, c, s', c') && FreshFrames(s, s', s.nextObject)
    ensures Placed(s', c', live, blocks)
  {
    hide Stock, Holds, FrameSlots, InBlock;
    var base := s.nextObject;
    forall x | x in s'.frames && x !in s.frames ensures base <= x && x + FRAME <= s'.nextObject { InBlockInside(base, x); }
    forall x, y | x in s'.frames && y in s'.frames && x != y ensures Clear(x, FRAME, y, FRAME) {
      if x !in s.frames && y !in s.frames { InBlockApart(base, x, y); }
    }
  }

  /** The objects there were and new ones of `unit` units. */
  ghost function WithObjects(blocks: Blocks, m: set<nat>, unit: nat): (blocks': Blocks)
    ensures forall y | y in m :: y in blocks' && blocks'[y] == unit
  {
    map y | y in blocks.Keys + m :: if y in m then unit else blocks[y]
  }

  /** The addresses of `dup` new objects from `base` on. */
  ghost function Objects(base: nat, unit: nat, dup: nat): set<nat> { set x | x in ObjectSlots(base, unit, dup) }

  ghost predicate AllClear(m: set<nat>, unit: nat) { forall x, y | x in m && y in m && x != y :: Clear(x, unit, y, unit) }

  /** The new objects lie one behind the other in their region. */
  lemma {:induction false} ObjectsClear(base: nat, unit: nat, dup: nat)
    requires unit > 0
    ensures var m := Objects(base, unit, dup);
            AllClear(m, unit) && forall x | x in m :: base <= x && x + unit <= base + Extent(unit, dup)
  {
    hide Extent, ObjectSlots;
    var r := ObjectSlots(base, unit, dup);
    forall x | x in r ensures base <= x && x + unit <= base + Extent(unit, dup) {
      var i: nat :| i < |r| && r[i] == x;
      ObjectInside(base, unit, dup, i);
    }
    forall x, y | x in r && y in r && x != y ensures Clear(x, unit, y, unit) {
      var i: nat, j: nat :| i < |r| && j < |r| && r[i] == x && r[j] == y;
      if i < j { ObjectsApart(base, unit, dup, i, j); } else { ObjectsApart(base, unit, dup, j, i); }
    }
  }

  lemma {:induction false} ApartMore(frames: set<nat>, blocks: Blocks, n: nat, m: set<nat>, unit: nat, n': nat)
    requires Apart(frames, blocks, n) && unit > 0 && n' >= n
    requires AllClear(m, unit) && forall x | x in m :: n <= x && x + unit <= n'
    ensures var blocks' := WithObjects(blocks, m, unit); Apart(frames, blocks', n') && Extended(blocks, blocks')
  {
  }

  /** New objects behind everything. */
  lemma {:induction false} PlacedObjects(
      s: Store, c: Chains, s': Store, live: set<nat>, blocks: Blocks, unit: nat, dup: nat)
    requires Placed(s, c, live, blocks) && unit > 0
    requires s' == s.(nextObject := s.nextObject + Extent(unit, dup))
    ensures var blocks' := WithObjects(blocks, Objects(s.nextObject, unit, dup), unit);
            Placed(s', c, live, blocks') && Extended(blocks, blocks')
  {
    hide Stock, Extent, Objects, Apart, AllClear, WithObjects;
    ObjectsClear(s.nextObject, unit, dup);
    ApartMore(s.frames.Keys, blocks, s.nextObject, Objects(s.nextObject, unit, dup), unit, s'.nextObject);
  }

  lemma {:induction false} ObjectInside(base: nat, unit: nat, dup: nat, k: nat)
    requires unit > 0 && k < dup
    ensures base <= ObjectSlots(base, unit, dup)[k] && ObjectSlots(base, unit, dup)[k] + unit <= base + Extent(unit, dup)
  {
    Multiples(unit, dup - 1 - k, dup);
  }

  /** A live object has its block for itself. */
  lemma {:induction false} OwnBlock(s: Store, c: Chains, live: set<nat>, blocks: Blocks, x: nat)
    requires Placed(s, c, live, blocks) && x in live
    ensures x in blocks && x + blocks[x] <= s.nextObject
    ensures forall y | y in blocks && y != x :: Clear(x, blocks[x], y, blocks[y])
    ensures forall y | y in s.frames :: Clear(x, blocks[x], y, FRAME)
  {
    hide Stock;
  }
}
