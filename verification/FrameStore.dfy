/**
 Object allocation from frames of free addresses. The frames come from a free list of the same
 kind, and frames that run empty go back to it.
 */
module FrameStore {
  import opened FrameLists

  const FRAME := 67 // a frame in units of 8 bytes: next, prev, timestamp and the slots

  /** The whole store as a value. */
  datatype Store = Store(frames: Frames, free: Head, heads: seq<Head>, nextObject: nat)

  /** The chains behind the heads. */
  datatype Chains = Chains(free: seq<nat>, lists: seq<seq<nat>>)

  /** All frames in lists, all addresses in them, and the objects that are in use. */
  ghost function Everything(s: Store, c: Chains, live: set<nat>): multiset<nat>
    requires |s.heads| == |c.lists|
  {
    Holds(s.frames, s.free, c.free) + SumHolds(s.frames, s.heads, c.lists) + multiset(live)
  }

  /**
   The lists are sound, nothing is in two places, and no address lies beyond what was
   allocated. Once there are frames the free list is never without one.
   */
  ghost predicate Sound(s: Store, c: Chains, live: set<nat>) {
    && ListOk(s.frames, s.free, c.free) && ListsOk(s.frames, s.heads, c.lists)
    && Once(Everything(s, c, live)) && Below(Everything(s, c, live), s.nextObject) && s.nextObject > 0
    && (s.free.addr == 0 ==> s.frames == map[]) && AllFrames(s.frames, Holds(s.frames, s.free, c.free))
    && forall x | x in s.frames :: 0 < x < s.nextObject && |s.frames[x].slots| == SLOTS
  }

  ghost predicate AllFrames(frames: Frames, m: multiset<nat>) { forall x | x in m :: x in frames }

  ghost predicate Below(m: multiset<nat>, n: nat) { forall x | x in m :: 0 < x < n }

  /** A frame that is in no list: it was handed out. */
  ghost predicate InHand(s: Store, c: Chains, live: set<nat>, x: nat) {
    |s.heads| == |c.lists| && x in s.frames && x !in Everything(s, c, live)
  }

  /** The object lists have the same heads and chains and hold the same. */
  ghost predicate SameLists(s: Store, c: Chains, s': Store, c': Chains) {
    && s'.heads == s.heads && c'.lists == c.lists && |s.heads| == |c.lists|
    && forall i | 0 <= i < |s.heads| ::
         && Holds(s'.frames, s.heads[i], c.lists[i]) == Holds(s.frames, s.heads[i], c.lists[i])
         && Stock(s'.frames, s.heads[i], c.lists[i]) == Stock(s.frames, s.heads[i], c.lists[i])
  }

  // ---------- the free list changes ----------

  lemma {:induction false} FreeFrameApart(s: Store, c: Chains, live: set<nat>, x: nat)
    requires Sound(s, c, live) && (x in Holds(s.frames, s.free, c.free) || InHand(s, c, live, x))
    ensures forall i | 0 <= i < |c.lists| :: x !in c.lists[i]
  {
    hide Linked, Items, SumHolds;
    forall i | 0 <= i < |c.lists| ensures x !in c.lists[i] {
      SumHas(s.frames, s.heads, c.lists, i, x);
      assert Everything(s, c, live)[x] <= 1;
    }
  }

  /** A step on the free list that writes at most frame `x`: the other lists do not see it. */
  ghost predicate FreeStep(s: Store, c: Chains, s': Store, c': Chains, x: nat, f: Frame) {
    && s'.frames == s.frames[x := f] && s'.heads == s.heads && s'.nextObject == s.nextObject && c'.lists == c.lists
    && x in s.frames && |f.slots| == SLOTS && ListOk(s'.frames, s'.free, c'.free) && s'.free.addr != 0
  }

  lemma {:induction false} FreeStepOthers(s: Store, c: Chains, s': Store, c': Chains, live: set<nat>, x: nat, f: Frame)
    requires Sound(s, c, live) && FreeStep(s, c, s', c', x, f)
    requires forall i | 0 <= i < |c.lists| :: x !in c.lists[i]
    ensures ListsOk(s'.frames, s'.heads, c'.lists)
    ensures SumHolds(s'.frames, s'.heads, c'.lists) == SumHolds(s.frames, s.heads, c.lists) && SameLists(s, c, s', c')
  {
    hide Linked, Items, Holds, ListOk, SumHolds, Once, Below, Everything, Stock;
    forall i | 0 <= i < |s.heads|
      ensures ListOk(s'.frames, s.heads[i], c.lists[i])
      ensures Holds(s'.frames, s.heads[i], c.lists[i]) == Holds(s.frames, s.heads[i], c.lists[i])
      ensures Stock(s'.frames, s.heads[i], c.lists[i]) == Stock(s.frames, s.heads[i], c.lists[i])
    {
      OtherList(s.frames, s.heads[i], c.lists[i], x, f);
    }
    SumSame(s.frames, s'.frames, s.heads, c.lists);
  }

  /** The free list gains or loses one address, everything else stays. */
  lemma {:induction false} FreeStepSound(s: Store, c: Chains, s': Store, c': Chains, live: set<nat>, x: nat, f: Frame)
    requires Sound(s, c, live) && FreeStep(s, c, s', c', x, f)
    requires ListsOk(s'.frames, s'.heads, c'.lists)
    requires SumHolds(s'.frames, s'.heads, c'.lists) == SumHolds(s.frames, s.heads, c.lists)
    requires Once(Everything(s', c', live)) && Below(Everything(s', c', live), s.nextObject)
    requires AllFrames(s.frames, Holds(s'.frames, s'.free, c'.free))
    ensures Sound(s', c', live)
  {
    hide Linked, Items, Holds, ListOk, SumHolds, Once, Below, Everything;
  }

  lemma {:induction false} OnceLess(m: multiset<nat>, m': multiset<nat>, x: nat, n: nat)
    requires Once(m) && Below(m, n) && m == m' + multiset{x}
    ensures Once(m') && Below(m', n) && x !in m' && 0 < x < n
  {
    assert forall y :: m'[y] <= m[y];
    assert m[x] == m'[x] + 1;
    assert x in m;
  }

  lemma {:induction false} OnceMore(m: multiset<nat>, m': multiset<nat>, x: nat, n: nat)
    requires Once(m) && Below(m, n) && m' == m + multiset{x} && x !in m && 0 < x < n
    ensures Once(m') && Below(m', n)
  {
  }

  // ---------- returnFreeFrame ----------

  function ReturnedFrame(s: Store, x: nat): Store
    requires s.free.addr in s.frames && |s.frames[s.free.addr].slots| == SLOTS && s.free.nslot <= SLOTS && x in s.frames
  {
    if s.free.nslot < SLOTS then
      var f := s.frames[s.free.addr];
      s.(frames := s.frames[s.free.addr := f.(slots := f.slots[s.free.nslot := x])],
         free := Head(s.free.addr, s.free.nslot + 1))
    else
      s.(frames := s.frames[x := s.frames[x].(next := s.free.addr)], free := Head(x, 0))
  }

  ghost function ReturnedChains(s: Store, c: Chains, x: nat): Chains {
    if s.free.nslot < SLOTS then c else c.(free := [x] + c.free)
  }

  lemma {:induction false} FreeReady(s: Store, c: Chains, live: set<nat>)
    requires Sound(s, c, live) && s.frames != map[]
    ensures s.free.addr != 0 && s.free.addr in s.frames && |s.frames[s.free.addr].slots| == SLOTS && s.free.nslot <= SLOTS
    ensures s.free.addr in c.free && multiset(c.free)[s.free.addr] <= 1
    ensures ListOk(s.frames, s.free, c.free)
  {
    hide Items, SumHolds;
    HeadFrame(s.frames, s.free, c.free);
    assert Everything(s, c, live)[s.free.addr] <= 1;
  }

  lemma {:induction false} ReturnStep(s: Store, c: Chains, live: set<nat>, x: nat)
    requires Sound(s, c, live) && InHand(s, c, live, x)
    requires s.free.addr in s.frames && |s.frames[s.free.addr].slots| == SLOTS && s.free.nslot <= SLOTS
    ensures var s', c' := ReturnedFrame(s, x), ReturnedChains(s, c, x);
            && ListOk(s'.frames, s'.free, c'.free) && s'.free.addr != 0 && x != 0
            && Holds(s'.frames, s'.free, c'.free) == Holds(s.frames, s.free, c.free) + multiset{x}
  {
    hide Items, SumHolds, Linked;
    FreeReady(s, c, live);
    assert x !in c.free;
    if s.free.nslot < SLOTS {
      PutSlot(s.frames, s.free, c.free, x);
    } else {
      PushFrame(s.frames, s.free, c.free, x, s.frames[x].slots, 0);
      assert s.frames[x].slots[..0] == [];
      assert s.frames[x].(next := s.free.addr) == Frame(s.free.addr, s.frames[x].slots);
    }
  }

  /** A frame given back is held once more, and everything else is where it was. */
  lemma {:induction false} ReturnSound(s: Store, c: Chains, live: set<nat>, x: nat)
    requires Sound(s, c, live) && InHand(s, c, live, x)
    requires s.free.addr in s.frames && |s.frames[s.free.addr].slots| == SLOTS && s.free.nslot <= SLOTS
    ensures var s', c' := ReturnedFrame(s, x), ReturnedChains(s, c, x);
            && Sound(s', c', live) && Everything(s', c', live) == Everything(s, c, live) + multiset{x}
            && SameLists(s, c, s', c') && s'.nextObject == s.nextObject
  {
    hide Items, SumHolds, Linked, Holds, Once, Below, ListOk;
    var s', c' := ReturnedFrame(s, x), ReturnedChains(s, c, x);
    ReturnStep(s, c, live, x);
    FreeReady(s, c, live);
    var y := if s.free.nslot < SLOTS then s.free.addr else x;
    var f := s'.frames[y];
    assert s'.frames == s.frames[y := f];
    HeadHeld(s, c, live);
    FreeFrameApart(s, c, live, y);
    FreeStepOthers(s, c, s', c', live, y, f);
    OnceMore(Everything(s, c, live), Everything(s', c', live), x, s.nextObject);
    FreeStepSound(s, c, s', c', live, y, f);
  }

  lemma {:induction false} HeadHeld(s: Store, c: Chains, live: set<nat>)
    requires Sound(s, c, live) && s.frames != map[]
    ensures s.free.addr in Holds(s.frames, s.free, c.free)
  {
    hide Items, SumHolds, Linked, Once, Below;
    FreeReady(s, c, live);
  }

  // ---------- getFreeFrame ----------

  /** The free list has no frame to give: none at all, or only an empty one. */
  predicate FreeDry(s: Store) {
    s.free.addr == 0 || (s.free.nslot == 0 && s.free.addr in s.frames && s.frames[s.free.addr].next == 0)
  }

  /** What a dry free list holds: its empty head, if it has one. */
  lemma {:induction false} DryHolds(s: Store, c: Chains, live: set<nat>)
    requires Sound(s, c, live) && FreeDry(s)
    ensures Holds(s.frames, s.free, c.free) == if s.free.addr == 0 then multiset{} else multiset{s.free.addr}
  {
    hide SumHolds, Once, Below;
    if s.free.addr == 0 {
      EmptyList(s.frames, s.free, c.free);
    } else {
      HeadFrame(s.frames, s.free, c.free);
      assert c.free[1..] == [] && c.free == [s.free.addr];
    }
  }

  /** The frame taken: the last one noted in the head frame, or the empty head frame itself. */
  function TakenFrame(s: Store): nat
    requires s.free.addr in s.frames && |s.frames[s.free.addr].slots| == SLOTS && s.free.nslot <= SLOTS
  {
    if s.free.nslot > 0 then s.frames[s.free.addr].slots[s.free.nslot - 1]
    else if s.frames[s.free.addr].next == 0 then 0 else s.free.addr
  }

  function AfterTake(s: Store): Store
    requires s.free.addr in s.frames && |s.frames[s.free.addr].slots| == SLOTS && s.free.nslot <= SLOTS
  {
    if s.free.nslot > 0 then s.(free := Head(s.free.addr, s.free.nslot - 1))
    else if s.frames[s.free.addr].next == 0 then s
    else s.(free := Head(s.frames[s.free.addr].next, SLOTS))
  }

  ghost function ChainsAfterTake(s: Store, c: Chains): Chains
    requires s.free.addr in s.frames
  {
    if s.free.nslot > 0 || s.frames[s.free.addr].next == 0 || c.free == [] then c else c.(free := c.free[1..])
  }

  lemma {:induction false} TakeStep(s: Store, c: Chains, live: set<nat>)
    requires Sound(s, c, live) && s.frames != map[]
    requires s.free.addr in s.frames && |s.frames[s.free.addr].slots| == SLOTS && s.free.nslot <= SLOTS
    requires TakenFrame(s) != 0
    ensures var s', c', x := AfterTake(s), ChainsAfterTake(s, c), TakenFrame(s);
            && ListOk(s'.frames, s'.free, c'.free) && s'.free.addr != 0
            && Holds(s.frames, s.free, c.free) == Holds(s'.frames, s'.free, c'.free) + multiset{x}
  {
    hide Items, SumHolds, Linked, Holds, ListOk, Once, Below;
    FreeReady(s, c, live);
    if s.free.nslot > 0 {
      TakeSlot(s.frames, s.free, c.free);
    } else {
      PopFrame(s.frames, s.free, c.free);
    }
  }

  lemma {:induction false} TakeSound(s: Store, c: Chains, live: set<nat>)
    requires Sound(s, c, live) && s.frames != map[]
    requires s.free.addr in s.frames && |s.frames[s.free.addr].slots| == SLOTS && s.free.nslot <= SLOTS
    requires TakenFrame(s) != 0
    ensures var s', c', x := AfterTake(s), ChainsAfterTake(s, c), TakenFrame(s);
            && Sound(s', c', live) && Everything(s, c, live) == Everything(s', c', live) + multiset{x} && x in s'.frames
            && x !in Everything(s', c', live) && SameLists(s, c, s', c')
  {
    hide Items, SumHolds, Linked, Holds, ListOk, Once, Below, ListsOk, Stock;
    var s', c', x := AfterTake(s), ChainsAfterTake(s, c), TakenFrame(s);
    TakeStep(s, c, live);
    SameLength(s.frames, s.heads, c.lists);
    OnceLess(Everything(s, c, live), Everything(s', c', live), x, s.nextObject);
  }

  lemma {:induction false} SameLength(frames: Frames, heads: seq<Head>, chains: seq<seq<nat>>)
    requires ListsOk(frames, heads, chains)
    ensures |heads| == |chains|
  {
  }
}
