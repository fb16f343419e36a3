/** The allocator: frames and objects by number of 8-byte units, with the free lists behind it. */
module FrameAllocator {
  import opened FrameLists
  import opened FrameStore
  import opened FrameAlloc
  import opened FrameFill
  import opened FrameRegions

  /** How many objects a frame is filled with, by the total size. */
  function Batch(size: nat): (dup: nat)
    ensures 0 < dup <= SLOTS
  {
    if size * SLOTS > 4096 * 4096 then SLOTS / 32
    else if size * SLOTS > 1024 * 1024 then SLOTS / 8
    else if size * SLOTS > 256 * 256 then SLOTS / 2
    else SLOTS
  }

  lemma {:induction false} BlockFrame(base: nat, k: nat)
    requires k <= SLOTS
    ensures base <= base + FRAME * k < base + FRAME * (SLOTS + 1) && InBlock(base, base + FRAME * k)
  {
  }

  // ---------- what the methods below string together ----------

  lemma {:induction false} NothingHeld(frames: Frames, heads: seq<Head>, chains: seq<seq<nat>>)
    requires frames == map[] && |heads| == |chains|
    requires forall i | 0 <= i < |heads| :: heads[i] == Head(0, 0) && chains[i] == []
    ensures ListsOk(frames, heads, chains) && SumHolds(frames, heads, chains) == multiset{}
    ensures forall i | 0 <= i < |heads| :: Stock(frames, heads[i], chains[i]) == multiset{}
  {
    if heads != [] { NothingHeld(frames, heads[..|heads| - 1], chains[..|heads| - 1]); }
  }

  lemma {:induction false} NothingSound(s: Store, c: Chains)
    requires s.frames == map[] && s.free == Head(0, 0) && c.free == [] && s.nextObject == 1 && |s.heads| == |c.lists|
    requires forall i | 0 <= i < |s.heads| :: s.heads[i] == Head(0, 0) && c.lists[i] == []
    ensures Sound(s, c, {})
  {
    NothingHeld(s.frames, s.heads, c.lists);
    assert Everything(s, c, {}) == multiset{};
  }

  lemma {:induction false} SoundPos(s: Store, c: Chains, live: set<nat>)
    requires Sound(s, c, live)
    ensures s.nextObject > 0 && |s.heads| == |c.lists| && Below(Everything(s, c, live), s.nextObject)
    ensures forall x | x in s.frames :: 0 < x < s.nextObject
  {
    hide ListOk, SumHolds, Once, Below, Everything, Holds, AllFrames;
  }

  lemma {:induction false} SlotsAre(base: nat, slots: seq<nat>)
    requires |slots| == SLOTS && forall i | 0 <= i < SLOTS :: slots[i] == base + FRAME * (SLOTS - i)
    ensures slots == FrameSlots(base)
  {
  }

  lemma {:induction false} FreshAre(s: Store, s': Store, all: Frames)
    requires s.nextObject > 0 && forall x | x in s.frames :: x < s.nextObject
    requires s'.nextObject == s.nextObject + FRAME * (SLOTS + 1) && s'.heads == s.heads
    requires s'.frames == all[s.nextObject := Frame(0, FrameSlots(s.nextObject))] && s'.free == Head(s.nextObject, SLOTS)
    requires forall x | x in s.frames :: x in all && all[x] == s.frames[x]
    requires forall x | x in all && x !in s.frames :: s.nextObject <= x < s'.nextObject && |all[x].slots| == SLOTS
    requires forall x | x in all && x !in s.frames :: InBlock(s.nextObject, x)
    requires forall i: nat | 1 <= i <= SLOTS :: s.nextObject + FRAME * i in all
    ensures FreshFrames(s, s', s.nextObject)
  {
    hide FrameSlots, InBlock;
    BlockFrame(s.nextObject, 0);
  }

  lemma {:induction false} ListsSelf(s: Store, c: Chains, live: set<nat>)
    requires Sound(s, c, live)
    ensures SameLists(s, c, s, c) && Grown(s, c, s, c, live)
  {
    hide Linked, Items, Holds, ListOk, SumHolds, Once, Below, Stock, Everything;
  }

  lemma {:induction false} FramesThere(s: Store, c: Chains, live: set<nat>)
    requires Sound(s, c, live) && s.free.addr != 0
    ensures s.frames != map[]
  {
    hide Items, SumHolds, Once, Below;
    HeadFrame(s.frames, s.free, c.free);
  }

  lemma {:induction false} TakenNonzero(s: Store, c: Chains, live: set<nat>)
    requires Sound(s, c, live) && s.frames != map[] && s.free.nslot > 0
    requires s.free.addr in s.frames && |s.frames[s.free.addr].slots| == SLOTS && s.free.nslot <= SLOTS
    ensures TakenFrame(s) != 0
  {
    hide Linked, Items, SumHolds, Once, Stock, ListOk;
    FreeReady(s, c, live);
    TakeSlot(s.frames, s.free, c.free);
    assert TakenFrame(s) in Everything(s, c, live);
  }

  lemma {:induction false} HandIs(s: Store, c: Chains, s': Store, c': Chains, live: set<nat>, x: nat)
    requires Sound(s', c', live) && SameLists(s, c, s', c') && s'.frames == s.frames && s'.nextObject == s.nextObject
    requires Everything(s, c, live) == Everything(s', c', live) + multiset{x}
    requires x in s'.frames && x !in Everything(s', c', live)
    ensures InHand(s', c', live, x) && Grown(s, c, s', c', live)
  {
    hide Sound, Everything, Holds, Stock;
  }

  lemma {:induction false} SameListsTrans(s: Store, c: Chains, s1: Store, c1: Chains, s2: Store, c2: Chains)
    requires SameLists(s, c, s1, c1) && SameLists(s1, c1, s2, c2)
    ensures SameLists(s, c, s2, c2)
  {
    hide Holds, Stock;
  }

  lemma {:induction false} GrownTrans(
      s: Store, c: Chains, s1: Store, c1: Chains, s2: Store, c2: Chains, live: set<nat>)
    requires Grown(s, c, s1, c1, live) && Grown(s1, c1, s2, c2, live)
    ensures Grown(s, c, s2, c2, live)
  {
    hide Everything;
  }

  lemma {:induction false} HandFrame(s: Store, c: Chains, live: set<nat>, x: nat)
    requires Sound(s, c, live) && InHand(s, c, live, x)
    ensures x in s.frames && |s.frames[x].slots| == SLOTS && x != 0 && s.frames != map[] && |s.heads| == |c.lists|
  {
    hide Everything, ListOk, ListsOk, Holds, Once, Below;
  }

  /** Writing a frame that is in hand changes no list. */
  lemma {:induction false} WriteHand(s: Store, c: Chains, s': Store, live: set<nat>, x: nat)
    requires Sound(s, c, live) && InHand(s, c, live, x) && x in s.frames && |s.frames[x].slots| == SLOTS
    requires s' == s.(frames := s.frames[x := s.frames[x].(next := 0)])
    ensures Sound(s', c, live) && InHand(s', c, live, x) && SameLists(s, c, s', c) && Grown(s, c, s', c, live)
    ensures |s.heads| == |c.lists| && Everything(s', c, live) == Everything(s, c, live)
  {
    hide Linked, Items, Holds, ListOk, SumHolds, Once, Below, Stock;
    FreeFrameApart(s, c, live, x);
    HandNotFree(s, c, live, x);
    OtherList(s.frames, s.free, c.free, x, s'.frames[x]);
    NonemptyFree(s, c, live, x);
    FreeStepOthers(s, c, s', c, live, x, s'.frames[x]);
  }

  /** The head of the free list after allocFrame, as long as the head frame has frames noted in it. */
  predicate HeadAfter(s: Store, s': Store) {
    var n := if FreeDry(s) then SLOTS else s.free.nslot;
    n > 0 ==>
      && s'.free == Head(if FreeDry(s) then s.nextObject else s.free.addr, n - 1) && s'.free.addr in s'.frames
      && (FreeDry(s) || (s.free.addr in s.frames && s.frames[s.free.addr].next == 0) ==> s'.frames[s'.free.addr].next == 0)
  }

  /** The frame handed out is not the head, so writing it leaves the head alone. */
  lemma {:induction false} HeadKept(s0: Store, s: Store, c: Chains, s': Store, live: set<nat>, x: nat)
    requires Sound(s, c, live) && InHand(s, c, live, x) && x in s.frames
    requires s' == s.(frames := s.frames[x := s.frames[x].(next := 0)])
    requires var n := if FreeDry(s0) then SLOTS else s0.free.nslot;
             n > 0 ==> s.free == Head(if FreeDry(s0) then s0.nextObject else s0.free.addr, n - 1)
    requires FreeDry(s0) || s.frames == s0.frames
    requires FreeDry(s0) ==> s.free.addr in s.frames && s.frames[s.free.addr].next == 0
    ensures HeadAfter(s0, s')
  {
    hide Linked, Items, SumHolds, Once, Below, ListOk, ListsOk, Everything, Holds;
    FreeReady(s, c, live);
  }

  lemma {:induction false} HandNotFree(s: Store, c: Chains, live: set<nat>, x: nat)
    requires InHand(s, c, live, x)
    ensures x !in c.free
  {
    hide Items, SumHolds;
  }

  lemma {:induction false} NonemptyFree(s: Store, c: Chains, live: set<nat>, x: nat)
    requires Sound(s, c, live) && x in s.frames
    ensures s.free.addr != 0
  {
    hide Everything, ListOk, ListsOk, Holds, Once, Below;
  }

  lemma {:induction false} ListsAre(s: Store, c: Chains, s': Store, c': Chains)
    requires SameLists(s, c, s', c')
    ensures s'.heads == s.heads && c'.lists == c.lists && |s.heads| == |c.lists|
    ensures forall i | 0 <= i < |s.heads| ::
              Stock(s'.frames, s'.heads[i], c'.lists[i]) == Stock(s.frames, s.heads[i], c.lists[i])
  {
    hide Holds, Stock;
  }

  lemma {:induction false} OthersAre(s: Store, c: Chains, s': Store, c': Chains, q: nat)
    requires OthersSame(s, c, s', c', q)
    ensures |s.heads| == |c.lists| == |s'.heads| == |c'.lists|
    ensures forall i | 0 <= i < |s.heads| && i != q ::
              Stock(s'.frames, s'.heads[i], c'.lists[i]) == Stock(s.frames, s.heads[i], c.lists[i])
  {
    hide Stock;
  }

  lemma {:induction false} DryIf(s: Store, q: nat)
    requires q < |s.heads|
    requires s.heads[q].addr == 0 || (s.heads[q].addr in s.frames && s.heads[q].nslot == 0 && s.frames[s.heads[q].addr].next == 0)
    ensures Dry(s, q)
  {
  }

  lemma {:induction false} DryFacts(s: Store, c: Chains, live: set<nat>, q: nat)
    requires Sound(s, c, live) && q < |s.heads| && Dry(s, q)
    ensures s.heads[q].addr != 0 ==>
              && s.heads[q].addr in s.frames && |s.frames[s.heads[q].addr].slots| == SLOTS && s.heads[q].nslot == 0
              && s.frames[s.heads[q].addr].next == 0 && |s.heads| == |c.lists| && s.heads[q].addr in Everything(s, c, live)
  {
    hide Items, SumHolds, Once, Below, Linked, Stock;
    ListFacts(s, c, live, q);
    if s.heads[q].addr != 0 { SumHas(s.frames, s.heads, c.lists, q, s.heads[q].addr); }
  }

  /** A region taken before the store grew is untouched by what it grew by. */
  lemma {:induction false} RegionIsNew(
      s: Store, c: Chains, s': Store, c': Chains, live: set<nat>, x: nat, base: nat, objects: multiset<nat>)
    requires |s.heads| == |c.lists| && Below(Everything(s, c, live), base) && (forall y | y in s.frames :: y < base) && Grown(s, c, s', c', live)
    requires 0 < base <= s.nextObject && Once(objects) && forall y | y in objects :: base <= y < s.nextObject
    requires x in s'.frames
    ensures NewObjects(s', c', live, x, objects)
  {
    hide Everything, Once;
  }

  /** The loop of initFreeFrame over a block of new frames. */
  method NoteFrames(frames: Frames, base: nat) returns (all: Frames, slots: seq<nat>)
    requires forall x | x in frames :: x < base
    ensures slots == FrameSlots(base)
    ensures forall x | x in frames :: x in all && all[x] == frames[x]
    ensures forall x | x in all && x !in frames :: base <= x < base + FRAME * (SLOTS + 1) && |all[x].slots| == SLOTS
    ensures forall x | x in all && x !in frames :: InBlock(base, x)
    ensures forall i: nat | 1 <= i <= SLOTS :: base + FRAME * i in all
  {
    hide InBlock;
    slots, all := seq(SLOTS, _ => 0), frames;
    var k := 0;
    while k < SLOTS
      invariant 0 <= k <= SLOTS && |slots| == SLOTS
      invariant forall i | SLOTS - k <= i < SLOTS :: slots[i] == base + FRAME * (SLOTS - i)
      invariant forall x | x in frames :: x in all && all[x] == frames[x]
      invariant forall x | x in all && x !in frames :: base <= x < base + FRAME * (SLOTS + 1) && |all[x].slots| == SLOTS
      invariant forall x | x in all && x !in frames :: InBlock(base, x)
      invariant forall i: nat | 1 <= i <= k :: base + FRAME * i in all
    {
      BlockFrame(base, k + 1);
      slots := slots[SLOTS - 1 - k := base + FRAME * (k + 1)];
      all := all[base + FRAME * (k + 1) := Frame(0, seq(SLOTS, _ => 0))];
      k := k + 1;
    }
    SlotsAre(base, slots);
  }

  /** The loop of initObjFrame over the new objects. */
  method NoteObjects(before: seq<nat>, base: nat, unit: nat, dup: nat) returns (slots: seq<nat>)
    requires |before| == SLOTS && dup <= SLOTS
    ensures |slots| == SLOTS && slots[..dup] == ObjectSlots(base, unit, dup)
  {
    slots := before;
    var k := 0;
    while k < dup
      invariant 0 <= k <= dup && |slots| == SLOTS
      invariant forall i | dup - k <= i < dup :: slots[i] == base + Extent(unit, dup - 1 - i)
    {
      slots := slots[dup - 1 - k := base + Extent(unit, k)];
      k := k + 1;
    }
    ObjectsAre(base, unit, dup, slots);
  }

  class Allocator {
    var frames: Frames
    var free: Head
    var heads: seq<Head>
    var nextObject: nat
    ghost var c: Chains
    ghost var live: set<nat> // the objects handed out and not freed
    ghost var blocks: Blocks // the units of every object made

    function S(): Store
      reads this
    {
      Store(frames, free, heads, nextObject)
    }

    ghost predicate Ok()
      reads this
    {
      |heads| == |c.lists| && Sound(S(), c, live) && Placed(S(), c, live, blocks)
    }

    /** All frames in lists, all addresses in them, and the objects in use. */
    ghost function All(): multiset<nat>
      requires |heads| == |c.lists|
      reads this
    {
      Everything(S(), c, live)
    }

    /** What the free list holds. */
    ghost function FreeHolds(): multiset<nat>
      reads this
    {
      Holds(frames, free, c.free)
    }

    /** The free addresses of object list `q`. */
    ghost function StockOf(q: nat): multiset<nat>
      requires q < |heads| == |c.lists|
      reads this
    {
      Stock(frames, heads[q], c.lists[q])
    }

    /** All addresses in list `q` begin objects of so many units. */
    ghost predicate OfUnits(q: nat, units: nat)
      requires q < |heads| == |c.lists|
      reads this
    {
      forall y | y in StockOf(q) :: y in blocks && blocks[y] == units
    }

    /** `n` object lists, all empty; address 0 is never handed out. */
    constructor (n: nat)
      ensures Ok() && |heads| == |c.lists| == n && live == {} && forall q: nat | q < n :: StockOf(q) == multiset{}
      ensures free.addr == 0 && nextObject > 0
    {
      hide Sound, Stock;
      frames, free, nextObject := map[], Head(0, 0), 1;
      heads := seq(n, _ => Head(0, 0));
      c := Chains([], seq(n, _ => []));
      live, blocks := {}, map[];
      new;
      NothingHeld(frames, heads, c.lists);
      NothingSound(S(), c);
      NothingPlaced(S(), c);
    }

    /** initFreeFrame: a block of new frames, all but the first noted in the first. */
    method InitFreeFrame()
      requires Ok()
      modifies this`frames, this`free, this`nextObject, this`c
      ensures Ok() && SameLists(old(S()), old(c), S(), c) && Grown(old(S()), old(c), S(), c, live)
      ensures free == Head(old(nextObject), SLOTS) && free.addr != 0 && free.addr in frames && frames[free.addr].next == 0
      ensures All() + old(FreeHolds()) == old(All()) + Block(old(nextObject))
    {
      hide Sound, SameLists, Grown, FrameSlots, FreshFrames, Below, Everything, Holds, Block, Placed, InBlock, ListOk, SumHolds;
      ghost var s0 := S();
      SoundPos(s0, c, live);
      var base := nextObject;
      nextObject := nextObject + FRAME * (SLOTS + 1);
      var all, slots := NoteFrames(frames, base);
      frames := all[base := Frame(0, slots)];
      free := Head(base, SLOTS);
      FreshAre(s0, S(), all);
      FreshSound(s0, c, S(), live);
      PlacedFrames(s0, c, S(), c.(free := [base]), live, blocks);
      c := c.(free := [base]);
    }

    /** getFreeFrame: a frame of the free list, or 0. */
    method GetFreeFrame() returns (x: nat)
      requires Ok()
      modifies this`free, this`c
      ensures Ok() && SameLists(old(S()), old(c), S(), c) && Grown(old(S()), old(c), S(), c, live)
      ensures x == 0 <==> FreeDry(old(S()))
      ensures x == 0 ==> S() == old(S()) && c == old(c)
      ensures x != 0 ==> InHand(S(), c, live, x) && old(All()) == All() + multiset{x}
      ensures x != 0 && old(free.nslot) > 0 ==> free == Head(old(free.addr), old(free.nslot) - 1)
    {
      hide Sound, SameLists, InHand, Grown, Everything, Placed;
      ListsSelf(S(), c, live);
      if free.addr == 0 {
        return 0;
      }
      FramesThere(S(), c, live);
      FreeReady(S(), c, live);
      ghost var s0, c0 := S(), c;
      var f := frames[free.addr];
      if free.nslot > 0 {
        x := f.slots[free.nslot - 1];
        TakenNonzero(s0, c0, live);
        TakeSound(s0, c0, live);
        free := Head(free.addr, free.nslot - 1);
      } else if f.next == 0 {
        return 0;
      } else {
        x := free.addr;
        TakeSound(s0, c0, live);
        free := Head(f.next, SLOTS);
        c := ChainsAfterTake(s0, c0);
      }
      assert S() == AfterTake(s0) && c == ChainsAfterTake(s0, c0);
      HandIs(s0, c0, S(), c, live, x);
      PlacedSame(s0, c0, S(), c, live, blocks);
    }

    /** allocFrame: a frame that is in no list. */
    method AllocFrame() returns (x: nat)
      requires Ok()
      modifies this`frames, this`free, this`nextObject, this`c
      ensures Ok() && SameLists(old(S()), old(c), S(), c) && Grown(old(S()), old(c), S(), c, live)
      ensures InHand(S(), c, live, x)
      ensures All() + multiset{x} + Dropped(old(S())) == old(All()) + NewBlock(old(S()))
      ensures (exists y :: Lost(old(All()), All(), x, y)) <==> FreeDry(old(S())) && old(free.addr) != 0
      ensures forall y | Lost(old(All()), All(), x, y) :: y == old(free.addr)
      ensures HeadAfter(old(S()), S())
    {
      hide Sound, SameLists, InHand, Grown, Everything, Holds, Lost, Block, HeadAfter, Placed;
      ghost var s0, c0 := S(), c;
      x := GetFreeFrame();
      if x == 0 {
        ghost var s1, c1 := S(), c;
        InitFreeFrame();
        ghost var s2, c2 := S(), c;
        SameListsTrans(s0, c0, s1, c1, s2, c2);
        GrownTrans(s0, c0, s1, c1, s2, c2, live);
        DryHolds(s0, c0, live);
        x := GetFreeFrame();
        SameListsTrans(s0, c0, s2, c2, S(), c);
        GrownTrans(s0, c0, s2, c2, S(), c, live);
      }
      HandFrame(S(), c, live, x);
      ghost var s3 := S();
      frames := frames[x := frames[x].(next := 0)];
      WriteHand(s3, c, S(), live, x);
      PlacedSame(s3, c, S(), c, live, blocks);
      LostExactly(s0, c0, S(), c, live, x);
      HeadKept(s0, s3, c, S(), live, x);
      SameListsTrans(s0, c0, s3, c, S(), c);
      GrownTrans(s0, c0, s3, c, S(), c, live);
    }

    /** returnFreeFrame: an emptied frame goes back to the free list. */
    method ReturnFreeFrame(x: nat)
      requires Ok() && InHand(S(), c, live, x)
      modifies this`frames, this`free, this`c
      ensures Ok() && SameLists(old(S()), old(c), S(), c) && All() == old(All()) + multiset{x}
    {
      hide Sound, SameLists, InHand, Everything, Placed;
      ghost var s0, c0 := S(), c;
      HandFrame(s0, c0, live, x);
      FreeReady(s0, c0, live);
      ReturnSound(s0, c0, live, x);
      if free.nslot < SLOTS {
        var f := frames[free.addr];
        frames := frames[free.addr := f.(slots := f.slots[free.nslot := x])];
        free := Head(free.addr, free.nslot + 1);
      } else {
        frames := frames[x := frames[x].(next := free.addr)];
        free := Head(x, 0);
      }
      c := ReturnedChains(s0, c0, x);
      assert S() == ReturnedFrame(s0, x);
      PlacedSame(s0, c0, S(), c, live, blocks);
    }

    /** addSlotToFrame: frees an object; its address goes into list `q`. */
    method AddSlotToFrame(q: nat, addr: nat)
      requires Ok() && q < |heads| == |c.lists| && addr in live
      modifies this
      ensures Ok() && live == old(live) - {addr} && |heads| == |c.lists| == old(|heads|) && blocks == old(blocks)
      ensures StockOf(q) == old(StockOf(q)) + multiset{addr}
      ensures forall u: nat | old(OfUnits(q, u)) && addr in blocks && blocks[addr] == u :: OfUnits(q, u)
      ensures forall i | 0 <= i < |heads| && i != q :: StockOf(i) == old(StockOf(i))
      ensures if old(heads[q].addr) != 0 && old(heads[q].nslot) < SLOTS then All() == old(All())
              else All() + Dropped(old(S())) == old(All()) + NewBlock(old(S()))
    {
      hide Sound, SameLists, InHand, OthersSame, Stock, Grown, Everything, Lost, Block, HeadAfter, Dropped, NewBlock, Placed;
      ListFacts(S(), c, live, q);
      Known(S(), c, live, blocks, q);
      ghost var s0, c0, live0 := S(), c, live;
      if heads[q].addr != 0 && heads[q].nslot < SLOTS {
        var h := heads[q];
        var f := frames[h.addr];
        PutSound(s0, c0, live0, q, addr);
        OthersAre(s0, c0, WithSlot(s0, q, addr), c0, q);
        frames := frames[h.addr := f.(slots := f.slots[h.nslot := addr])];
        heads := heads[q := Head(h.addr, h.nslot + 1)];
        live := live - {addr};
        assert S() == WithSlot(s0, q, addr);
        PlacedList(s0, c0, S(), c, q, live0, live, blocks);
        return;
      }
      var x := AllocFrame();
      ghost var s1, c1 := S(), c;
      ListsAre(s0, c0, s1, c1);
      HandFrame(s1, c1, live, x);
      PushSound(s1, c1, live0, q, x, addr);
      frames := frames[x := Frame(heads[q].addr, frames[x].slots[0 := addr])];
      heads := heads[q := Head(x, 1)];
      c := c.(lists := c.lists[q := [x] + c.lists[q]]);
      live := live - {addr};
      assert S() == WithFrame(s1, q, x, addr);
      OthersAre(s1, c1, S(), c, q);
      PlacedList(s1, c1, S(), c, q, live0, live, blocks);
    }

    /** getNodeFromFrame: an address from list `q`, or 0 when it has run dry. */
    method GetNodeFromFrame(q: nat) returns (x: nat)
      requires Ok() && q < |heads| == |c.lists|
      modifies this
      ensures Ok() && |heads| == |c.lists| == old(|heads|)
      ensures x == 0 ==> live == old(live) && Dry(S(), q) && old(StockOf(q)) == StockOf(q) == multiset{}
      ensures x != 0 ==> x !in old(live) && live == old(live) + {x} && old(StockOf(q)) == StockOf(q) + multiset{x}
      ensures forall i | 0 <= i < |heads| && i != q :: StockOf(i) == old(StockOf(i))
      ensures All() == old(All()) && blocks == old(blocks)
    {
      hide Sound, SameLists, InHand, OthersSame, Stock, Dry, Everything, Placed;
      ghost var s0, c0, live0 := S(), c, live;
      while true
        invariant Ok() && |heads| == |c.lists| == |s0.heads| && live == live0 && All() == old(All()) && blocks == old(blocks)
        invariant Stock(frames, heads[q], c.lists[q]) == Stock(s0.frames, s0.heads[q], c0.lists[q])
        invariant forall i | 0 <= i < |heads| && i != q ::
                    Stock(frames, heads[i], c.lists[i]) == Stock(s0.frames, s0.heads[i], c0.lists[i])
        decreases |c.lists[q]|
      {
        ghost var s1, c1 := S(), c;
        ListFacts(s1, c1, live0, q);
        Known(s1, c1, live0, blocks, q);
        if heads[q].addr == 0 {
          DryIf(s1, q);
          DryList(s1, c1, live0, q);
          return 0;
        }
        var f := frames[heads[q].addr];
        if heads[q].nslot > 0 {
          x := f.slots[heads[q].nslot - 1];
          TakeObject(s1, c1, live0, q);
          OthersAre(s1, c1, WithoutSlot(s1, q), c1, q);
          heads := heads[q := Head(heads[q].addr, heads[q].nslot - 1)];
          live := live + {x};
          assert S() == WithoutSlot(s1, q);
          assert x in Stock(s1.frames, s1.heads[q], c1.lists[q]);
          PlacedList(s1, c1, S(), c, q, live0, live, blocks);
          return;
        }
        if f.next == 0 {
          DryIf(s1, q);
          DryList(s1, c1, live0, q);
          return 0;
        }
        var slot := heads[q].addr;
        DropFrame(s1, c1, live0, q);
        heads := heads[q := Head(f.next, SLOTS)];
        c := c.(lists := c.lists[q := c.lists[q][1..]]);
        ghost var s2, c2 := S(), c;
        assert s2 == WithoutFrame(s1, q);
        OthersAre(s1, c1, s2, c2, q);
        PlacedList(s1, c1, s2, c2, q, live0, live0, blocks);
        ReturnFreeFrame(slot);
        ListsAre(s2, c2, S(), c);
      }
    }

    /** The frame to fill for a dry list: its own empty one, or a new one. */
    method FrameFor(q: nat) returns (x: nat)
      requires Ok() && q < |heads| == |c.lists| && Dry(S(), q)
      modifies this`frames, this`free, this`nextObject, this`c
      ensures Ok() && SameLists(old(S()), old(c), S(), c) && Grown(old(S()), old(c), S(), c, live)
      ensures Dry(S(), q) && x in frames
      ensures if heads[q].addr == 0 then InHand(S(), c, live, x) else x == heads[q].addr
    {
      hide Sound, SameLists, InHand, Stock, Dry, Grown, Everything, Placed;
      ghost var s0, c0 := S(), c;
      DryFacts(s0, c0, live, q);
      ListsSelf(s0, c0, live);
      x := heads[q].addr;
      if x == 0 {
        x := AllocFrame();
        HandFrame(S(), c, live, x);
      }
      ListsAre(s0, c0, S(), c);
      DryIf(S(), q);
    }

    /** Room for `dup` new objects of `unit` units each. */
    method NewRegion(unit: nat, dup: nat) returns (base: nat)
      requires Ok() && unit > 0
      modifies this`nextObject, this`blocks
      ensures Ok() && 0 < base == old(nextObject) <= nextObject && |heads| == |c.lists|
      ensures Below(All(), base) && forall y | y in frames :: y < base
      ensures Extended(old(blocks), blocks)
      ensures var m := multiset(ObjectSlots(base, unit, dup));
              Once(m) && forall y | y in m :: base <= y < nextObject && y in blocks && blocks[y] == unit
    {
      hide Sound, ObjectSlots, Below, Everything, Once, Extent, Placed, Extended, WithObjects;
      ghost var s0 := S();
      base := nextObject;
      SoundPos(s0, c, live);
      ObjectsOnce(base, unit, dup);
      nextObject := nextObject + Extent(unit, dup);
      BumpSound(s0, c, live, nextObject);
      PlacedObjects(s0, c, S(), live, blocks, unit, dup);
      blocks := WithObjects(blocks, Objects(base, unit, dup), unit);
    }

    /** initObjFrame: fills the dry list with new objects of `size` bytes. */
    method InitObjFrame(q: nat, size: nat)
      requires Ok() && q < |heads| == |c.lists| && Dry(S(), q) && size % 8 == 0 && size > 0
      modifies this
      ensures Ok() && |heads| == |c.lists| == old(|heads|) && live == old(live)
      ensures StockOf(q) == multiset(ObjectSlots(old(nextObject), size / 8, Batch(size)))
      ensures Extended(old(blocks), blocks) && OfUnits(q, size / 8)
      ensures forall i | 0 <= i < |heads| && i != q :: StockOf(i) == old(StockOf(i))
    {
      hide Sound, SameLists, InHand, OthersSame, Stock, Dry, ObjectSlots, Batch, Below, Everything, Grown, NewObjects;
      hide Once, Extent, FrameSlots, Holds, SumHolds, ListOk, ListsOk, Linked, Items, Placed, Extended, WithObjects;
      ghost var s0, c0 := S(), c;
      var dup, unit := Batch(size), size / 8;
      var base := NewRegion(unit, dup);
      ghost var s1 := S();
      DrySame(s0, s1, q);
      var x := FrameFor(q);
      ghost var s2, c2 := S(), c;
      ListsAre(s1, c0, s2, c2);
      FrameHere(s2, c2, live, x);
      Known(s2, c2, live, blocks, q);
      var slots := NoteObjects(frames[x].slots, base, unit, dup);
      RegionIsNew(s1, c0, s2, c2, live, x, base, multiset(slots[..dup]));
      FillSound(s2, c2, live, q, x, slots, dup);
      frames := frames[x := Frame(0, slots)];
      heads := heads[q := Head(x, dup)];
      c := c.(lists := c.lists[q := [x]]);
      assert S() == Filled(s2, q, x, slots, dup);
      OthersAre(s2, c2, S(), c, q);
      assert frames.Keys == s2.frames.Keys;
      assert Stock(frames, heads[q], c.lists[q]) == multiset(slots[..dup]);
      PlacedList(s2, c2, S(), c, q, live, live, blocks);
    }

    /**
     allocObj: an object that nobody else has, with a block for itself. Its block is large enough for
     `size` bytes if the list is used for objects of this size only.
     */
    method AllocObj(q: nat, size: nat) returns (x: nat)
      requires Ok() && q < |heads| == |c.lists| && size > 0
      modifies this
      ensures Ok() && |heads| == |c.lists| == old(|heads|)
      ensures x != 0 && x !in old(live) && live == old(live) + {x}
      ensures forall i | 0 <= i < |heads| && i != q :: StockOf(i) == old(StockOf(i))
      ensures Extended(old(blocks), blocks) && x in blocks && x + blocks[x] <= nextObject
      ensures forall y | y in old(live) :: y in blocks && Clear(x, blocks[x], y, blocks[y])
      ensures forall y | y in frames :: Clear(x, blocks[x], y, FRAME)
      ensures forall u: nat | old(OfUnits(q, u)) && size <= 8 * u < size + 8 :: OfUnits(q, u) && blocks[x] == u
    {
      hide Sound, Stock, Dry, ObjectSlots, Batch, Placed, Everything, Clear, Holds, Linked, ListOk, Items, SumHolds;
      var rounded := (size + 7) / 8 * 8;
      RoundedUp(size);
      Known(S(), c, live, blocks, q);
      x := GetNodeFromFrame(q);
      if x == 0 {
        ghost var base := nextObject;
        InitObjFrame(q, rounded);
        SomeObjects(base, rounded / 8, Batch(rounded));
        x := GetNodeFromFrame(q);
      }
      OwnBlock(S(), c, live, blocks, x);
      Known(S(), c, live, blocks, q);
    }
  }

  /** After one block of frames and as many calls of allocFrame as it has, the next call loses the head. */
  method DrainFrames(n: nat) returns (a: Allocator)
    ensures fresh(a) && a.Ok() && FreeDry(a.S()) && a.free.addr != 0
  {
    hide Sound, SameLists, Grown, Everything, Block, Lost;
    a := new Allocator(n);
    var x := a.AllocFrame();
    var i := 1;
    while i < SLOTS
      invariant a.Ok() && 1 <= i <= SLOTS && fresh(a)
      invariant a.free.addr in a.frames && a.free.addr != 0 && a.free.nslot == SLOTS - i && a.frames[a.free.addr].next == 0
    {
      x := a.AllocFrame();
      i := i + 1;
    }
  }

  /** Sizes go up to the next whole unit. */
  lemma {:induction false} RoundedUp(size: nat)
    requires size > 0
    ensures var rounded := (size + 7) / 8 * 8;
            && rounded > 0 && rounded % 8 == 0 && size <= 8 * (rounded / 8) < size + 8
            && forall u: nat | size <= 8 * u < size + 8 :: u == rounded / 8
  {
  }

  lemma {:induction false} SomeObjects(base: nat, unit: nat, dup: nat)
    requires dup > 0
    ensures multiset(ObjectSlots(base, unit, dup)) != multiset{}
  {
    assert ObjectSlots(base, unit, dup)[0] in multiset(ObjectSlots(base, unit, dup));
  }

  lemma {:induction false} ObjectsAre(base: nat, unit: nat, dup: nat, slots: seq<nat>)
    requires dup <= |slots| && forall i | 0 <= i < dup :: slots[i] == base + Extent(unit, dup - 1 - i)
    ensures slots[..dup] == ObjectSlots(base, unit, dup)
  {
  }

  lemma {:induction false} DrySame(s: Store, s': Store, q: nat)
    requires q < |s.heads| && Dry(s, q) && s'.heads == s.heads && s'.frames == s.frames
    ensures Dry(s', q)
  {
  }
}
