/** Allocating and freeing objects through the frames, over any run of calls. */
module FrameAlloc {
  import opened FrameLists
  import opened FrameStore

  // ---------- a step on one object list ----------

  /** List `q` changes, and at most frame `x` is written; `x` belonged to the list or to no one. */
  ghost predicate ListStep(s: Store, c: Chains, s': Store, c': Chains, q: nat, x: nat, f: Frame) {
    && q < |s.heads| && |s.heads| == |c.lists| && x in s.frames && |f.slots| == SLOTS
    && s'.frames == s.frames[x := f] && s'.free == s.free && s'.nextObject == s.nextObject && c'.free == c.free
    && |s'.heads| == |s.heads| && |c'.lists| == |c.lists|
    && s'.heads == s.heads[q := s'.heads[q]] && c'.lists == c.lists[q := c'.lists[q]]
    && ListOk(s'.frames, s'.heads[q], c'.lists[q])
  }

  /** The frame is in no list but `q`, and not in the free list. */
  ghost predicate OnlyIn(c: Chains, q: nat, x: nat) {
    x !in c.free && forall i | 0 <= i < |c.lists| && i != q :: x !in c.lists[i]
  }

  lemma {:induction false} OwnFrame(s: Store, c: Chains, live: set<nat>, q: nat, x: nat)
    requires Sound(s, c, live) && q < |s.heads| && (x in c.lists[q] || InHand(s, c, live, x))
    ensures OnlyIn(c, q, x)
  {
    hide Linked, Items, SumHolds, ListOk, Stock;
    if x in c.lists[q] {
      assert x in Holds(s.frames, s.heads[q], c.lists[q]);
      SumHas(s.frames, s.heads, c.lists, q, x);
      assert Everything(s, c, live)[x] <= 1;
      OnceSum(s, c, live);
      OthersLack(s.frames, s.heads, c.lists, q, x);
    } else {
      FreeFrameApart(s, c, live, x);
    }
  }

  lemma {:induction false} OnceSum(s: Store, c: Chains, live: set<nat>)
    requires |s.heads| == |c.lists| && Once(Everything(s, c, live))
    ensures Once(SumHolds(s.frames, s.heads, c.lists))
  {
    hide Holds, SumHolds;
    assert forall x :: SumHolds(s.frames, s.heads, c.lists)[x] <= Everything(s, c, live)[x];
  }

  /** What the other lists and the free list do not see. */
  lemma {:induction false} ListStepOthers(s: Store, c: Chains, s': Store, c': Chains, live: set<nat>, q: nat, x: nat, f: Frame)
    requires Sound(s, c, live) && ListStep(s, c, s', c', q, x, f) && OnlyIn(c, q, x)
    ensures ListOk(s'.frames, s'.free, c'.free) && Holds(s'.frames, s'.free, c'.free) == Holds(s.frames, s.free, c.free)
    ensures ListsOk(s'.frames, s'.heads, c'.lists)
    ensures forall i | 0 <= i < |s.heads| && i != q ::
              && s'.heads[i] == s.heads[i] && c'.lists[i] == c.lists[i]
              && Holds(s'.frames, s.heads[i], c.lists[i]) == Holds(s.frames, s.heads[i], c.lists[i])
              && Stock(s'.frames, s.heads[i], c.lists[i]) == Stock(s.frames, s.heads[i], c.lists[i])
  {
    hide Linked, Items, Holds, ListOk, SumHolds, Once, Below, Everything, Stock, AllFrames;
    OtherList(s.frames, s.free, c.free, x, f);
    forall i | 0 <= i < |s.heads| && i != q
      ensures ListOk(s'.frames, s.heads[i], c.lists[i])
      ensures Holds(s'.frames, s.heads[i], c.lists[i]) == Holds(s.frames, s.heads[i], c.lists[i])
      ensures Stock(s'.frames, s.heads[i], c.lists[i]) == Stock(s.frames, s.heads[i], c.lists[i])
    {
      OtherList(s.frames, s.heads[i], c.lists[i], x, f);
    }
  }

  /** The other lists hold and stock what they did. */
  ghost predicate OthersSame(s: Store, c: Chains, s': Store, c': Chains, q: nat) {
    && |s.heads| == |c.lists| == |s'.heads| == |c'.lists|
    && forall i | 0 <= i < |s.heads| && i != q ::
         Stock(s'.frames, s'.heads[i], c'.lists[i]) == Stock(s.frames, s.heads[i], c.lists[i])
  }

  /** The whole changes by what the list and the live objects change by. */
  lemma {:induction false} ListStepSum(
      s: Store, c: Chains, s': Store, c': Chains, live: set<nat>, live': set<nat>, q: nat, x: nat, f: Frame)
    requires Sound(s, c, live) && ListStep(s, c, s', c', q, x, f) && OnlyIn(c, q, x)
    ensures |s'.heads| == |c'.lists| && OthersSame(s, c, s', c', q)
    ensures Everything(s', c', live') + Holds(s.frames, s.heads[q], c.lists[q]) + multiset(live)
         == Everything(s, c, live) + Holds(s'.frames, s'.heads[q], c'.lists[q]) + multiset(live')
  {
    hide Linked, Items, Holds, ListOk, SumHolds, Once, Below, Stock, Sound;
    ListStepOthers(s, c, s', c', live, q, x, f);
    SumUpdate(s.frames, s'.frames, s.heads, c.lists, q, s'.heads[q], c'.lists[q]);
    Recount(Holds(s.frames, s.free, c.free), SumHolds(s.frames, s.heads, c.lists),
            SumHolds(s'.frames, s'.heads, c'.lists), Holds(s.frames, s.heads[q], c.lists[q]),
            Holds(s'.frames, s'.heads[q], c'.lists[q]), multiset(live), multiset(live'));
  }

  lemma {:induction false} Recount(
      a: multiset<nat>, b: multiset<nat>, b': multiset<nat>, h: multiset<nat>, h': multiset<nat>, l: multiset<nat>, l': multiset<nat>)
    requires b' + h == b + h'
    ensures (a + b' + l') + h + l == (a + b + l) + h' + l'
  {
    forall x ensures ((a + b' + l') + h + l)[x] == ((a + b + l) + h' + l')[x] {
      assert (b' + h)[x] == (b + h')[x];
    }
  }

  lemma {:induction false} ListStepSound(
      s: Store, c: Chains, s': Store, c': Chains, live: set<nat>, live': set<nat>, q: nat, x: nat, f: Frame)
    requires Sound(s, c, live) && ListStep(s, c, s', c', q, x, f) && OnlyIn(c, q, x)
    requires |s'.heads| == |c'.lists| && Once(Everything(s', c', live')) && Below(Everything(s', c', live'), s.nextObject)
    ensures Sound(s', c', live')
  {
    hide Linked, Items, Holds, ListOk, SumHolds, Once, Below, Stock, Everything, ListsOk;
    ListStepOthers(s, c, s', c', live, q, x, f);
  }

  // ---------- freeing: an address goes into the list ----------

  lemma {:induction false} LiveLess(live: set<nat>, x: nat)
    requires x in live
    ensures multiset(live) == multiset(live - {x}) + multiset{x}
  {
    assert live == (live - {x}) + {x};
  }

  lemma {:induction false} LiveMore(live: set<nat>, x: nat)
    requires x !in live
    ensures multiset(live + {x}) == multiset(live) + multiset{x}
  {
  }

  lemma {:induction false} CancelSame(e: multiset<nat>, e': multiset<nat>, h: multiset<nat>, l: multiset<nat>, x: nat)
    requires e' + h + (l + multiset{x}) == e + (h + multiset{x}) + l
    ensures e' == e
  {
    forall y ensures e'[y] == e[y] {
      assert (e' + h + (l + multiset{x}))[y] == (e + (h + multiset{x}) + l)[y];
    }
  }

  /** addSlotToFrame with room in the head frame. */
  function WithSlot(s: Store, q: nat, x: nat): Store
    requires q < |s.heads| && s.heads[q].addr in s.frames && |s.frames[s.heads[q].addr].slots| == SLOTS
    requires s.heads[q].nslot < SLOTS
  {
    var h := s.heads[q];
    var f := s.frames[h.addr];
    s.(frames := s.frames[h.addr := f.(slots := f.slots[h.nslot := x])], heads := s.heads[q := Head(h.addr, h.nslot + 1)])
  }

  lemma {:induction false} ListFacts(s: Store, c: Chains, live: set<nat>, q: nat)
    requires Sound(s, c, live) && q < |s.heads|
    ensures |s.heads| == |c.lists| && ListOk(s.frames, s.heads[q], c.lists[q]) && s.heads[q].nslot <= SLOTS
    ensures s.heads[q].addr != 0 ==>
              && s.heads[q].addr in s.frames && |s.frames[s.heads[q].addr].slots| == SLOTS
              && s.heads[q].addr in c.lists[q] && multiset(c.lists[q])[s.heads[q].addr] <= 1
  {
    hide Items, SumHolds, Below;
    if s.heads[q].addr != 0 {
      HeadFrame(s.frames, s.heads[q], c.lists[q]);
      SumHas(s.frames, s.heads, c.lists, q, s.heads[q].addr);
      assert Everything(s, c, live)[s.heads[q].addr] <= 1;
    }
  }

  /** The freed address moves from the live objects into the list; nothing else moves. */
  lemma {:induction false} PutSound(s: Store, c: Chains, live: set<nat>, q: nat, x: nat)
    requires Sound(s, c, live) && q < |s.heads| && x in live
    requires s.heads[q].addr != 0 && s.heads[q].addr in s.frames && |s.frames[s.heads[q].addr].slots| == SLOTS
    requires s.heads[q].nslot < SLOTS
    ensures var s' := WithSlot(s, q, x);
            && Sound(s', c, live - {x}) && |s'.heads| == |c.lists| == |s.heads| && OthersSame(s, c, s', c, q)
            && Stock(s'.frames, s'.heads[q], c.lists[q]) == Stock(s.frames, s.heads[q], c.lists[q]) + multiset{x}
            && Everything(s', c, live - {x}) == Everything(s, c, live)
  {
    hide Linked, Items, Holds, ListOk, SumHolds, Once, Below, Stock, Everything, Sound, OnlyIn;
    var s', live' := WithSlot(s, q, x), live - {x};
    var h := s.heads[q];
    ListFacts(s, c, live, q);
    PutSlot(s.frames, h, c.lists[q], x);
    OwnFrame(s, c, live, q, h.addr);
    var f := s'.frames[h.addr];
    ListStepSum(s, c, s', c, live, live', q, h.addr, f);
    LiveLess(live, x);
    CancelSame(Everything(s, c, live), Everything(s', c, live'), Holds(s.frames, h, c.lists[q]), multiset(live'), x);
    SoundParts(s, c, live);
    ListStepSound(s, c, s', c, live, live', q, h.addr, f);
  }

  lemma {:induction false} SoundParts(s: Store, c: Chains, live: set<nat>)
    requires Sound(s, c, live)
    ensures |s.heads| == |c.lists| && Once(Everything(s, c, live)) && Below(Everything(s, c, live), s.nextObject)
  {
    hide Linked, Items, Holds, ListOk, SumHolds, Once, Below, Stock, Everything;
  }

  /** addSlotToFrame with a new frame `x` before the full one. */
  function WithFrame(s: Store, q: nat, x: nat, addr: nat): Store
    requires q < |s.heads| && x in s.frames && |s.frames[x].slots| == SLOTS
  {
    s.(frames := s.frames[x := Frame(s.heads[q].addr, s.frames[x].slots[0 := addr])], heads := s.heads[q := Head(x, 1)])
  }

  lemma {:induction false} CancelFrame(e: multiset<nat>, e': multiset<nat>, h: multiset<nat>, l: multiset<nat>, x: nat, y: nat)
    requires e' + h + (l + multiset{y}) == e + (h + multiset{x} + multiset{y}) + l
    ensures e' == e + multiset{x}
  {
    forall z ensures e'[z] == (e + multiset{x})[z] {
      assert (e' + h + (l + multiset{y}))[z] == (e + (h + multiset{x} + multiset{y}) + l)[z];
    }
  }

  lemma {:induction false} PushSound(s: Store, c: Chains, live: set<nat>, q: nat, x: nat, addr: nat)
    requires Sound(s, c, live) && q < |s.heads| && addr in live && InHand(s, c, live, x)
    requires (s.heads[q].addr == 0 || s.heads[q].nslot == SLOTS) && x in s.frames && |s.frames[x].slots| == SLOTS
    ensures |c.lists| == |s.heads|
    ensures var s', c' := WithFrame(s, q, x, addr), c.(lists := c.lists[q := [x] + c.lists[q]]);
            && Sound(s', c', live - {addr}) && OthersSame(s, c, s', c', q)
            && Stock(s'.frames, s'.heads[q], c'.lists[q]) == Stock(s.frames, s.heads[q], c.lists[q]) + multiset{addr}
            && Everything(s', c', live - {addr}) == Everything(s, c, live) + multiset{x}
  {
    hide Linked, Items, Holds, ListOk, SumHolds, Once, Below, Stock, Everything, Sound, OnlyIn, InHand;
    SoundParts(s, c, live);
    var s', c', live' := WithFrame(s, q, x, addr), c.(lists := c.lists[q := [x] + c.lists[q]]), live - {addr};
    var h := s.heads[q];
    ListFacts(s, c, live, q);
    OwnFrame(s, c, live, q, x);
    HandFacts(s, c, live, q, x);
    var slots := s.frames[x].slots[0 := addr];
    assert slots[..1] == [addr];
    PushFrame(s.frames, h, c.lists[q], x, slots, 1);
    ListStepSum(s, c, s', c', live, live', q, x, s'.frames[x]);
    LiveLess(live, addr);
    CancelFrame(Everything(s, c, live), Everything(s', c', live'), Holds(s.frames, h, c.lists[q]), multiset(live'), x, addr);
    OnceMore(Everything(s, c, live), Everything(s', c', live'), x, s.nextObject);
    ListStepSound(s, c, s', c', live, live', q, x, s'.frames[x]);
  }

  lemma {:induction false} HandFacts(s: Store, c: Chains, live: set<nat>, q: nat, x: nat)
    requires Sound(s, c, live) && InHand(s, c, live, x) && q < |s.heads|
    ensures x in s.frames && 0 < x < s.nextObject && x !in Everything(s, c, live) && |s.heads| == |c.lists| && x !in c.lists[q]
  {
    hide Linked, Items, ListOk, SumHolds, Once, Below, Stock;
    SumHas(s.frames, s.heads, c.lists, q, x);
  }

  // ---------- allocating: an address leaves the list ----------

  function WithoutSlot(s: Store, q: nat): Store
    requires q < |s.heads| && s.heads[q].nslot > 0
  {
    s.(heads := s.heads[q := Head(s.heads[q].addr, s.heads[q].nslot - 1)])
  }

  lemma {:induction false} CancelTake(e: multiset<nat>, e': multiset<nat>, h: multiset<nat>, h': multiset<nat>,
                                      l: multiset<nat>, x: nat)
    requires h == h' + multiset{x} && e' + h + l == e + h' + (l + multiset{x})
    ensures e' == e
  {
    forall y ensures e'[y] == e[y] {
      assert (e' + h + l)[y] == (e + h' + (l + multiset{x}))[y];
    }
  }

  /** An address from the list was not live, and is now; nothing else moves. */
  lemma {:induction false} TakeObject(s: Store, c: Chains, live: set<nat>, q: nat)
    requires Sound(s, c, live) && q < |s.heads| && s.heads[q].addr != 0 && s.heads[q].nslot > 0
    requires s.heads[q].addr in s.frames && |s.frames[s.heads[q].addr].slots| == SLOTS && s.heads[q].nslot <= SLOTS
    ensures var s', x := WithoutSlot(s, q), s.frames[s.heads[q].addr].slots[s.heads[q].nslot - 1];
            && x !in live && x != 0 && Sound(s', c, live + {x}) && |s'.heads| == |c.lists| == |s.heads|
            && OthersSame(s, c, s', c, q)
            && Stock(s.frames, s.heads[q], c.lists[q]) == Stock(s'.frames, s'.heads[q], c.lists[q]) + multiset{x}
            && Everything(s', c, live + {x}) == Everything(s, c, live)
  {
    hide Linked, Items, Holds, ListOk, SumHolds, Once, Below, Stock, Everything, Sound, OnlyIn;
    var s', x := WithoutSlot(s, q), s.frames[s.heads[q].addr].slots[s.heads[q].nslot - 1];
    var h := s.heads[q];
    ListFacts(s, c, live, q);
    TakeSlot(s.frames, h, c.lists[q]);
    OwnFrame(s, c, live, q, h.addr);
    StockNotLive(s, c, live, q, x);
    assert s.frames[h.addr := s.frames[h.addr]] == s.frames;
    ListStepSum(s, c, s', c, live, live + {x}, q, h.addr, s.frames[h.addr]);
    LiveMore(live, x);
    CancelTake(Everything(s, c, live), Everything(s', c, live + {x}), Holds(s.frames, h, c.lists[q]),
               Holds(s'.frames, s'.heads[q], c.lists[q]), multiset(live), x);
    SoundParts(s, c, live);
    ListStepSound(s, c, s', c, live, live + {x}, q, h.addr, s.frames[h.addr]);
  }

  lemma {:induction false} StockNotLive(s: Store, c: Chains, live: set<nat>, q: nat, x: nat)
    requires Sound(s, c, live) && q < |s.heads| && |s.heads| == |c.lists| && x in Holds(s.frames, s.heads[q], c.lists[q])
    ensures x !in live && x > 0
  {
    hide Linked, Items, Holds, ListOk, SumHolds, Stock;
    SumHas(s.frames, s.heads, c.lists, q, x);
    assert Everything(s, c, live)[x] <= 1 && x in Everything(s, c, live);
  }

  /** The empty head frame taken off the list: it is in hand then. */
  function WithoutFrame(s: Store, q: nat): Store
    requires q < |s.heads| && s.heads[q].addr in s.frames
  {
    s.(heads := s.heads[q := Head(s.frames[s.heads[q].addr].next, SLOTS)])
  }

  lemma {:induction false} CancelDrop(e: multiset<nat>, e': multiset<nat>, h: multiset<nat>, h': multiset<nat>,
                                      l: multiset<nat>, x: nat)
    requires h == h' + multiset{x} && e' + h + l == e + h' + l
    ensures e == e' + multiset{x}
  {
    forall y ensures e[y] == (e' + multiset{x})[y] {
      assert (e' + h + l)[y] == (e + h' + l)[y];
    }
  }

  lemma {:induction false} DropFrame(s: Store, c: Chains, live: set<nat>, q: nat)
    requires Sound(s, c, live) && q < |s.heads| && s.heads[q].addr != 0 && s.heads[q].nslot == 0
    requires s.heads[q].addr in s.frames && |s.frames[s.heads[q].addr].slots| == SLOTS
    ensures |s.heads| == |c.lists| && c.lists[q] != []
    ensures var s', c', x := WithoutFrame(s, q), c.(lists := c.lists[q := c.lists[q][1..]]), s.heads[q].addr;
            && Sound(s', c', live) && InHand(s', c', live, x) && OthersSame(s, c, s', c', q)
            && Stock(s'.frames, s'.heads[q], c'.lists[q]) == Stock(s.frames, s.heads[q], c.lists[q])
            && Everything(s, c, live) == Everything(s', c', live) + multiset{x}
  {
    hide Linked, Items, Holds, ListOk, SumHolds, Once, Below, Stock, Everything, Sound, OnlyIn;
    var h := s.heads[q];
    ListFacts(s, c, live, q);
    PopFrame(s.frames, h, c.lists[q]);
    var s', c' := WithoutFrame(s, q), c.(lists := c.lists[q := c.lists[q][1..]]);
    OwnFrame(s, c, live, q, h.addr);
    assert s.frames[h.addr := s.frames[h.addr]] == s.frames;
    ListStepSum(s, c, s', c', live, live, q, h.addr, s.frames[h.addr]);
    CancelDrop(Everything(s, c, live), Everything(s', c', live), Holds(s.frames, h, c.lists[q]),
               Holds(s'.frames, s'.heads[q], c'.lists[q]), multiset(live), h.addr);
    SoundParts(s, c, live);
    OnceLess(Everything(s, c, live), Everything(s', c', live), h.addr, s.nextObject);
    ListStepSound(s, c, s', c', live, live, q, h.addr, s.frames[h.addr]);
  }
}
