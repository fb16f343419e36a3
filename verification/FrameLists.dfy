/** Lists of free addresses kept in linked frames: what a list holds, and how single steps change it. */
module FrameLists {

  const SLOTS := 64

  datatype Frame = Frame(next: nat, slots: seq<nat>)

  /** The head of a list: its first frame and how many slots of that frame are in use. */
  datatype Head = Head(addr: nat, nslot: nat)

  type Frames = map<nat, Frame>

  /** The frames of a list, from the head on. */
  ghost predicate Linked(frames: Frames, ch: seq<nat>) {
    ch == [] ||
    (ch[0] != 0 && ch[0] in frames && |frames[ch[0]].slots| == SLOTS
     && frames[ch[0]].next == (if |ch| == 1 then 0 else ch[1]) && Linked(frames, ch[1..]))
  }

  ghost predicate ListOk(frames: Frames, h: Head, ch: seq<nat>) {
    h.addr == (if ch == [] then 0 else ch[0]) && h.nslot <= SLOTS && Linked(frames, ch)
  }

  /** The addresses in the slots: `n` of the first frame, all of every other frame. */
  ghost function Items(frames: Frames, ch: seq<nat>, n: nat): seq<nat> {
    if ch == [] then [] else
      (if ch[0] in frames && n <= |frames[ch[0]].slots| then frames[ch[0]].slots[..n] else [])
      + Items(frames, ch[1..], SLOTS)
  }

  /** The free addresses of a list. */
  ghost function Stock(frames: Frames, h: Head, ch: seq<nat>): multiset<nat> {
    multiset(Items(frames, ch, h.nslot))
  }

  /** All that a list holds: its frames and the addresses in them. */
  ghost function Holds(frames: Frames, h: Head, ch: seq<nat>): multiset<nat> {
    multiset(ch) + Stock(frames, h, ch)
  }

  ghost predicate Once(m: multiset<nat>) { forall x :: m[x] <= 1 }

  /** A frame that is not part of a list does not matter to it. */
  lemma {:induction false} OtherFrame(frames: Frames, ch: seq<nat>, n: nat, x: nat, f: Frame)
    requires x !in ch
    ensures Items(frames[x := f], ch, n) == Items(frames, ch, n)
    ensures Linked(frames, ch) ==> Linked(frames[x := f], ch)
  {
    if ch != [] {
      assert x != ch[0] && x !in ch[1..];
      OtherFrame(frames, ch[1..], SLOTS, x, f);
    }
  }

  lemma {:induction false} OtherList(frames: Frames, h: Head, ch: seq<nat>, x: nat, f: Frame)
    requires ListOk(frames, h, ch) && x !in ch
    ensures ListOk(frames[x := f], h, ch) && Holds(frames[x := f], h, ch) == Holds(frames, h, ch)
    ensures Stock(frames[x := f], h, ch) == Stock(frames, h, ch)
  {
    hide Linked, Items;
    OtherFrame(frames, ch, h.nslot, x, f);
  }

  /** More frames do not matter to a list. */
  lemma {:induction false} MoreFrames(frames: Frames, more: Frames, ch: seq<nat>, n: nat)
    requires Linked(frames, ch) && forall x | x in frames :: x in more && more[x] == frames[x]
    ensures Linked(more, ch) && Items(more, ch, n) == Items(frames, ch, n)
  {
    if ch != [] { MoreFrames(frames, more, ch[1..], SLOTS); }
  }

  lemma {:induction false} HeadFirst(ch: seq<nat>)
    requires ch != [] && multiset(ch)[ch[0]] <= 1
    ensures ch[0] !in ch[1..]
  {
    assert ch == [ch[0]] + ch[1..];
  }

  lemma {:induction false} HeadFrame(frames: Frames, h: Head, ch: seq<nat>)
    requires ListOk(frames, h, ch) && h.addr != 0
    ensures ch != [] && ch[0] == h.addr && h.addr in frames && |frames[h.addr].slots| == SLOTS
    ensures frames[h.addr].next == (if |ch| == 1 then 0 else ch[1]) && Linked(frames, ch[1..])
    ensures multiset(ch) == multiset{h.addr} + multiset(ch[1..])
    ensures Items(frames, ch, h.nslot) == frames[h.addr].slots[..h.nslot] + Items(frames, ch[1..], SLOTS)
  {
    assert ch == [ch[0]] + ch[1..];
  }

  lemma {:induction false} EmptyList(frames: Frames, h: Head, ch: seq<nat>)
    requires ListOk(frames, h, ch) && h.addr == 0
    ensures ch == [] && Holds(frames, h, ch) == multiset{}
  {
  }

  lemma {:induction false} PutItem(frames: Frames, ch: seq<nat>, n: nat, x: nat)
    requires Linked(frames, ch) && ch != [] && n < SLOTS && ch[0] !in ch[1..]
    ensures var f := frames[ch[0]];
            var frames' := frames[ch[0] := f.(slots := f.slots[n := x])];
            Linked(frames', ch) && multiset(Items(frames', ch, n + 1)) == multiset(Items(frames, ch, n)) + multiset{x}
  {
    var f := frames[ch[0]];
    var f' := f.(slots := f.slots[n := x]);
    OtherFrame(frames, ch[1..], SLOTS, ch[0], f');
    assert f'.slots[..n + 1] == f.slots[..n] + [x];
  }

  /** One more address in the frame at the head. */
  lemma {:induction false} PutSlot(frames: Frames, h: Head, ch: seq<nat>, x: nat)
    requires ListOk(frames, h, ch) && h.addr != 0 && h.nslot < SLOTS && multiset(ch)[h.addr] <= 1
    requires h.addr in frames && |frames[h.addr].slots| == SLOTS
    ensures var f := frames[h.addr];
            var frames', h' := frames[h.addr := f.(slots := f.slots[h.nslot := x])], Head(h.addr, h.nslot + 1);
            && ListOk(frames', h', ch) && Holds(frames', h', ch) == Holds(frames, h, ch) + multiset{x}
            && Stock(frames', h', ch) == Stock(frames, h, ch) + multiset{x}
  {
    hide Linked, Items;
    HeadFrame(frames, h, ch);
    HeadFirst(ch);
    PutItem(frames, ch, h.nslot, x);
  }

  /** The last address taken from the frame at the head. */
  lemma {:induction false} TakeSlot(frames: Frames, h: Head, ch: seq<nat>)
    requires ListOk(frames, h, ch) && h.addr != 0 && h.nslot > 0
    requires h.addr in frames && |frames[h.addr].slots| == SLOTS
    ensures var x, h' := frames[h.addr].slots[h.nslot - 1], Head(h.addr, h.nslot - 1);
            && ListOk(frames, h', ch) && Holds(frames, h, ch) == Holds(frames, h', ch) + multiset{x}
            && Stock(frames, h, ch) == Stock(frames, h', ch) + multiset{x}
  {
    HeadFrame(frames, h, ch);
    var s := frames[h.addr].slots;
    assert s[..h.nslot] == s[..h.nslot - 1] + [s[h.nslot - 1]];
  }

  /** A new frame before a full one. */
  lemma {:induction false} PushFrame(frames: Frames, h: Head, ch: seq<nat>, x: nat, slots: seq<nat>, n: nat)
    requires ListOk(frames, h, ch) && (h.addr == 0 || h.nslot == SLOTS)
    requires x != 0 && x !in ch && |slots| == SLOTS && n <= SLOTS
    ensures var frames', h', ch' := frames[x := Frame(h.addr, slots)], Head(x, n), [x] + ch;
            && ListOk(frames', h', ch')
            && Holds(frames', h', ch') == Holds(frames, h, ch) + multiset{x} + multiset(slots[..n])
            && Stock(frames', h', ch') == Stock(frames, h, ch) + multiset(slots[..n])
  {
    var frames', ch' := frames[x := Frame(h.addr, slots)], [x] + ch;
    assert ch'[1..] == ch && (|ch'| > 1 ==> ch'[1] == ch[0]);
    OtherFrame(frames, ch, SLOTS, x, Frame(h.addr, slots));
    if ch == [] {
      assert Items(frames, ch, h.nslot) == Items(frames, ch, SLOTS) == [];
    }
    assert multiset(ch') == multiset{x} + multiset(ch);
    assert Items(frames', ch', n) == slots[..n] + Items(frames, ch, SLOTS);
  }

  /** The empty frame at the head is taken off: the next one is full. */
  lemma {:induction false} PopFrame(frames: Frames, h: Head, ch: seq<nat>)
    requires ListOk(frames, h, ch) && h.addr != 0 && h.nslot == 0
    requires h.addr in frames && |frames[h.addr].slots| == SLOTS
    ensures var h', ch' := Head(frames[h.addr].next, SLOTS), if ch == [] then [] else ch[1..];
            && ListOk(frames, h', ch') && Holds(frames, h, ch) == Holds(frames, h', ch') + multiset{h.addr}
            && Stock(frames, h, ch) == Stock(frames, h', ch')
    ensures ch != [] && ch[0] == h.addr
  {
    HeadFrame(frames, h, ch);
  }

  // ---------- many lists ----------

  ghost predicate ListsOk(frames: Frames, heads: seq<Head>, chains: seq<seq<nat>>) {
    |heads| == |chains| && forall i | 0 <= i < |heads| :: ListOk(frames, heads[i], chains[i])
  }

  ghost function SumHolds(frames: Frames, heads: seq<Head>, chains: seq<seq<nat>>): multiset<nat>
    requires |heads| == |chains|
  {
    if heads == [] then multiset{} else
      var n := |heads| - 1;
      SumHolds(frames, heads[..n], chains[..n]) + Holds(frames, heads[n], chains[n])
  }

  /** A list is part of the sum. */
  lemma {:induction false} SumHas(frames: Frames, heads: seq<Head>, chains: seq<seq<nat>>, q: nat, x: nat)
    requires |heads| == |chains| && q < |heads|
    ensures SumHolds(frames, heads, chains)[x] >= Holds(frames, heads[q], chains[q])[x]
  {
    hide Holds;
    if q < |heads| - 1 { SumHas(frames, heads[..|heads| - 1], chains[..|heads| - 1], q, x); }
  }

  /** So are two lists. */
  lemma {:induction false} SumHasTwo(frames: Frames, heads: seq<Head>, chains: seq<seq<nat>>, q: nat, r: nat, x: nat)
    requires |heads| == |chains| && q < r < |heads|
    ensures SumHolds(frames, heads, chains)[x] >= Holds(frames, heads[q], chains[q])[x] + Holds(frames, heads[r], chains[r])[x]
  {
    hide Holds;
    var n := |heads| - 1;
    if r < n {
      SumHasTwo(frames, heads[..n], chains[..n], q, r, x);
    } else {
      SumHas(frames, heads[..n], chains[..n], q, x);
    }
  }

  /** What one list holds is in no other. */
  lemma {:induction false} OthersLack(frames: Frames, heads: seq<Head>, chains: seq<seq<nat>>, q: nat, x: nat)
    requires |heads| == |chains| && q < |heads| && Once(SumHolds(frames, heads, chains))
    requires x in Holds(frames, heads[q], chains[q])
    ensures forall i | 0 <= i < |heads| && i != q :: x !in chains[i]
  {
    forall i | 0 <= i < |heads| && i != q ensures x !in chains[i] {
      if i < q { SumHasTwo(frames, heads, chains, i, q, x); } else { SumHasTwo(frames, heads, chains, q, i, x); }
    }
  }

  lemma {:induction false} SumSame(frames: Frames, frames': Frames, heads: seq<Head>, chains: seq<seq<nat>>)
    requires |heads| == |chains|
    requires forall i | 0 <= i < |heads| :: Holds(frames', heads[i], chains[i]) == Holds(frames, heads[i], chains[i])
    ensures SumHolds(frames', heads, chains) == SumHolds(frames, heads, chains)
  {
    hide Holds;
    if heads != [] { SumSame(frames, frames', heads[..|heads| - 1], chains[..|heads| - 1]); }
  }

  lemma {:induction false} Regroup(a: multiset<nat>, b: multiset<nat>, c: multiset<nat>, d: multiset<nat>, e: multiset<nat>)
    requires a + b == c + d
    ensures (a + e) + b == (c + e) + d
  {
    assert (a + e) + b == (a + b) + e && (c + e) + d == (c + d) + e;
  }

  /** The sum when one list changes and the others do not. */
  lemma {:induction false} SumUpdate(
      frames: Frames, frames': Frames, heads: seq<Head>, chains: seq<seq<nat>>, q: nat, h: Head, ch: seq<nat>)
    requires |heads| == |chains| && q < |heads|
    requires forall i | 0 <= i < |heads| && i != q :: Holds(frames', heads[i], chains[i]) == Holds(frames, heads[i], chains[i])
    ensures SumHolds(frames', heads[q := h], chains[q := ch]) + Holds(frames, heads[q], chains[q])
         == SumHolds(frames, heads, chains) + Holds(frames', h, ch)
  {
    hide Holds;
    var n := |heads| - 1;
    var heads', chains' := heads[q := h], chains[q := ch];
    assert SumHolds(frames', heads', chains')
        == SumHolds(frames', heads'[..n], chains'[..n]) + Holds(frames', heads'[n], chains'[n]);
    if q < n {
      assert heads'[..n] == heads[..n][q := h] && chains'[..n] == chains[..n][q := ch];
      SumUpdate(frames, frames', heads[..n], chains[..n], q, h, ch);
      Regroup(SumHolds(frames', heads'[..n], chains'[..n]), Holds(frames, heads[q], chains[q]),
              SumHolds(frames, heads[..n], chains[..n]), Holds(frames', h, ch), Holds(frames, heads[n], chains[n]));
    } else {
      assert heads[q := h][..n] == heads[..n] && chains[q := ch][..n] == chains[..n];
      SumSame(frames, frames', heads[..n], chains[..n]);
    }
  }
}
