/** What an insertion leaves alone: ends, labels and slots off the way to the inserted field. */
module ArtGrowth {
  import opened ArtNodes
  import opened ArtTree
  import opened ArtGraft
  import opened ArtPatches
  import opened ArtPaths

  // ---------- what an insertion leaves alone ----------

  ghost predicate KeepsUpTo(g: Labels, g': Labels, n: nat) {
    forall l | l in g.path && |g.path[l]| <= n :: l in g'.path && g'.path[l] == g.path[l]
  }

  lemma {:induction false} GraftKeepsUpTo(s: Art, g: Labels, p: Patch)
    requires PatchOk(s, g, p)
    ensures p.at in g.path && KeepsUpTo(g, Relabeled(s, g, p), |g.path[p.at]|)
  {
    forall l | l in g.path && |g.path[l]| <= |g.path[p.at]|
      ensures l in Relabeled(s, g, p).path && Relabeled(s, g, p).path[l] == g.path[l]
    {
      if OldChild(p, l) {
        ChildLonger(s, g, p.at, l.addr, l.i);
      }
      KeptLabel(s, g, p, l);
    }
  }

  /** Proper prefix of a label: inside an edge of the tree or a slot above another. */
  ghost predicate Inside(g: Labels, q: Path) { exists r | r in g.path :: q < g.path[r] }

  predicate AllBytes(q: Path) { forall i | 0 <= i < |q| :: q[i].B? }

  /** The label of a slot that was there, followed by key bytes. */
  ghost predicate ByBytes(g: Labels, q: Path) {
    exists o | o in g.path :: g.path[o] <= q && AllBytes(q[|g.path[o]|..])
  }

  predicate EndsInByte(q: Path) { q != [] && q[|q| - 1].B? }

  /** A slot that was there, holding what it held unless it lies on the way to `t`, at depth `n` or below. */
  ghost predicate OldSlot(s: Art, g: Labels, q: Path, c: Slot, n: nat, t: Path) {
    exists l | l in g.path :: g.path[l] == q && (Content(s, l) == c || (n <= |q| && q < t))
  }

  /** A slot made inside an edge that was there, or on the way to `t`, which itself is made empty. */
  ghost predicate NewSlot(g: Labels, q: Path, c: Slot, t: Path) {
    EndsInByte(q) && ByBytes(g, q) && (Inside(g, q) || (q <= t && (q == t ==> c == Unused)))
  }

  ghost predicate SlotOnTheWay(s: Art, g: Labels, q: Path, c: Slot, n: nat, t: Path) {
    OldSlot(s, g, q, c, n, t) || NewSlot(g, q, c, t)
  }

  /** All that is new or changed lies on the way to `t` or inside an edge. */
  ghost predicate OnTheWay(s: Art, g: Labels, s': Art, g': Labels, n: nat, t: Path) {
    forall l | l in g'.path :: SlotOnTheWay(s, g, g'.path[l], Content(s', l), n, t)
  }

  lemma {:induction false} OnTheWayTrans(
      s: Art, g: Labels, s1: Art, g1: Labels, s2: Art, g2: Labels, n1: nat, n2: nat, t1: Path, t2: Path)
    requires OnTheWay(s, g, s1, g1, n1, t1) && OnTheWay(s1, g1, s2, g2, n2, t2) && n1 <= n2 && t1 <= t2
    ensures OnTheWay(s, g, s2, g2, n1, t2)
  {
    forall l | l in g2.path ensures SlotOnTheWay(s, g, g2.path[l], Content(s2, l), n1, t2) {
      if OldSlot(s1, g1, g2.path[l], Content(s2, l), n2, t2) {
        OldSlotTrans(s, g, s1, g1, g2.path[l], Content(s2, l), n1, n2, t1, t2);
      } else {
        NewSlotTrans(s, g, s1, g1, g2.path[l], Content(s2, l), n1, t1, t2);
      }
    }
  }

  lemma {:induction false} OldSlotTrans(
      s: Art, g: Labels, s1: Art, g1: Labels, q: Path, c: Slot, n1: nat, n2: nat, t1: Path, t2: Path)
    requires OnTheWay(s, g, s1, g1, n1, t1) && n1 <= n2 && t1 <= t2 && OldSlot(s1, g1, q, c, n2, t2)
    ensures SlotOnTheWay(s, g, q, c, n1, t2)
  {
    var l1 :| l1 in g1.path && g1.path[l1] == q && (Content(s1, l1) == c || (n2 <= |q| && q < t2));
    assert SlotOnTheWay(s, g, q, Content(s1, l1), n1, t1);
  }

  lemma {:induction false} ByBytesTrans(
      s: Art, g: Labels, s1: Art, g1: Labels, q: Path, n1: nat, t1: Path)
    requires OnTheWay(s, g, s1, g1, n1, t1) && ByBytes(g1, q)
    ensures ByBytes(g, q)
  {
    var o1 :| o1 in g1.path && g1.path[o1] <= q && AllBytes(q[|g1.path[o1]|..]);
    var q1 := g1.path[o1];
    assert SlotOnTheWay(s, g, q1, Content(s1, o1), n1, t1);
    if NewSlot(g, q1, Content(s1, o1), t1) {
      var o :| o in g.path && g.path[o] <= q1 && AllBytes(q1[|g.path[o]|..]);
      BytesJoin(q, q1, |g.path[o]|);
    }
  }

  lemma {:induction false} BytesJoin(q: Path, q1: Path, n: nat)
    requires q1 <= q && n <= |q1| && AllBytes(q1[n..]) && AllBytes(q[|q1|..])
    ensures AllBytes(q[n..])
  {
    forall i | 0 <= i < |q| - n ensures q[n..][i].B? {
      if n + i < |q1| {
        assert q1[n..][i] == q[n + i];
      } else {
        assert q[|q1|..][n + i - |q1|] == q[n + i];
      }
    }
  }

  lemma {:induction false} NewSlotTrans(
      s: Art, g: Labels, s1: Art, g1: Labels, q: Path, c: Slot, n1: nat, t1: Path, t2: Path)
    requires OnTheWay(s, g, s1, g1, n1, t1) && t1 <= t2 && NewSlot(g1, q, c, t2)
    ensures NewSlot(g, q, c, t2)
  {
    ByBytesTrans(s, g, s1, g1, q, n1, t1);
    hide ByBytes, AllBytes;
    if Inside(g1, q) {
      var r1 :| r1 in g1.path && q < g1.path[r1];
      assert SlotOnTheWay(s, g, g1.path[r1], Content(s1, r1), n1, t1);
    }
  }

  /** A patch below `at` whose new slots lie on the way to `t` or inside an edge. */
  ghost predicate PatchOnTheWay(g: Labels, p: Patch, t: Path) {
    && p.at in g.path && g.path[p.at] < t
    && forall x | x in p.path && x !in p.back :: NewSlot(g, p.path[x], PatchSlot(p, x), t)
  }

  lemma {:induction false} GraftOnTheWay(s: Art, g: Labels, p: Patch, t: Path)
    requires PatchOk(s, g, p) && PatchOnTheWay(g, p, t)
    ensures OnTheWay(s, g, Grafted(s, p), Relabeled(s, g, p), |g.path[p.at]|, t)
  {
    var s', g' := Grafted(s, p), Relabeled(s, g, p);
    forall l | l in g'.path ensures SlotOnTheWay(s, g, g'.path[l], Content(s', l), |g.path[p.at]|, t) {
      GraftSlot(s, g, p, t, l);
    }
  }

  lemma {:induction false} GraftSlot(s: Art, g: Labels, p: Patch, t: Path, l: Loc)
    requires PatchOk(s, g, p) && PatchOnTheWay(g, p, t) && l in Relabeled(s, g, p).path
    ensures SlotOnTheWay(s, g, Relabeled(s, g, p).path[l], Content(Grafted(s, p), l), |g.path[p.at]|, t)
  {
    RelabeledSlots(s, g, p, l);
    if l in p.path {
      PatchContent(s, g, p, l);
      if l in p.back {
        assert g.path[p.back[l]] == p.path[l];
      }
    } else {
      KeptLabel(s, g, p, l);
      if l != p.at { KeptContent(s, g, p, l); }
    }
  }

  /**
   From one valid tree to another: ends kept, paths kept, labels up to length `n` where they
   were, and nothing new or changed but on the way to `t`.
   */
  ghost predicate Grew(s: Art, g: Labels, s': Art, g': Labels, n: nat, t: Path) {
    Valid(s', g') && Preserved(s, g, s', g') && KeepsUpTo(g, g', n) && OnTheWay(s, g, s', g', n, t)
  }

  lemma {:induction false} GrewSame(s: Art, g: Labels, n: nat, t: Path)
    requires Valid(s, g)
    ensures Grew(s, g, s, g, n, t)
  {
    hide Valid;
    assert forall l | l in g.path :: OldSlot(s, g, g.path[l], Content(s, l), n, t);
  }

  lemma {:induction false} GrewTrans(s: Art, g: Labels, s1: Art, g1: Labels, s2: Art, g2: Labels,
                                       n: nat, n1: nat, t1: Path, t2: Path)
    requires Grew(s, g, s1, g1, n, t1) && Grew(s1, g1, s2, g2, n1, t2) && n <= n1 && t1 <= t2
    ensures Grew(s, g, s2, g2, n, t2)
  {
    hide Valid, OnTheWay;
    OnTheWayTrans(s, g, s1, g1, s2, g2, n, n1, t1, t2);
  }

  lemma {:induction false} GraftGrows(s: Art, g: Labels, p: Patch, t: Path)
    requires PatchOk(s, g, p) && PatchOnTheWay(g, p, t)
    ensures Grew(s, g, Grafted(s, p), Relabeled(s, g, p), |g.path[p.at]|, t)
  {
    hide PatchOk, Valid, Grafted, Relabeled;
    GraftOnTheWay(s, g, p, t);
    GraftValid(s, g, p);
    GraftPreserves(s, g, p);
    GraftKeepsUpTo(s, g, p);
  }

  /** The slot, with its label and what it holds. */
  ghost predicate SlotIs(s: Art, g: Labels, l: Loc, path: Path, c: Slot) {
    l in g.path && g.path[l] == path && Content(s, l) == c
  }

  lemma {:induction false} PatchSlotIs(s: Art, g: Labels, p: Patch, x: Loc)
    requires PatchOk(s, g, p) && x in p.path
    ensures SlotIs(Grafted(s, p), Relabeled(s, g, p), x, p.path[x], PatchSlot(p, x))
  {
    PatchContent(s, g, p, x);
  }

  lemma {:induction false} OneMore(up: Path, bytes: seq<Byte>)
    requires |bytes| > 0
    ensures up < up + Bytes(bytes) && EndsInByte(up + Bytes(bytes))
    ensures up < up + [B(bytes[0])] && EndsInByte(up + [B(bytes[0])])
  {
  }

  lemma {:induction false} FillOnTheWay(g: Labels, at: Loc, bytes: seq<Byte>, a: nat)
    requires at in g.path && |bytes| > 0
    ensures PatchOnTheWay(g, FillPatch(g, at, bytes, a), g.path[at] + Bytes(bytes))
  {
    OneMore(g.path[at], bytes);
  }

  lemma {:induction false} FillResult(s: Art, g: Labels, at: Loc, bytes: seq<Byte>, a: nat)
    requires Valid(s, g) && at in g.path && Content(s, at) == Unused && 0 < |bytes| <= 248 && a !in s.nodes
    ensures var p := FillPatch(g, at, bytes, a);
            var s', g' := Grafted(s, p), Relabeled(s, g, p);
            && Grew(s, g, s', g', |g.path[at]|, g.path[at] + Bytes(bytes))
            && SlotIs(s', g', In(a, 0), g.path[at] + Bytes(bytes), Unused)
  {
    hide PatchOk, Grew, Grafted, Relabeled, PatchOnTheWay, SlotIs, Valid;
    var p := FillPatch(g, at, bytes, a);
    FillPatchOk(s, g, at, bytes, a);
    FillOnTheWay(g, at, bytes, a);
    GraftGrows(s, g, p, g.path[at] + Bytes(bytes));
    PatchSlotIs(s, g, p, In(a, 0));
  }

  lemma {:induction false} ExtendResult(
      s: Art, g: Labels, at: Loc, a: nat, n: Node, m: Node, a2: nat, b: Byte, i: nat, to: seq<nat>, fro: seq<nat>)
    requires RadixAt(s, g, at, a, n) && IsRadix(m) && (a2 == a || a2 !in s.nodes) && Extends(n, m, b, i, to, fro)
    ensures var p := ExtendPatch(s, g, at, a, n, m, a2, b, i, to, fro);
            var s', g' := Grafted(s, p), Relabeled(s, g, p);
            && Grew(s, g, s', g', |g.path[at]|, g.path[at] + [B(b)])
            && SlotIs(s', g', In(a2, i), g.path[at] + [B(b)], Unused)
  {
    hide PatchOk, Grew, Grafted, Relabeled, PatchOnTheWay, SlotIs, NodeOk, Refers, Valid;
    var p := ExtendPatch(s, g, at, a, n, m, a2, b, i, to, fro);
    ExtendPatchOk(s, g, at, a, n, m, a2, b, i, to, fro);
    ExtendOnTheWay(s, g, at, a, n, m, a2, b, i, to, fro);
    GraftGrows(s, g, p, g.path[at] + [B(b)]);
    PatchSlotIs(s, g, p, In(a2, i));
  }

  lemma {:induction false} CutLonger(s: Art, g: Labels, at: Loc, a: nat, n: Node, idx: nat)
    requires SpanAt(s, g, at, a, n) && 0 < idx < |n.bytes| && In(a, 0) in g.path
    ensures Inside(g, g.path[at] + Bytes(n.bytes[..idx])) && EndsInByte(g.path[at] + Bytes(n.bytes[..idx]))
  {
    SpanLabel(s, g, at, a, n);
    CutBytes(g.path[at], n.bytes, idx);
  }

  lemma {:induction false} CutGrows(s: Art, g: Labels, at: Loc, a: nat, n: Node, idx: nat, a1: nat, a2: nat, t: Path)
    requires SpanAt(s, g, at, a, n) && 0 < idx < |n.bytes| && a1 != a2 && a1 !in s.nodes && a2 !in s.nodes
    requires g.path[at] < t
    ensures In(a, 0) in g.path
    ensures var p := CutPatch(g, at, a, n, idx, a1, a2);
            PatchOk(s, g, p) && Grew(s, g, Grafted(s, p), Relabeled(s, g, p), |g.path[at]|, t)
  {
    hide PatchOk, Grew, Grafted, Relabeled, Valid;
    CutPatchOk(s, g, at, a, n, idx, a1, a2);
    CutLonger(s, g, at, a, n, idx);
    GraftGrows(s, g, CutPatch(g, at, a, n, idx, a1, a2), t);
  }

  lemma {:induction false} CutResult(
      s: Art, g: Labels, at: Loc, a: nat, n: Node, idx: nat, a1: nat, a2: nat, t: Path)
    requires SpanAt(s, g, at, a, n) && 0 < idx < |n.bytes| && a1 != a2 && a1 !in s.nodes && a2 !in s.nodes
    requires g.path[at] < t
    ensures In(a, 0) in g.path
    ensures var p := CutPatch(g, at, a, n, idx, a1, a2);
            var s', g' := Grafted(s, p), Relabeled(s, g, p);
            && Grew(s, g, s', g', |g.path[at]|, t)
            && SlotIs(s', g', In(a1, 0), g.path[at] + Bytes(n.bytes[..idx]), SpanRef(|n.bytes| - idx, a2))
            && SpanAt(s', g', In(a1, 0), a2, Span(n.bytes[idx..], n.next))
            && SpanAt(s', g', at, a1, Span(n.bytes[..idx], SpanRef(|n.bytes| - idx, a2)))
  {
    CutGrows(s, g, at, a, n, idx, a1, a2, t);
    hide PatchOk, Grafted, Relabeled, Valid, Preserved, OnTheWay, NodeOk;
    var p := CutPatch(g, at, a, n, idx, a1, a2);
    PatchSlotIs(s, g, p, In(a1, 0));
    PatchAround(s, g, p);
    InsideSame(s, g, p, a1);
    InsideSame(s, g, p, a2);
  }

  /** The site of a patch keeps its label and holds the new top. */
  lemma {:induction false} PatchAround(s: Art, g: Labels, p: Patch)
    requires PatchOk(s, g, p)
    ensures p.at in Relabeled(s, g, p).path && Content(Grafted(s, p), p.at) == p.top && Valid(s, g) && SiteOk(s, g, p)
  {
    NodesAfter(s, g, p);
    KeptLabel(s, g, p, p.at);
  }

  lemma {:induction false} SpanHasChild(s: Art, g: Labels, at: Loc, a: nat, n: Node)
    requires SpanAt(s, g, at, a, n)
    ensures In(a, 0) in g.path
  {
    SpanSlots(s, g, at, a, n);
  }

  /** A cut span: two spans in place of one, with the slot between them. */
  ghost predicate CutDone(s: Art, g: Labels, at: Loc, n: Node, idx: nat, s': Art, g': Labels, slot: Loc)
    requires IsRef(Content(s, at)) && n.Span?
  {
    var a := Content(s, at).addr;
    exists a1: nat, a2: nat ::
      && slot == In(a1, 0) && a1 != a2 && a1 !in s.nodes && a2 !in s.nodes && In(a, 0) in g.path && at in g.path
      && 0 < idx < |n.bytes|
      && s' == Grafted(s, CutPatch(g, at, a, n, idx, a1, a2)) && g' == Relabeled(s, g, CutPatch(g, at, a, n, idx, a1, a2))
  }

  lemma {:induction false} AfterCut(s: Art, g: Labels, at: Loc, n: Node, idx: nat, s': Art, g': Labels, slot: Loc,
                                      t: Path)
    requires IsRef(Content(s, at)) && SpanAt(s, g, at, Content(s, at).addr, n) && CutDone(s, g, at, n, idx, s', g', slot)
    requires g.path[at] < t
    ensures Grew(s, g, s', g', |g.path[at]|, t)
    ensures slot in g'.path && g'.path[slot] == g.path[at] + Bytes(n.bytes[..idx])
    ensures IsRef(Content(s', slot)) && SpanAt(s', g', slot, Content(s', slot).addr, Span(n.bytes[idx..], n.next))
    ensures IsRef(Content(s', at)) && Content(s', at).addr in s'.nodes
    ensures var m := s'.nodes[Content(s', at).addr];
            m.Span? && m.bytes == n.bytes[..idx] && SpanAt(s', g', at, Content(s', at).addr, m)
  {
    var a := Content(s, at).addr;
    var a1: nat, a2: nat :|
      && slot == In(a1, 0) && a1 != a2 && a1 !in s.nodes && a2 !in s.nodes && In(a, 0) in g.path && at in g.path
      && 0 < idx < |n.bytes|
      && s' == Grafted(s, CutPatch(g, at, a, n, idx, a1, a2)) && g' == Relabeled(s, g, CutPatch(g, at, a, n, idx, a1, a2));
    CutResult(s, g, at, a, n, idx, a1, a2, t);
  }

  lemma {:induction false} BranchOnTheWay(g: Labels, at: Loc, a: nat, n: Node, b: Byte, a2: nat)
    requires at in g.path && In(a, 0) in g.path && n.Span? && |n.bytes| == 1
    ensures PatchOnTheWay(g, BranchPatch(g, at, a, n, b, a2), g.path[at] + [B(b)])
  {
    OneMore(g.path[at], [b]);
  }

  lemma {:induction false} ExtendOnTheWay(
      s: Art, g: Labels, at: Loc, a: nat, n: Node, m: Node, a2: nat, b: Byte, i: nat, to: seq<nat>, fro: seq<nat>)
    requires at in g.path && IsRadix(n) && IsRadix(m) && |to| == |n.alloc| && |fro| == |m.alloc| && SlotAt(m, i) == Unused
    ensures PatchOnTheWay(g, ExtendPatch(s, g, at, a, n, m, a2, b, i, to, fro), g.path[at] + [B(b)])
  {
    OneMore(g.path[at], [b]);
    var p := ExtendPatch(s, g, at, a, n, m, a2, b, i, to, fro);
    assert forall x | x in p.path && x !in p.back :: x == In(a2, i);
  }

  lemma {:induction false} BranchResult(s: Art, g: Labels, at: Loc, a: nat, n: Node, b: Byte, a2: nat)
    requires SpanAt(s, g, at, a, n) && |n.bytes| == 1 && n.bytes[0] != b && a2 !in s.nodes
    ensures In(a, 0) in g.path
    ensures var p := BranchPatch(g, at, a, n, b, a2);
            var s', g' := Grafted(s, p), Relabeled(s, g, p);
            && Grew(s, g, s', g', |g.path[at]|, g.path[at] + [B(b)])
            && SlotIs(s', g', In(a2, 1), g.path[at] + [B(b)], Unused)
  {
    hide PatchOk, Grew, Grafted, Relabeled, SlotIs, Valid;
    BranchPatchOk(s, g, at, a, n, b, a2);
    BranchOnTheWay(g, at, a, n, b, a2);
    var p := BranchPatch(g, at, a, n, b, a2);
    GraftGrows(s, g, p, g.path[at] + [B(b)]);
    PatchSlotIs(s, g, p, In(a2, 1));
  }

  lemma {:induction false} RefIsRadix(s: Art, g: Labels, at: Loc)
    requires Valid(s, g) && at in g.path && IsRef(Content(s, at)) && IsRadix(s.nodes[Content(s, at).addr])
    ensures var a := Content(s, at).addr; RadixAt(s, g, at, a, s.nodes[a]) && NodeOk(s.nodes[a])
  {
  }

  lemma {:induction false} RefIsSpan(s: Art, g: Labels, at: Loc)
    requires Valid(s, g) && at in g.path && IsRef(Content(s, at)) && s.nodes[Content(s, at).addr].Span?
    ensures var a := Content(s, at).addr; SpanAt(s, g, at, a, s.nodes[a])
  {
    var a := Content(s, at).addr;
    assert g.owner[a] == at && NodeOk(s.nodes[a]);
  }

  /** The arena after a patch. */
  function Patched(s: Art, at: Loc, gone: set<nat>, top: Slot, news: map<nat, Node>): Art {
    SetSlot(Art(s.root, (s.nodes - gone) + news), at, top)
  }

  lemma {:induction false} PatchedKeys(s: Art, at: Loc, gone: set<nat>, top: Slot, news: map<nat, Node>)
    ensures Patched(s, at, gone, top, news).nodes.Keys == (s.nodes.Keys - gone) + news.Keys
  {
  }
}
