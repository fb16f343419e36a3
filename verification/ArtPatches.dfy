/** The changes an insertion makes to the radix tree, each as one patch. */
module ArtPatches {
  import opened ArtNodes
  import opened ArtTree
  import opened ArtGraft

  /** The labels below a slot start with its label. */
  lemma {:induction false} ChildLonger(s: Art, g: Labels, l: Loc, a: nat, i: nat)
    requires Valid(s, g) && l in g.path && IsRef(Content(s, l)) && Content(s, l).addr == a && In(a, i) in g.path
    ensures a in s.nodes && g.owner[a] == l && g.path[l] < g.path[In(a, i)]
    ensures EdgeIs(s.nodes[a], i, g.path[In(a, i)][|g.path[l]|..])
  {
    assert EdgeOk(s, g, In(a, i));
    OwnerShorter(s, g, In(a, i));
  }

  // ---------- fillKey: an unused slot gets a span ----------

  ghost function FillPatch(g: Labels, at: Loc, bytes: seq<Byte>, a: nat): Patch
    requires at in g.path && |bytes| > 0
  {
    Patch(at, {}, SpanRef(|bytes|, a), map[a := Span(bytes, Unused)],
          map[a := at], map[In(a, 0) := g.path[at] + Bytes(bytes)], map[], map[])
  }

  lemma {:induction false} FillSiteOk(s: Art, g: Labels, at: Loc, bytes: seq<Byte>, a: nat)
    requires Valid(s, g) && at in g.path && Content(s, at) == Unused && 0 < |bytes| <= 248 && a !in s.nodes
    ensures SiteOk(s, g, FillPatch(g, at, bytes, a))
  {
  }

  lemma {:induction false} FillNodesOk(s: Art, g: Labels, at: Loc, bytes: seq<Byte>, a: nat)
    requires Valid(s, g) && at in g.path && 0 < |bytes| <= 248 && a !in s.nodes
    ensures var p := FillPatch(g, at, bytes, a); OwnersOk(s, g, p) && LabelsOk(s, g, p) && SlotsOk(s, g, p)
  {
    var p := FillPatch(g, at, bytes, a);
    assert NodeOk(Span(bytes, Unused)) && Refers(p.top, a, p.nodes[a]);
    assert p.path[In(a, 0)][|g.path[at]|..] == Bytes(bytes);
    assert forall y | y in g.path :: !OldChild(p, y);
  }

  lemma {:induction false} FillPatchOk(s: Art, g: Labels, at: Loc, bytes: seq<Byte>, a: nat)
    requires Valid(s, g) && at in g.path && Content(s, at) == Unused && 0 < |bytes| <= 248 && a !in s.nodes
    ensures PatchOk(s, g, FillPatch(g, at, bytes, a))
  {
    FillSiteOk(s, g, at, bytes, a);
    FillNodesOk(s, g, at, bytes, a);
  }

  // ---------- a radix node takes one more byte ----------

  predicate RefKind(c: Slot, a: nat, n: Node) {
    match n
    case N4(_, _, _) => c == Ref4(a)
    case N14(_, _, _) => c == Ref14(a)
    case N64(_, _, _) => c == Ref64(a)
    case N256(_, _) => c == Ref256(a)
    case _ => false
  }

  function RadixRef(n: Node, a: nat): (c: Slot)
    requires IsRadix(n)
    ensures RefKind(c, a, n)
  {
    match n
    case N4(_, _, _) => Ref4(a)
    case N14(_, _, _) => Ref14(a)
    case N64(_, _, _) => Ref64(a)
    case N256(_, _) => Ref256(a)
  }

  /** The slots in use of a radix node. */
  ghost function SlotsOf(a: nat, alloc: seq<bool>): (r: set<Loc>)
    ensures forall x :: x in r <==> x.In? && x.addr == a && x.i < |alloc| && alloc[x.i]
  {
    var r := set j: nat | j < |alloc| && alloc[j] :: In(a, j);
    assert forall x: Loc | x.In? && x.addr == a && x.i < |alloc| && alloc[x.i] :: x == In(a, x.i);
    r
  }

  /** The label of slot `j` of the extended node. */
  ghost function ExtendedLabel(g: Labels, at: Loc, a: nat, b: Byte, i: nat, fro: seq<nat>, j: nat): Path
    requires at in g.path && j < |fro|
  {
    if j == i then g.path[at] + [B(b)] else if In(a, fro[j]) in g.path then g.path[In(a, fro[j])] else []
  }

  /** Node `n` of address `a` becomes `m` of address `a2`, which may be `a` again. */
  ghost function ExtendPatch(
      s: Art, g: Labels, at: Loc, a: nat, n: Node, m: Node, a2: nat, b: Byte, i: nat, to: seq<nat>, fro: seq<nat>): Patch
    requires at in g.path && IsRadix(n) && IsRadix(m) && |to| == |n.alloc| && |fro| == |m.alloc|
  {
    Patch(at, {a}, RadixRef(m, a2), map[a2 := m], map[a2 := at],
          map x | x in SlotsOf(a2, m.alloc) :: ExtendedLabel(g, at, a, b, i, fro, x.i),
          map y | y in SlotsOf(a, n.alloc) :: In(a2, to[y.i]),
          map x | x in SlotsOf(a2, m.alloc) - {In(a2, i)} :: In(a, fro[x.i]))
  }

  /** The slots of `n` and those of `m` beside slot `i` correspond, contents and edges included. */
  ghost predicate Mapped(n: Node, m: Node, i: nat, to: seq<nat>, fro: seq<nat>)
    requires IsRadix(n) && IsRadix(m)
  {
    && |to| == |n.alloc| && |fro| == |m.alloc|
    && (forall j: nat | j < |m.alloc| && m.alloc[j] && j != i ::
          fro[j] < |n.alloc| && n.alloc[fro[j]] && to[fro[j]] == j && SlotAt(m, j) == SlotAt(n, fro[j]))
    && (forall k: nat | k < |n.alloc| && n.alloc[k] ::
          to[k] < |m.alloc| && m.alloc[to[k]] && to[k] != i && fro[to[k]] == k)
    && (forall j: nat, e: Path | j < |m.alloc| && m.alloc[j] && j != i && EdgeIs(n, fro[j], e) :: EdgeIs(m, j, e))
  }

  lemma {:induction false} ExtendsBack(n: Node, m: Node, b: Byte, at: nat, to: seq<nat>, fro: seq<nat>, i: nat)
    requires IsRadix(n) && IsRadix(m) && NodeOk(n) && Extends(n, m, b, at, to, fro) && HasChild(n, i)
    ensures HasChild(m, to[i]) && to[i] != at && fro[to[i]] == i
  {
    var j := fro[to[i]];
    var e := EdgeExists(n, i);
    var f := EdgeExists(n, j);
    assert ByteOf(m, to[i], e[0].b) && ByteOf(m, to[j], f[0].b);
    EdgesPart(m, to[i], to[j], e, f);
    if i != j { EdgesPart(n, i, j, e, f); }
  }

  lemma {:induction false} ExtendsEdge(
      n: Node, m: Node, b: Byte, at: nat, to: seq<nat>, fro: seq<nat>, j: nat, e: Path)
    requires IsRadix(n) && IsRadix(m) && NodeOk(n) && Extends(n, m, b, at, to, fro)
    requires HasChild(m, j) && j != at && EdgeIs(n, fro[j], e)
    ensures EdgeIs(m, j, e)
  {
    assert ByteOf(m, to[fro[j]], e[0].b);
  }

  lemma {:induction false} ExtendsMapped(n: Node, m: Node, b: Byte, at: nat, to: seq<nat>, fro: seq<nat>)
    requires IsRadix(n) && IsRadix(m) && NodeOk(n) && Extends(n, m, b, at, to, fro)
    ensures Mapped(n, m, at, to, fro)
  {
    forall k: nat | k < |n.alloc| && n.alloc[k]
      ensures to[k] < |m.alloc| && m.alloc[to[k]] && to[k] != at && fro[to[k]] == k
    {
      ExtendsBack(n, m, b, at, to, fro, k);
    }
    forall j: nat, e: Path | j < |m.alloc| && m.alloc[j] && j != at && EdgeIs(n, fro[j], e) ensures EdgeIs(m, j, e) {
      ExtendsEdge(n, m, b, at, to, fro, j, e);
    }
  }

  /** A radix node hangs at slot `at`. */
  ghost predicate RadixAt(s: Art, g: Labels, at: Loc, a: nat, n: Node) {
    Valid(s, g) && at in g.path && IsRadix(n) && a in s.nodes && s.nodes[a] == n && Content(s, at) == RadixRef(n, a)
  }

  lemma {:induction false} RadixChild(s: Art, g: Labels, at: Loc, a: nat, n: Node, j: nat)
    requires RadixAt(s, g, at, a, n) && j < |n.alloc| && n.alloc[j]
    ensures In(a, j) in g.path && g.path[at] < g.path[In(a, j)] && Content(s, In(a, j)) == SlotAt(n, j)
    ensures EdgeIs(n, j, g.path[In(a, j)][|g.path[at]|..])
  {
    assert Live(s, In(a, j));
    ChildLonger(s, g, at, a, j);
  }

  lemma {:induction false} RadixSlots(s: Art, g: Labels, at: Loc, a: nat, n: Node)
    requires RadixAt(s, g, at, a, n)
    ensures forall j: nat :: In(a, j) in g.path <==> j < |n.alloc| && n.alloc[j]
    ensures !(at.In? && at.addr == a)
  {
    forall j: nat ensures In(a, j) in g.path <==> j < |n.alloc| && n.alloc[j] {
      assert In(a, j) in g.path <==> Live(s, In(a, j));
    }
    if at.In? && at.addr == a { RadixChild(s, g, at, a, n, at.i); }
  }

  lemma {:induction false} ExtendSiteOk(
      s: Art, g: Labels, at: Loc, a: nat, n: Node, m: Node, a2: nat, b: Byte, i: nat, to: seq<nat>, fro: seq<nat>)
    requires RadixAt(s, g, at, a, n) && IsRadix(m) && Mapped(n, m, i, to, fro) && (a2 == a || a2 !in s.nodes)
    ensures SiteOk(s, g, ExtendPatch(s, g, at, a, n, m, a2, b, i, to, fro))
  {
    RadixSlots(s, g, at, a, n);
  }

  lemma {:induction false} ExtendOwnersOk(
      s: Art, g: Labels, at: Loc, a: nat, n: Node, m: Node, a2: nat, b: Byte, i: nat, to: seq<nat>, fro: seq<nat>)
    requires at in g.path && IsRadix(n) && IsRadix(m) && |to| == |n.alloc| && |fro| == |m.alloc| && NodeOk(m)
    ensures OwnersOk(s, g, ExtendPatch(s, g, at, a, n, m, a2, b, i, to, fro))
  {
  }

  lemma {:induction false} ExtendLabelOk(
      s: Art, g: Labels, at: Loc, a: nat, n: Node, m: Node, b: Byte, i: nat, to: seq<nat>, fro: seq<nat>, j: nat)
    requires RadixAt(s, g, at, a, n) && IsRadix(m) && Mapped(n, m, i, to, fro) && EdgeIs(m, i, [B(b)])
    requires j < |m.alloc| && m.alloc[j]
    ensures var q := ExtendedLabel(g, at, a, b, i, fro, j);
            g.path[at] <= q && EdgeIs(m, j, q[|g.path[at]|..])
  {
    if j == i {
      assert (g.path[at] + [B(b)])[|g.path[at]|..] == [B(b)];
    } else {
      RadixChild(s, g, at, a, n, fro[j]);
    }
  }

  lemma {:induction false} ExtendLabelsOk(
      s: Art, g: Labels, at: Loc, a: nat, n: Node, m: Node, a2: nat, b: Byte, i: nat, to: seq<nat>, fro: seq<nat>)
    requires RadixAt(s, g, at, a, n) && IsRadix(m) && Mapped(n, m, i, to, fro) && EdgeIs(m, i, [B(b)])
    requires OwnersOk(s, g, ExtendPatch(s, g, at, a, n, m, a2, b, i, to, fro))
    ensures LabelsOk(s, g, ExtendPatch(s, g, at, a, n, m, a2, b, i, to, fro))
  {
    var p := ExtendPatch(s, g, at, a, n, m, a2, b, i, to, fro);
    forall x | x in p.path
      ensures g.path[at] <= p.path[x] && EdgeIs(m, x.i, p.path[x][|g.path[at]|..])
    {
      ExtendLabelOk(s, g, at, a, n, m, b, i, to, fro, x.i);
    }
  }

  lemma {:induction false} ExtendSlotsOk(
      s: Art, g: Labels, at: Loc, a: nat, n: Node, m: Node, a2: nat, b: Byte, i: nat, to: seq<nat>, fro: seq<nat>)
    requires RadixAt(s, g, at, a, n) && IsRadix(m) && Mapped(n, m, i, to, fro) && SlotAt(m, i) == Unused
    requires OwnersOk(s, g, ExtendPatch(s, g, at, a, n, m, a2, b, i, to, fro))
    ensures SlotsOk(s, g, ExtendPatch(s, g, at, a, n, m, a2, b, i, to, fro))
  {
    var p := ExtendPatch(s, g, at, a, n, m, a2, b, i, to, fro);
    RadixSlots(s, g, at, a, n);
    forall y | y in g.path && OldChild(p, y)
      ensures y in p.moved && p.moved[y] in p.path && p.moved[y] in p.back && p.back[p.moved[y]] == y
    {
      assert y == In(a, y.i);
    }
    forall x | x in p.path
      ensures x in p.back ==>
                && p.back[x] in g.path && OldChild(p, p.back[x]) && p.back[x] in p.moved && p.moved[p.back[x]] == x
                && PatchSlot(p, x) == Content(s, p.back[x]) && p.path[x] == g.path[p.back[x]]
      ensures x !in p.back ==> PatchSlot(p, x) == Unused
    {
      assert x == In(a2, x.i);
      if x.i != i { RadixChild(s, g, at, a, n, fro[x.i]); }
    }
  }

  lemma {:induction false} ExtendPatchOk(
      s: Art, g: Labels, at: Loc, a: nat, n: Node, m: Node, a2: nat, b: Byte, i: nat, to: seq<nat>, fro: seq<nat>)
    requires RadixAt(s, g, at, a, n) && IsRadix(m) && (a2 == a || a2 !in s.nodes)
    requires Extends(n, m, b, i, to, fro)
    ensures PatchOk(s, g, ExtendPatch(s, g, at, a, n, m, a2, b, i, to, fro))
  {
    ExtendsMapped(n, m, b, i, to, fro);
    ExtendSiteOk(s, g, at, a, n, m, a2, b, i, to, fro);
    ExtendOwnersOk(s, g, at, a, n, m, a2, b, i, to, fro);
    ExtendLabelsOk(s, g, at, a, n, m, a2, b, i, to, fro);
    ExtendSlotsOk(s, g, at, a, n, m, a2, b, i, to, fro);
  }

  // ---------- a span is cut, or branches at its first byte ----------

  ghost predicate SpanAt(s: Art, g: Labels, at: Loc, a: nat, n: Node) {
    && Valid(s, g) && at in g.path && n.Span? && 0 < |n.bytes| <= 248
    && a in s.nodes && s.nodes[a] == n && Content(s, at) == SpanRef(|n.bytes|, a)
  }

  lemma {:induction false} SpanSlots(s: Art, g: Labels, at: Loc, a: nat, n: Node)
    requires SpanAt(s, g, at, a, n)
    ensures forall y: Loc | y.In? && y.addr == a :: y in g.path <==> y.i == 0
    ensures !(at.In? && at.addr == a) && Content(s, In(a, 0)) == n.next
  {
    forall y: Loc | y.In? && y.addr == a ensures y in g.path <==> y.i == 0 {
      assert y in g.path <==> Live(s, y);
    }
    if at.In? && at.addr == a { ChildLonger(s, g, at, a, at.i); }
  }

  lemma {:induction false} SpanLabel(s: Art, g: Labels, at: Loc, a: nat, n: Node)
    requires SpanAt(s, g, at, a, n) && In(a, 0) in g.path
    ensures g.path[In(a, 0)] == g.path[at] + Bytes(n.bytes)
  {
    ChildLonger(s, g, at, a, 0);
    PrefixRest(g.path[at], g.path[In(a, 0)]);
  }

  lemma {:induction false} PrefixRest(u: Path, p: Path)
    requires u <= p
    ensures p == u + p[|u|..]
  {
  }

  lemma {:induction false} FreshSlot(s: Art, g: Labels, at: Loc, a: nat, i: nat)
    requires Valid(s, g) && at in g.path && a !in s.nodes
    ensures at != In(a, i) && In(a, i) !in g.path
  {
    assert In(a, i) in g.path <==> Live(s, In(a, i));
  }

  /** The span of address `a` becomes two spans: `idx` bytes at `a1`, the rest at `a2`. */
  ghost function CutPatch(g: Labels, at: Loc, a: nat, n: Node, idx: nat, a1: nat, a2: nat): Patch
    requires at in g.path && In(a, 0) in g.path && n.Span? && 0 < idx < |n.bytes|
  {
    Patch(at, {a}, SpanRef(idx, a1),
          map[a1 := Span(n.bytes[..idx], SpanRef(|n.bytes| - idx, a2)), a2 := Span(n.bytes[idx..], n.next)],
          map[a1 := at, a2 := In(a1, 0)],
          map[In(a1, 0) := g.path[at] + Bytes(n.bytes[..idx]), In(a2, 0) := g.path[In(a, 0)]],
          map[In(a, 0) := In(a2, 0)], map[In(a2, 0) := In(a, 0)])
  }

  lemma {:induction false} CutOwnersOk(s: Art, g: Labels, at: Loc, a: nat, n: Node, idx: nat, a1: nat, a2: nat)
    requires at in g.path && In(a, 0) in g.path && n.Span? && 0 < idx < |n.bytes| <= 248 && a1 != a2 && at != In(a1, 0)
    ensures OwnersOk(s, g, CutPatch(g, at, a, n, idx, a1, a2))
  {
  }

  lemma {:induction false} CutBytes(up: Path, bytes: seq<Byte>, idx: nat)
    requires idx <= |bytes|
    ensures var mid := up + Bytes(bytes[..idx]);
            && mid <= up + Bytes(bytes) && mid[|up|..] == Bytes(bytes[..idx])
            && (up + Bytes(bytes))[|mid|..] == Bytes(bytes[idx..])
  {
    assert up + Bytes(bytes) == up + Bytes(bytes[..idx]) + Bytes(bytes[idx..]);
  }

  lemma {:induction false} CutLabelsOk(s: Art, g: Labels, at: Loc, a: nat, n: Node, idx: nat, a1: nat, a2: nat)
    requires at in g.path && In(a, 0) in g.path && n.Span? && 0 < idx < |n.bytes| <= 248 && a1 != a2 && at != In(a1, 0)
    requires g.path[In(a, 0)] == g.path[at] + Bytes(n.bytes)
    requires OwnersOk(s, g, CutPatch(g, at, a, n, idx, a1, a2))
    ensures LabelsOk(s, g, CutPatch(g, at, a, n, idx, a1, a2))
  {
    hide OwnersOk;
    var p := CutPatch(g, at, a, n, idx, a1, a2);
    CutEdges(g.path[at], n, idx, p.nodes[a1], p.nodes[a2]);
    hide EdgeIs;
    forall x ensures x in p.path <==> x.In? && x.addr in p.nodes && HasChild(p.nodes[x.addr], x.i) {
      assert x.In? ==> x == In(x.addr, x.i);
    }
  }

  lemma {:induction false} CutEdges(up: Path, n: Node, idx: nat, n1: Node, n2: Node)
    requires n.Span? && 0 < idx < |n.bytes|
    requires n1.Span? && n1.bytes == n.bytes[..idx] && n2.Span? && n2.bytes == n.bytes[idx..]
    ensures var mid, low := up + Bytes(n.bytes[..idx]), up + Bytes(n.bytes);
            up <= mid <= low && EdgeIs(n1, 0, mid[|up|..]) && EdgeIs(n2, 0, low[|mid|..])
  {
    CutBytes(up, n.bytes, idx);
  }

  lemma {:induction false} CutSlotsOk(s: Art, g: Labels, at: Loc, a: nat, n: Node, idx: nat, a1: nat, a2: nat)
    requires at in g.path && In(a, 0) in g.path && n.Span? && 0 < idx < |n.bytes| <= 248 && a1 != a2
    requires Content(s, In(a, 0)) == n.next && forall y: Loc | y.In? && y.addr == a :: y in g.path <==> y.i == 0
    requires OwnersOk(s, g, CutPatch(g, at, a, n, idx, a1, a2))
    ensures SlotsOk(s, g, CutPatch(g, at, a, n, idx, a1, a2))
  {
    assert forall y: Loc | y.In? && y.addr == a && y.i == 0 :: y == In(a, 0);
  }

  lemma {:induction false} CutSiteOk(s: Art, g: Labels, at: Loc, a: nat, n: Node, idx: nat, a1: nat, a2: nat)
    requires SpanAt(s, g, at, a, n) && In(a, 0) in g.path && 0 < idx < |n.bytes|
    requires a1 != a2 && a1 !in s.nodes && a2 !in s.nodes
    ensures SiteOk(s, g, CutPatch(g, at, a, n, idx, a1, a2))
  {
    hide NodeOk;
  }

  lemma {:induction false} CutPatchOk(s: Art, g: Labels, at: Loc, a: nat, n: Node, idx: nat, a1: nat, a2: nat)
    requires SpanAt(s, g, at, a, n) && 0 < idx < |n.bytes| && a1 != a2 && a1 !in s.nodes && a2 !in s.nodes
    ensures In(a, 0) in g.path && PatchOk(s, g, CutPatch(g, at, a, n, idx, a1, a2))
  {
    hide OwnersOk, LabelsOk, SlotsOk, NodeOk, SiteOk, Valid, CutPatch;
    SpanSlots(s, g, at, a, n);
    assert In(a, 0) in g.path;
    SpanLabel(s, g, at, a, n);
    FreshSlot(s, g, at, a1, 0);
    CutSiteOk(s, g, at, a, n, idx, a1, a2);
    CutOwnersOk(s, g, at, a, n, idx, a1, a2);
    CutLabelsOk(s, g, at, a, n, idx, a1, a2);
    CutSlotsOk(s, g, at, a, n, idx, a1, a2);
  }

  /** The radix node with the span byte at slot 0 and the new key byte at slot 1. */
  function BranchNode(c: Byte, b: Byte, first: Slot): Node {
    N4([true, true, false, false], [c, b, 0, 0], [first, Unused, Unused, Unused])
  }

  /** The span of one byte at `a` becomes radix node `a2`, which also maps byte `b`. */
  ghost function BranchPatch(g: Labels, at: Loc, a: nat, n: Node, b: Byte, a2: nat): Patch
    requires at in g.path && In(a, 0) in g.path && n.Span? && |n.bytes| == 1
  {
    Patch(at, {a}, Ref4(a2), map[a2 := BranchNode(n.bytes[0], b, n.next)], map[a2 := at],
          map[In(a2, 0) := g.path[In(a, 0)], In(a2, 1) := g.path[at] + [B(b)]],
          map[In(a, 0) := In(a2, 0)], map[In(a2, 0) := In(a, 0)])
  }

  lemma {:induction false} BranchOwnersOk(s: Art, g: Labels, at: Loc, a: nat, n: Node, b: Byte, a2: nat)
    requires at in g.path && In(a, 0) in g.path && n.Span? && |n.bytes| == 1 && n.bytes[0] != b
    ensures OwnersOk(s, g, BranchPatch(g, at, a, n, b, a2))
  {
  }

  lemma {:induction false} BranchLabelsOk(s: Art, g: Labels, at: Loc, a: nat, n: Node, b: Byte, a2: nat)
    requires at in g.path && In(a, 0) in g.path && n.Span? && |n.bytes| == 1 && n.bytes[0] != b
    requires g.path[In(a, 0)] == g.path[at] + Bytes(n.bytes)
    requires OwnersOk(s, g, BranchPatch(g, at, a, n, b, a2))
    ensures LabelsOk(s, g, BranchPatch(g, at, a, n, b, a2))
  {
    var p := BranchPatch(g, at, a, n, b, a2);
    var up := g.path[at];
    assert p.path[In(a2, 0)][|up|..] == [B(n.bytes[0])] && p.path[In(a2, 1)][|up|..] == [B(b)];
    forall x ensures x in p.path <==> x.In? && x.addr in p.nodes && HasChild(p.nodes[x.addr], x.i) {
      assert x.In? ==> x == In(x.addr, x.i);
    }
  }

  lemma {:induction false} BranchSlotsOk(s: Art, g: Labels, at: Loc, a: nat, n: Node, b: Byte, a2: nat)
    requires at in g.path && In(a, 0) in g.path && n.Span? && |n.bytes| == 1
    requires Content(s, In(a, 0)) == n.next && forall y: Loc | y.In? && y.addr == a :: y in g.path <==> y.i == 0
    requires OwnersOk(s, g, BranchPatch(g, at, a, n, b, a2))
    ensures SlotsOk(s, g, BranchPatch(g, at, a, n, b, a2))
  {
    assert forall y: Loc | y.In? && y.addr == a && y.i == 0 :: y == In(a, 0);
  }

  lemma {:induction false} BranchPatchOk(s: Art, g: Labels, at: Loc, a: nat, n: Node, b: Byte, a2: nat)
    requires SpanAt(s, g, at, a, n) && |n.bytes| == 1 && n.bytes[0] != b && a2 !in s.nodes
    ensures In(a, 0) in g.path && PatchOk(s, g, BranchPatch(g, at, a, n, b, a2))
  {
    SpanSlots(s, g, at, a, n);
    assert In(a, 0) in g.path;
    SpanLabel(s, g, at, a, n);
    assert SiteOk(s, g, BranchPatch(g, at, a, n, b, a2));
    BranchOwnersOk(s, g, at, a, n, b, a2);
    BranchLabelsOk(s, g, at, a, n, b, a2);
    BranchSlotsOk(s, g, at, a, n, b, a2);
  }
}
