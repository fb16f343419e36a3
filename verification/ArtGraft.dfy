/**
 One change of the radix tree: the node a slot refers to, if any, is replaced by a few new
 nodes that keep its children under the same labels. Every insertion is one such change.
 */
module ArtGraft {
  import opened ArtNodes
  import opened ArtTree

  /**
   The new nodes with their owners and labels. `moved` takes a child slot of the old node to
   the new slot with its content, and `back` is its inverse.
   */
  datatype Patch = Patch(
    at: Loc, gone: set<nat>, top: Slot, nodes: map<nat, Node>,
    owner: map<nat, Loc>, path: map<Loc, Path>, moved: map<Loc, Loc>, back: map<Loc, Loc>)

  predicate OldChild(p: Patch, l: Loc) { l.In? && l.addr in p.gone }

  function PatchSlot(p: Patch, x: Loc): Slot {
    if x.In? && x.addr in p.nodes then SlotAt(p.nodes[x.addr], x.i) else Unused
  }

  function Grafted(s: Art, p: Patch): Art {
    SetSlot(Art(s.root, (s.nodes - p.gone) + p.nodes), p.at, p.top)
  }

  function Relabeled(s: Art, g: Labels, p: Patch): Labels {
    var owner := map n | n in (s.nodes - p.gone) + p.nodes ::
      if n in p.nodes && n in p.owner then p.owner[n]
      else if n in g.owner && g.owner[n] in p.moved then p.moved[g.owner[n]]
      else if n in g.owner then g.owner[n] else Root;
    Labels(owner, (map l | l in g.path && !OldChild(p, l) :: g.path[l]) + p.path)
  }

  /** The old node is the one the slot refers to; an end is never replaced. */
  ghost predicate SiteOk(s: Art, g: Labels, p: Patch)
    requires Valid(s, g)
  {
    var c := Content(s, p.at);
    && p.at in g.path && !OldChild(p, p.at)
    && TagOf(c) == NoTag && p.gone == (if IsRef(c) then {c.addr} else {})
    && p.nodes.Keys !! (s.nodes.Keys - p.gone)
  }

  ghost predicate OwnersOk(s: Art, g: Labels, p: Patch) {
    && p.owner.Keys == p.nodes.Keys
    && IsRef(p.top) && TagOf(p.top) == NoTag && p.top.addr in p.nodes && p.owner[p.top.addr] == p.at
    && forall n | n in p.nodes ::
         && NodeOk(p.nodes[n])
         && if p.owner[n] == p.at then Refers(p.top, n, p.nodes[n])
            else p.owner[n] in p.path && Refers(PatchSlot(p, p.owner[n]), n, p.nodes[n])
  }

  ghost predicate LabelsOk(s: Art, g: Labels, p: Patch)
    requires p.at in g.path && OwnersOk(s, g, p)
  {
    && (forall x :: x in p.path <==> x.In? && x.addr in p.nodes && HasChild(p.nodes[x.addr], x.i))
    && forall x | x in p.path ::
         var up := if p.owner[x.addr] == p.at then g.path[p.at] else p.path[p.owner[x.addr]];
         up <= p.path[x] && EdgeIs(p.nodes[x.addr], x.i, p.path[x][|up|..])
  }

  ghost predicate SlotsOk(s: Art, g: Labels, p: Patch)
    requires OwnersOk(s, g, p)
  {
    && (forall x | x in p.path ::
          var c := PatchSlot(p, x);
          if x in p.back then
            var y := p.back[x];
            y in g.path && OldChild(p, y) && y in p.moved && p.moved[y] == x
            && c == Content(s, y) && p.path[x] == g.path[y]
          else
            TagOf(c) == NoTag && (IsRef(c) ==> c.addr in p.nodes && p.owner[c.addr] == x))
    && (forall y | y in p.moved :: OldChild(p, y))
    && forall y | y in g.path && OldChild(p, y) ::
         y in p.moved && p.moved[y] in p.path && p.moved[y] in p.back && p.back[p.moved[y]] == y
  }

  ghost predicate PatchOk(s: Art, g: Labels, p: Patch) {
    Valid(s, g) && SiteOk(s, g, p) && OwnersOk(s, g, p) && LabelsOk(s, g, p) && SlotsOk(s, g, p)
  }

  lemma {:induction false} WithSlotSame(n: Node, i: nat, c: Slot)
    requires NodeOk(n) && HasChild(n, i)
    ensures var m := WithSlot(n, i, c);
            && NodeOk(m) && SlotAt(m, i) == c
            && (forall j: nat :: HasChild(m, j) == HasChild(n, j))
            && (forall j: nat | HasChild(n, j) && j != i :: SlotAt(m, j) == SlotAt(n, j))
            && (forall j: nat, e: Path :: EdgeIs(m, j, e) == EdgeIs(n, j, e))
            && (forall d: Slot, a: nat :: Refers(d, a, m) == Refers(d, a, n))
  {
  }

  /** Nodes outside of the patch keep children, edges and type; only the slot `at` changes. */
  lemma {:induction false} OutsideSame(s: Art, g: Labels, p: Patch, n: nat)
    requires Valid(s, g) && SiteOk(s, g, p) && n in s.nodes && n !in p.gone
    ensures var s' := Grafted(s, p);
            && n in s'.nodes && n !in p.nodes && NodeOk(s'.nodes[n])
            && (forall j: nat :: HasChild(s'.nodes[n], j) == HasChild(s.nodes[n], j))
            && (forall j: nat | HasChild(s.nodes[n], j) && In(n, j) != p.at :: SlotAt(s'.nodes[n], j) == SlotAt(s.nodes[n], j))
            && (forall j: nat, e: Path :: EdgeIs(s'.nodes[n], j, e) == EdgeIs(s.nodes[n], j, e))
            && (forall d: Slot, a: nat :: Refers(d, a, s'.nodes[n]) == Refers(d, a, s.nodes[n]))
  {
    if p.at.In? && p.at.addr == n {
      WithSlotSame(s.nodes[n], p.at.i, p.top);
    }
  }

  lemma {:induction false} InsideSame(s: Art, g: Labels, p: Patch, n: nat)
    requires Valid(s, g) && SiteOk(s, g, p) && n in p.nodes
    ensures n in Grafted(s, p).nodes && Grafted(s, p).nodes[n] == p.nodes[n]
  {
    assert p.at.In? ==> p.at.addr in s.nodes && p.at.addr !in p.gone;
  }

  lemma {:induction false} NodesAfter(s: Art, g: Labels, p: Patch)
    requires Valid(s, g) && SiteOk(s, g, p)
    ensures Grafted(s, p).nodes.Keys == (s.nodes.Keys - p.gone) + p.nodes.Keys
    ensures Content(Grafted(s, p), p.at) == p.top
  {
    if p.at.In? {
      assert p.at.addr in s.nodes && p.at.addr !in p.gone;
      WithSlotSame(s.nodes[p.at.addr], p.at.i, p.top);
    }
  }

  /** Kept slots other than the site hold what they held. */
  lemma {:induction false} KeptContent(s: Art, g: Labels, p: Patch, l: Loc)
    requires PatchOk(s, g, p) && l in g.path && !OldChild(p, l) && l != p.at
    ensures Content(Grafted(s, p), l) == Content(s, l)
  {
    if l.In? {
      OutsideSame(s, g, p, l.addr);
    }
  }

  lemma {:induction false} PatchContent(s: Art, g: Labels, p: Patch, x: Loc)
    requires PatchOk(s, g, p) && x in p.path
    ensures Content(Grafted(s, p), x) == PatchSlot(p, x)
  {
    InsideSame(s, g, p, x.addr);
  }

  lemma {:induction false} RelabeledSlots(s: Art, g: Labels, p: Patch, l: Loc)
    ensures l in Relabeled(s, g, p).path <==> l in p.path || (l in g.path && !OldChild(p, l))
  {
  }

  lemma {:induction false} GraftLiveIn(s: Art, g: Labels, p: Patch, l: Loc)
    requires PatchOk(s, g, p) && l.In?
    ensures Live(Grafted(s, p), l) <==> l in p.path || (Live(s, l) && !OldChild(p, l))
  {
    NodesAfter(s, g, p);
    if l.addr in p.nodes {
      InsideSame(s, g, p, l.addr);
    } else if l.addr in s.nodes && l.addr !in p.gone {
      OutsideSame(s, g, p, l.addr);
    }
  }

  lemma {:induction false} GraftLive(s: Art, g: Labels, p: Patch, l: Loc)
    requires PatchOk(s, g, p)
    ensures l in Relabeled(s, g, p).path <==> Live(Grafted(s, p), l)
    ensures l in Relabeled(s, g, p).path <==> l in p.path || (l in g.path && !OldChild(p, l))
  {
    RelabeledSlots(s, g, p, l);
    if l.In? {
      GraftLiveIn(s, g, p, l);
    }
  }

  /** The label of a kept slot stays; a kept slot is never a slot of the patch. */
  lemma {:induction false} KeptLabel(s: Art, g: Labels, p: Patch, l: Loc)
    requires PatchOk(s, g, p) && l in g.path && !OldChild(p, l)
    ensures l !in p.path && l in Relabeled(s, g, p).path && Relabeled(s, g, p).path[l] == g.path[l]
  {
  }

  lemma {:induction false} GraftOwner(s: Art, g: Labels, p: Patch, n: nat)
    requires PatchOk(s, g, p) && n in Grafted(s, p).nodes
    ensures var s', g' := Grafted(s, p), Relabeled(s, g, p);
            && NodeOk(s'.nodes[n]) && n in g'.owner && g'.owner[n] in g'.path
            && Refers(Content(s', g'.owner[n]), n, s'.nodes[n])
  {
    NodesAfter(s, g, p);
    if n in p.nodes {
      InsideSame(s, g, p, n);
      KeptLabel(s, g, p, p.at);
      if p.owner[n] != p.at {
        PatchContent(s, g, p, p.owner[n]);
      }
    } else {
      OutsideSame(s, g, p, n);
      var o := g.owner[n];
      if o in p.moved {
        PatchContent(s, g, p, p.moved[o]);
      } else {
        assert o != p.at;
        KeptContent(s, g, p, o);
        KeptLabel(s, g, p, o);
      }
    }
  }

  /** The owner recorded after the change for a node outside of the patch. */
  lemma {:induction false} KeptOwner(s: Art, g: Labels, p: Patch, n: nat)
    requires PatchOk(s, g, p) && n in s.nodes && n !in p.gone
    ensures n in Grafted(s, p).nodes && n in Relabeled(s, g, p).owner
    ensures Relabeled(s, g, p).owner[n] == if g.owner[n] in p.moved then p.moved[g.owner[n]] else g.owner[n]
  {
    OutsideSame(s, g, p, n);
  }

  lemma {:induction false} PatchOwner(s: Art, g: Labels, p: Patch, n: nat)
    requires PatchOk(s, g, p) && n in p.nodes
    ensures n in Grafted(s, p).nodes && n in Relabeled(s, g, p).owner && Relabeled(s, g, p).owner[n] == p.owner[n]
  {
    InsideSame(s, g, p, n);
  }

  lemma {:induction false} PatchRef(s: Art, g: Labels, p: Patch, x: Loc)
    requires PatchOk(s, g, p) && x in p.path && IsRef(PatchSlot(p, x))
    ensures var c := PatchSlot(p, x);
            c.addr in Grafted(s, p).nodes && c.addr in Relabeled(s, g, p).owner && Relabeled(s, g, p).owner[c.addr] == x
  {
    var c := PatchSlot(p, x);
    if x in p.back {
      var y := p.back[x];
      assert g.owner[Content(s, y).addr] == y;
      assert y != p.at;
      KeptOwner(s, g, p, c.addr);
    } else {
      PatchOwner(s, g, p, c.addr);
    }
  }

  lemma {:induction false} KeptRef(s: Art, g: Labels, p: Patch, l: Loc)
    requires PatchOk(s, g, p) && l in g.path && !OldChild(p, l) && l != p.at && IsRef(Content(s, l))
    ensures var c := Content(s, l);
            c.addr in Grafted(s, p).nodes && c.addr in Relabeled(s, g, p).owner && Relabeled(s, g, p).owner[c.addr] == l
  {
    assert g.owner[Content(s, l).addr] == l;
    KeptOwner(s, g, p, Content(s, l).addr);
  }

  lemma {:induction false} GraftRef(s: Art, g: Labels, p: Patch, l: Loc)
    requires PatchOk(s, g, p) && l in Relabeled(s, g, p).path && IsRef(Content(Grafted(s, p), l))
    ensures var c := Content(Grafted(s, p), l);
            c.addr in Grafted(s, p).nodes && c.addr in Relabeled(s, g, p).owner && Relabeled(s, g, p).owner[c.addr] == l
  {
    RelabeledSlots(s, g, p, l);
    if l in p.path {
      PatchContent(s, g, p, l);
      PatchRef(s, g, p, l);
    } else if l == p.at {
      NodesAfter(s, g, p);
      PatchOwner(s, g, p, p.top.addr);
    } else {
      KeptContent(s, g, p, l);
      KeptRef(s, g, p, l);
    }
  }

  lemma {:induction false} PatchEdge(s: Art, g: Labels, p: Patch, x: Loc)
    requires PatchOk(s, g, p) && x in p.path
    ensures var s', g' := Grafted(s, p), Relabeled(s, g, p);
            && x in g'.path && x.addr in s'.nodes && x.addr in g'.owner && g'.owner[x.addr] in g'.path && EdgeOk(s', g', x)
  {
    InsideSame(s, g, p, x.addr);
    PatchOwner(s, g, p, x.addr);
    KeptLabel(s, g, p, p.at);
  }

  /** Moving the owner slot does not change its label. */
  lemma {:induction false} KeptOwnerLabel(s: Art, g: Labels, p: Patch, n: nat)
    requires PatchOk(s, g, p) && n in s.nodes && n !in p.gone
    ensures var g' := Relabeled(s, g, p);
            n in g'.owner && g'.owner[n] in g'.path && g'.path[g'.owner[n]] == g.path[g.owner[n]]
  {
    KeptOwner(s, g, p, n);
    if g.owner[n] !in p.moved {
      KeptLabel(s, g, p, g.owner[n]);
    }
  }

  lemma {:induction false} KeptEdge(s: Art, g: Labels, p: Patch, l: Loc)
    requires PatchOk(s, g, p) && l in g.path && !OldChild(p, l) && l != Root
    ensures var s', g' := Grafted(s, p), Relabeled(s, g, p);
            && l in g'.path && l.addr in s'.nodes && l.addr in g'.owner && g'.owner[l.addr] in g'.path && EdgeOk(s', g', l)
  {
    assert EdgeOk(s, g, l);
    KeptLabel(s, g, p, l);
    KeptOwnerLabel(s, g, p, l.addr);
    assert l.addr in Grafted(s, p).nodes
        && forall e: Path :: EdgeIs(Grafted(s, p).nodes[l.addr], l.i, e) == EdgeIs(s.nodes[l.addr], l.i, e) by {
      OutsideSame(s, g, p, l.addr);
    }
  }

  lemma {:induction false} GraftEdge(s: Art, g: Labels, p: Patch, l: Loc)
    requires PatchOk(s, g, p) && l in Relabeled(s, g, p).path && l != Root
    ensures var s', g' := Grafted(s, p), Relabeled(s, g, p);
            && l.addr in s'.nodes && l.addr in g'.owner && g'.owner[l.addr] in g'.path && EdgeOk(s', g', l)
  {
    RelabeledSlots(s, g, p, l);
    if l in p.path { PatchEdge(s, g, p, l); } else { KeptEdge(s, g, p, l); }
  }

  lemma {:induction false} GraftValid(s: Art, g: Labels, p: Patch)
    requires PatchOk(s, g, p)
    ensures Valid(Grafted(s, p), Relabeled(s, g, p))
  {
    var s', g' := Grafted(s, p), Relabeled(s, g, p);
    forall l ensures l in g'.path <==> Live(s', l) { GraftLive(s, g, p, l); }
    GraftLive(s, g, p, Root);
    forall a | a in s'.nodes
      ensures NodeOk(s'.nodes[a]) && a in g'.owner && g'.owner[a] in g'.path && Refers(Content(s', g'.owner[a]), a, s'.nodes[a])
    {
      GraftOwner(s, g, p, a);
    }
    forall l | l in g'.path && IsRef(Content(s', l))
      ensures Content(s', l).addr in s'.nodes && g'.owner[Content(s', l).addr] == l
    {
      GraftRef(s, g, p, l);
    }
    forall l | l in g'.path && l != Root ensures EdgeOk(s', g', l) { GraftEdge(s, g, p, l); }
  }

  lemma {:induction false} GraftPreserves(s: Art, g: Labels, p: Patch)
    requires PatchOk(s, g, p)
    ensures Preserved(s, g, Grafted(s, p), Relabeled(s, g, p))
  {
    var s', g' := Grafted(s, p), Relabeled(s, g, p);
    forall q, t | Has(s, g, q, t) ensures Has(s', g', q, t) {
      var l :| l in g.path && g.path[l] == q && TagOf(Content(s, l)) == t;
      if OldChild(p, l) {
        PatchContent(s, g, p, p.moved[l]);
        assert g'.path[p.moved[l]] == q;
      } else {
        KeptLabel(s, g, p, l);
        if l == p.at { NodesAfter(s, g, p); } else { KeptContent(s, g, p, l); }
        assert g'.path[l] == q;
      }
    }
    forall q, t | Has(s', g', q, t) && t != NoTag ensures Has(s, g, q, t) {
      var l :| l in g'.path && g'.path[l] == q && TagOf(Content(s', l)) == t;
      GraftLive(s, g, p, l);
      if l in p.path {
        PatchContent(s, g, p, l);
        assert g.path[p.back[l]] == q;
      } else {
        KeptLabel(s, g, p, l);
        if l == p.at { NodesAfter(s, g, p); } else { KeptContent(s, g, p, l); }
        assert g.path[l] == q;
      }
    }
  }
}
