/** Splicing an end node into a slot: what was behind the slot moves behind the node's pass slot. */
module ArtSplice {
  import opened ArtNodes
  import opened ArtTree
  import opened ArtGraft
  import opened ArtPatches
  import opened ArtPaths

  /** FldEnd when `fld`, otherwise Suffix. */
  function EndRef(e: nat, fld: bool): Slot { if fld then RefFld(e) else RefSfx(e) }

  function Spliced(s: Art, at: Loc, e: nat, fld: bool): Art {
    SetSlot(Art(s.root, s.nodes[e := End(Unused, Content(s, at))]), at, EndRef(e, fld))
  }

  /** Labels beyond the slot get a step past the new node. */
  function Shifted(at: Path, q: Path): Path { if at < q then at + [Pass] + q[|at|..] else q }

  ghost function SplicedLabels(s: Art, g: Labels, at: Loc, e: nat): Labels
    requires at in g.path
  {
    Labels((map a | a in s.nodes ::
              if a in g.owner && g.owner[a] != at then g.owner[a] else In(e, 1))[e := at],
           (map l | l in g.path :: Shifted(g.path[at], g.path[l]))
             [In(e, 0) := g.path[at] + [Next]][In(e, 1) := g.path[at] + [Pass]])
  }

  ghost predicate SpliceOk(s: Art, g: Labels, at: Loc, e: nat) {
    Valid(s, g) && at in g.path && e !in s.nodes
  }

  lemma {:induction false} ShiftedSelf(at: Path)
    ensures Shifted(at, at) == at && !(at < [])
  {
  }

  /** The slots after the splice, with their labels. */
  lemma {:induction false} SplicedSlots(s: Art, g: Labels, at: Loc, e: nat, l: Loc)
    requires SpliceOk(s, g, at, e)
    ensures var g' := SplicedLabels(s, g, at, e);
            && In(e, 0) !in g.path && In(e, 1) !in g.path
            && (l in g'.path <==> l in g.path || l == In(e, 0) || l == In(e, 1))
            && (l in g.path ==> g'.path[l] == Shifted(g.path[at], g.path[l]))
            && In(e, 0) in g'.path && g'.path[In(e, 0)] == g.path[at] + [Next]
            && In(e, 1) in g'.path && g'.path[In(e, 1)] == g.path[at] + [Pass]
  {
    assert In(e, 0) in g.path <==> Live(s, In(e, 0));
    assert In(e, 1) in g.path <==> Live(s, In(e, 1));
  }

  /** Old nodes keep children, edges and type, and all their slots but `at` keep their contents. */
  lemma {:induction false} SplicedNode(s: Art, g: Labels, at: Loc, e: nat, fld: bool, n: nat)
    requires SpliceOk(s, g, at, e) && n in s.nodes
    ensures var s' := Spliced(s, at, e, fld);
            && n in s'.nodes && NodeOk(s'.nodes[n])
            && (forall j: nat :: HasChild(s'.nodes[n], j) == HasChild(s.nodes[n], j))
            && (forall j: nat | HasChild(s.nodes[n], j) && In(n, j) != at :: SlotAt(s'.nodes[n], j) == SlotAt(s.nodes[n], j))
            && (forall j: nat, p: Path :: EdgeIs(s'.nodes[n], j, p) == EdgeIs(s.nodes[n], j, p))
            && (forall d: Slot, a: nat :: Refers(d, a, s'.nodes[n]) == Refers(d, a, s.nodes[n]))
  {
    if at.In? && at.addr == n {
      assert Live(s, at) && n != e;
      WithSlotSame(s.nodes[n], at.i, EndRef(e, fld));
    }
  }

  lemma {:induction false} SplicedEnd(s: Art, g: Labels, at: Loc, e: nat, fld: bool)
    requires SpliceOk(s, g, at, e)
    ensures var s' := Spliced(s, at, e, fld);
            && s'.nodes.Keys == s.nodes.Keys + {e} && s'.nodes[e] == End(Unused, Content(s, at))
            && Content(s', at) == EndRef(e, fld)
  {
    if at.In? {
      assert Live(s, at) && at.addr != e;
      WithSlotSame(s.nodes[at.addr], at.i, EndRef(e, fld));
    }
  }

  /** What the slots hold after the splice. */
  lemma {:induction false} SplicedContent(s: Art, g: Labels, at: Loc, e: nat, fld: bool, l: Loc)
    requires SpliceOk(s, g, at, e)
    ensures var s' := Spliced(s, at, e, fld);
            && (l in g.path && l != at ==> Content(s', l) == Content(s, l))
            && Content(s', at) == EndRef(e, fld)
            && Content(s', In(e, 0)) == Unused && Content(s', In(e, 1)) == Content(s, at)
  {
    SplicedEnd(s, g, at, e, fld);
    if l in g.path && l != at && l.In? {
      assert Live(s, l);
      SplicedNode(s, g, at, e, fld, l.addr);
    }
  }

  lemma {:induction false} SplicedLive(s: Art, g: Labels, at: Loc, e: nat, fld: bool, l: Loc)
    requires SpliceOk(s, g, at, e)
    ensures l in SplicedLabels(s, g, at, e).path <==> Live(Spliced(s, at, e, fld), l)
  {
    hide Valid;
    LiveSlots(s, g, l);
    SplicedSlots(s, g, at, e, l);
    SplicedEnd(s, g, at, e, fld);
    if l.In? && l.addr in s.nodes {
      SplicedNode(s, g, at, e, fld, l.addr);
    }
  }

  lemma {:induction false} LiveSlots(s: Art, g: Labels, l: Loc)
    requires Valid(s, g)
    ensures l in g.path <==> Live(s, l)
  {
  }

  lemma {:induction false} SplicedOwner(s: Art, g: Labels, at: Loc, e: nat, fld: bool, n: nat)
    requires SpliceOk(s, g, at, e) && n in s.nodes
    ensures var s', g' := Spliced(s, at, e, fld), SplicedLabels(s, g, at, e);
            && n in g'.owner && g'.owner[n] in g'.path && Refers(Content(s', g'.owner[n]), n, s'.nodes[n])
            && n in g.owner && g.owner[n] in g.path && n in s'.nodes && NodeOk(s'.nodes[n])
            && g'.owner[n] == if g.owner[n] == at then In(e, 1) else g.owner[n]
  {
    SplicedNode(s, g, at, e, fld, n);
    SplicedSlots(s, g, at, e, g.owner[n]);
    SplicedContent(s, g, at, e, fld, g.owner[n]);
  }

  lemma {:induction false} SplicedRef(s: Art, g: Labels, at: Loc, e: nat, fld: bool, l: Loc)
    requires SpliceOk(s, g, at, e)
    requires var s', g' := Spliced(s, at, e, fld), SplicedLabels(s, g, at, e); l in g'.path && IsRef(Content(s', l))
    ensures var s', g' := Spliced(s, at, e, fld), SplicedLabels(s, g, at, e);
            Content(s', l).addr in s'.nodes && Content(s', l).addr in g'.owner && g'.owner[Content(s', l).addr] == l
  {
    SplicedEnd(s, g, at, e, fld);
    SplicedSlots(s, g, at, e, l);
    SplicedContent(s, g, at, e, fld, l);
  }

  /** The owner's label moves together with the label of the slot. */
  lemma {:induction false} ShiftedEdge(s: Art, g: Labels, at: Loc, l: Loc)
    requires Valid(s, g) && at in g.path && l in g.path && l != Root
    ensures var o := g.owner[l.addr];
            && o in g.path && EdgeOk(s, g, l)
            && var up := if o == at then g.path[at] + [Pass] else Shifted(g.path[at], g.path[o]);
               var low := Shifted(g.path[at], g.path[l]);
               up <= low && low[|up|..] == g.path[l][|g.path[o]|..]
  {
    var o := g.owner[l.addr];
    assert EdgeOk(s, g, l);
    OwnerShorter(s, g, l);
    if o != at && g.path[at] < g.path[l] && !(g.path[at] < g.path[o]) {
      PrefixIsAbove(s, g, at, l);
      assert at != l && Above(s, g, at, o);
      AboveIsPrefix(s, g, at, o);
      assert false;
    }
    hide Valid, Above;
    ShiftedRest(g.path[at], g.path[o], g.path[l], o == at);
  }

  lemma {:induction false} ShiftedRest(at: Path, o: Path, l: Path, same: bool)
    requires o < l && (if same then o == at else at < l ==> at < o)
    ensures var up := if same then at + [Pass] else Shifted(at, o);
            up <= Shifted(at, l) && Shifted(at, l)[|up|..] == l[|o|..]
  {
    if !same && at < l {
      assert l[|at|..] == o[|at|..] + l[|o|..];
    }
  }

  lemma {:induction false} SplicedEdge(s: Art, g: Labels, at: Loc, e: nat, fld: bool, l: Loc)
    requires SpliceOk(s, g, at, e) && l in g.path && l != Root
    ensures var s', g' := Spliced(s, at, e, fld), SplicedLabels(s, g, at, e);
            && l in g'.path && l.addr in s'.nodes && l.addr in g'.owner && g'.owner[l.addr] in g'.path
            && EdgeOk(s', g', l)
  {
    LiveSlots(s, g, l);
    ShiftedEdge(s, g, at, l);
    hide Valid, Shifted, Spliced, SplicedLabels, EdgeIs;
    SplicedOwner(s, g, at, e, fld, l.addr);
    SplicedSlots(s, g, at, e, l);
    SplicedSlots(s, g, at, e, g.owner[l.addr]);
    SplicedNode(s, g, at, e, fld, l.addr);
  }

  lemma {:induction false} EndEdges(s: Art, g: Labels, at: Loc, e: nat, fld: bool)
    requires SpliceOk(s, g, at, e)
    ensures var s', g' := Spliced(s, at, e, fld), SplicedLabels(s, g, at, e);
            && e in s'.nodes && e in g'.owner && g'.owner[e] == at && at in g'.path
            && Refers(Content(s', at), e, s'.nodes[e]) && NodeOk(s'.nodes[e])
            && In(e, 0) in g'.path && In(e, 1) in g'.path && EdgeOk(s', g', In(e, 0)) && EdgeOk(s', g', In(e, 1))
  {
    SplicedEnd(s, g, at, e, fld);
    SplicedSlots(s, g, at, e, at);
    ShiftedSelf(g.path[at]);
    assert (g.path[at] + [Next])[|g.path[at]|..] == [Next];
    assert (g.path[at] + [Pass])[|g.path[at]|..] == [Pass];
  }

  lemma {:induction false} SpliceValid(s: Art, g: Labels, at: Loc, e: nat, fld: bool)
    requires SpliceOk(s, g, at, e)
    ensures Valid(Spliced(s, at, e, fld), SplicedLabels(s, g, at, e))
  {
    var s', g' := Spliced(s, at, e, fld), SplicedLabels(s, g, at, e);
    EndEdges(s, g, at, e, fld);
    SplicedEnd(s, g, at, e, fld);
    SplicedSlots(s, g, at, e, Root);
    ShiftedSelf(g.path[at]);
    forall l ensures l in g'.path <==> Live(s', l) { SplicedLive(s, g, at, e, fld, l); }
    forall a | a in s'.nodes
      ensures NodeOk(s'.nodes[a]) && a in g'.owner && g'.owner[a] in g'.path && Refers(Content(s', g'.owner[a]), a, s'.nodes[a])
    {
      if a != e { SplicedOwner(s, g, at, e, fld, a); }
    }
    forall l | l in g'.path && IsRef(Content(s', l))
      ensures Content(s', l).addr in s'.nodes && g'.owner[Content(s', l).addr] == l
    {
      SplicedRef(s, g, at, e, fld, l);
    }
    forall l | l in g'.path && l != Root ensures EdgeOk(s', g', l) {
      SplicedSlots(s, g, at, e, l);
      if l in g.path { SplicedEdge(s, g, at, e, fld, l); }
    }
  }
}
