/**
 The radix tree as nodes in an arena. Every live slot carries a ghost label, the path of
 symbols from the root, and every node knows the slot that refers to it; the invariant is
 then local to single slots and nodes.
 */
module ArtTree {
  import opened ArtNodes

  /** The address of a slot: the root, or slot `i` of the node at `addr`. */
  datatype Loc = Root | In(addr: nat, i: nat)

  datatype Art = Art(root: Slot, nodes: map<nat, Node>)

  datatype Labels = Labels(owner: map<nat, Loc>, path: map<Loc, Path>)

  ghost predicate Live(s: Art, l: Loc) {
    l == Root || (l.addr in s.nodes && HasChild(s.nodes[l.addr], l.i))
  }

  function Content(s: Art, l: Loc): Slot {
    match l
    case Root => s.root
    case In(a, i) => if a in s.nodes then SlotAt(s.nodes[a], i) else Unused
  }

  function SetSlot(s: Art, l: Loc, c: Slot): Art {
    match l
    case Root => s.(root := c)
    case In(a, i) => if a in s.nodes then s.(nodes := s.nodes[a := WithSlot(s.nodes[a], i, c)]) else s
  }

  /** The slot refers to this node: address, type and, for spans, the encoded length agree. */
  ghost predicate Refers(c: Slot, a: nat, n: Node) {
    match c
    case Unused => false
    case KeyEnd => false
    case Ref4(addr) => addr == a && n.N4?
    case Ref14(addr) => addr == a && n.N14?
    case Ref64(addr) => addr == a && n.N64?
    case Ref256(addr) => addr == a && n.N256?
    case RefFld(addr) => addr == a && n.End?
    case RefSfx(addr) => addr == a && n.End?
    case RefSpan(_, _, _) => n.Span? && 0 < |n.bytes| && c == SpanRef(|n.bytes|, a)
  }

  /** Owner slot and owner label of a child slot, and the edge between them. */
  ghost predicate EdgeOk(s: Art, g: Labels, l: Loc)
    requires l.In? && l in g.path && l.addr in s.nodes && l.addr in g.owner && g.owner[l.addr] in g.path
  {
    var up := g.path[g.owner[l.addr]];
    up <= g.path[l] && EdgeIs(s.nodes[l.addr], l.i, g.path[l][|up|..])
  }

  ghost predicate Valid(s: Art, g: Labels) {
    && (forall l :: l in g.path <==> Live(s, l))
    && Root in g.path && g.path[Root] == []
    && (forall a | a in s.nodes :: NodeOk(s.nodes[a]) && a in g.owner && g.owner[a] in g.path
                                   && Refers(Content(s, g.owner[a]), a, s.nodes[a]))
    && (forall l | l in g.path && IsRef(Content(s, l)) ::
          Content(s, l).addr in s.nodes && g.owner[Content(s, l).addr] == l)
    && (forall l | l in g.path && l != Root :: EdgeOk(s, g, l))
  }

  // ---------- the path to a slot is unique ----------

  /** `l` lies on the way from the root to `r`. */
  ghost predicate Above(s: Art, g: Labels, l: Loc, r: Loc)
    requires Valid(s, g) && l in g.path && r in g.path
    decreases |g.path[r]|
  {
    l == r || (r != Root && LongerThanOwner(s, g, r) && Above(s, g, l, g.owner[r.addr]))
  }

  ghost predicate LongerThanOwner(s: Art, g: Labels, r: Loc)
    requires Valid(s, g) && r in g.path && r != Root
  {
    assert EdgeOk(s, g, r);
    |g.path[g.owner[r.addr]]| < |g.path[r]|
  }

  lemma {:induction false} OwnerShorter(s: Art, g: Labels, r: Loc)
    requires Valid(s, g) && r in g.path && r != Root
    ensures LongerThanOwner(s, g, r)
  {
    assert EdgeOk(s, g, r);
    var e := g.path[r][|g.path[g.owner[r.addr]]|..];
    EdgesPart(s.nodes[r.addr], r.i, r.i, e, e);
  }

  lemma {:induction false} AboveIsPrefix(s: Art, g: Labels, l: Loc, r: Loc)
    requires Valid(s, g) && l in g.path && r in g.path && Above(s, g, l, r)
    ensures g.path[l] <= g.path[r]
    ensures |g.path[l]| == |g.path[r]| ==> l == r
    decreases |g.path[r]|
  {
    if l != r {
      AboveIsPrefix(s, g, l, g.owner[r.addr]);
      assert EdgeOk(s, g, r);
    }
  }

  /** From a slot above another one, the next slot down towards it. */
  lemma {:induction false} StepDown(s: Art, g: Labels, l: Loc, r: Loc) returns (c: Loc)
    requires Valid(s, g) && l in g.path && r in g.path && Above(s, g, l, r) && l != r
    ensures c in g.path && c != Root && g.owner[c.addr] == l && Above(s, g, c, r)
    decreases |g.path[r]|
  {
    var o := g.owner[r.addr];
    if o == l {
      c := r;
    } else {
      c := StepDown(s, g, l, o);
    }
  }

  /** Two slots of one node whose labels lead the same way are the same slot. */
  lemma {:induction false} SiblingsPart(s: Art, g: Labels, c: Loc, r: Loc, p: Path)
    requires Valid(s, g) && c in g.path && r in g.path && c != Root && r != Root && c.addr == r.addr
    requires g.path[c] <= p && g.path[r] <= p
    ensures c == r
  {
    assert EdgeOk(s, g, c) && EdgeOk(s, g, r);
    var up := g.path[g.owner[c.addr]];
    EdgesPart(s.nodes[c.addr], c.i, r.i, g.path[c][|up|..], g.path[r][|up|..]);
    assert g.path[c][|up|] == p[|up|] == g.path[r][|up|];
  }

  /** A label that is a prefix of another belongs to a slot above it. */
  lemma {:induction false} PrefixIsAbove(s: Art, g: Labels, l: Loc, r: Loc)
    requires Valid(s, g) && l in g.path && r in g.path && g.path[l] <= g.path[r]
    ensures Above(s, g, l, r)
    decreases |g.path[l]| + |g.path[r]|
  {
    if l != r {
      if r == Root {
        OwnerShorter(s, g, l);
      } else {
        OwnerShorter(s, g, r);
        assert EdgeOk(s, g, r);
        var o := g.owner[r.addr];
        if |g.path[l]| <= |g.path[o]| {
          assert g.path[l] <= g.path[o];
          PrefixIsAbove(s, g, l, o);
        } else {
          assert g.path[o] <= g.path[l];
          PrefixIsAbove(s, g, o, l);
          var c := StepDown(s, g, o, l);
          AboveIsPrefix(s, g, c, l);
          OwnersAgree(s, g, c, r);
          SiblingsPart(s, g, c, r, g.path[r]);
          AboveIsPrefix(s, g, c, l);
        }
      }
    }
  }

  /** One slot refers to one node only. */
  lemma {:induction false} OwnersAgree(s: Art, g: Labels, c: Loc, r: Loc)
    requires Valid(s, g) && c in g.path && r in g.path && c != Root && r != Root && g.owner[c.addr] == g.owner[r.addr]
    ensures c.addr == r.addr
  {
    var o := g.owner[c.addr];
    assert Refers(Content(s, o), c.addr, s.nodes[c.addr]);
    assert Refers(Content(s, o), r.addr, s.nodes[r.addr]);
  }

  lemma {:induction false} LabelsDiffer(s: Art, g: Labels, l: Loc, r: Loc)
    requires Valid(s, g) && l in g.path && r in g.path && g.path[l] == g.path[r]
    ensures l == r
  {
    PrefixIsAbove(s, g, l, r);
    AboveIsPrefix(s, g, l, r);
  }

  // ---------- what the tree means ----------

  datatype Tag = NoTag | TagKey | TagFld | TagSfx

  /** The ends a slot can mark. */
  function TagOf(c: Slot): Tag {
    match c
    case KeyEnd => TagKey
    case RefFld(_) => TagFld
    case RefSfx(_) => TagSfx
    case _ => NoTag
  }

  ghost predicate Has(s: Art, g: Labels, p: Path, t: Tag) {
    exists l | l in g.path :: g.path[l] == p && TagOf(Content(s, l)) == t
  }

  /** Same paths as before and possibly more; ends exactly where they were. */
  ghost predicate Preserved(s: Art, g: Labels, s': Art, g': Labels) {
    && (forall p, t | Has(s, g, p, t) :: Has(s', g', p, t))
    && (forall p, t | Has(s', g', p, t) && t != NoTag :: Has(s, g, p, t))
  }
}
