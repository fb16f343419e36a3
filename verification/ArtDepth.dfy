/** How long the labels of an index get: no key byte or field end more than the keys that were put in. */
module ArtDepth {
  import opened ArtNodes
  import opened ArtTree
  import opened ArtPatches
  import opened ArtPaths
  import opened ArtGrowth
  import opened ArtInsert
  import opened ArtSplice
  import opened ArtSchema

  /** No label has more than `m` steps that are not past an end node. */
  ghost predicate Bounded(g: Labels, m: nat) { forall l | l in g.path :: |Erase(g.path[l])| <= m }

  /** No label got longer than `n` or than another label was. */
  ghost predicate Within(g: Labels, g': Labels, n: nat) { forall m: nat | n <= m && Bounded(g, m) :: Bounded(g', m) }

  lemma {:induction false} WithinSelf(g: Labels, n: nat)
    ensures Within(g, g, n)
  {
  }

  lemma {:induction false} WithinTrans(g: Labels, g1: Labels, g2: Labels, n1: nat, n2: nat, n: nat)
    requires Within(g, g1, n1) && Within(g1, g2, n2) && n1 <= n && n2 <= n
    ensures Within(g, g2, n)
  {
    hide Bounded;
  }

  lemma {:induction false} WithinMore(g: Labels, g': Labels, n: nat, more: nat)
    requires Within(g, g', n) && n <= more
    ensures Within(g, g', more)
  {
    hide Bounded;
  }

  lemma {:induction false} ErasePrefix(p: Path, q: Path)
    requires p <= q
    ensures |Erase(p)| <= |Erase(q)|
  {
    assert q == p + q[|p|..];
    EraseConcat(p, q[|p|..]);
  }

  /** Appending a field lengthens no label beyond the end of the field. */
  lemma {:induction false} AppendedWithin(s: Art, g: Labels, s': Art, g': Labels, base: Loc, key: seq<Byte>, slot: Loc)
    requires Appended(s, g, s', g', base, key, slot)
    ensures base in g.path && Within(g, g', |Erase(g.path[base])| + |key|)
  {
    hide Valid, Preserved, Erase;
    var b, t := g.path[base], g'.path[slot];
    assert g'.path[base] == b && t == b + t[|b|..];
    EraseConcat(b, t[|b|..]);
    forall m: nat | |Erase(b)| + |key| <= m && Bounded(g, m) ensures Bounded(g', m) {
      forall l | l in g'.path ensures |Erase(g'.path[l])| <= m {
        SlotWithin(s, g, g'.path[l], Content(s', l), |b|, t, m);
      }
    }
  }

  lemma {:induction false} SlotWithin(s: Art, g: Labels, q: Path, c: Slot, n: nat, t: Path, m: nat)
    requires SlotOnTheWay(s, g, q, c, n, t) && Bounded(g, m) && |Erase(t)| <= m
    ensures |Erase(q)| <= m
  {
    hide Erase, ByBytes;
    if NewSlot(g, q, c, t) {
      if Inside(g, q) {
        var r :| r in g.path && q < g.path[r];
        ErasePrefix(q, g.path[r]);
      } else {
        ErasePrefix(q, t);
      }
    }
  }

  /** Splicing in an end node adds one step at most. */
  lemma {:induction false} SplicedWithin(s: Art, g: Labels, at: Loc, e: nat, fld: bool, k: nat, w: nat)
    requires SpliceOk(s, g, at, e) && Schema(s, g, k, w) && SpliceSite(g.path[at], Content(s, at), fld, k)
    ensures Within(g, SplicedLabels(s, g, at, e), |Erase(g.path[at])| + 1)
  {
    hide Valid, SlotShape, Shifted, SplicedLabels, SpliceSite, Schema, Erase;
    var g', a := SplicedLabels(s, g, at, e), g.path[at];
    EraseEnds(a);
    forall m: nat | |Erase(a)| + 1 <= m && Bounded(g, m) ensures Bounded(g', m) {
      forall l | l in g'.path ensures |Erase(g'.path[l])| <= m {
        SplicedSlots(s, g, at, e, l);
        if l in g.path && l != at { ShiftedSlot(s, g, at, e, fld, k, w, l); }
        if l == at { ShiftedSelf(a); }
      }
    }
  }

  lemma {:induction false} EraseEnds(q: Path)
    ensures Erase(q + [Next]) == Erase(q) + [Next] && Erase(q + [Pass]) == Erase(q)
  {
    assert (q + [Next])[..|q|] == q && (q + [Pass])[..|q|] == q;
  }

  /** Past an end node there is none at once: a label has at most one such step behind every other step. */
  lemma {:induction false} LabelLength(s: Art, g: Labels, k: nat, w: nat, l: Loc)
    requires Valid(s, g) && Schema(s, g, k, w) && l in g.path
    ensures |g.path[l]| <= 2 * |Erase(g.path[l])| + if EndsInPass(g.path[l]) then 1 else 0
    decreases |g.path[l]|
  {
    if l == Root {
      RootLabel(s, g);
    } else {
      OwnerShorter(s, g, l);
      var o := g.owner[l.addr];
      LabelLength(s, g, k, w, o);
      EdgeStep(s, g, k, w, l);
      hide Valid, Schema, Erase;
      var e := g.path[l][|g.path[o]|..];
      EraseConcat(g.path[o], e);
      if e == [Next] || e == [Pass] {
        EraseEnds(g.path[o]);
      } else {
        EraseOfBytes(e);
      }
    }
  }

  lemma {:induction false} EdgeParts(s: Art, g: Labels, l: Loc)
    requires Valid(s, g) && l in g.path && l != Root
    ensures l.addr in s.nodes && NodeOk(s.nodes[l.addr]) && l.addr in g.owner && g.owner[l.addr] in g.path
    ensures var o := g.owner[l.addr];
            && Refers(Content(s, o), l.addr, s.nodes[l.addr]) && g.path[o] <= g.path[l]
            && EdgeIs(s.nodes[l.addr], l.i, g.path[l][|g.path[o]|..])
  {
    assert EdgeOk(s, g, l);
  }

  lemma {:induction false} EdgeKinds(n: Node, i: nat, e: Path)
    requires NodeOk(n) && EdgeIs(n, i, e)
    ensures if n.End? then e == [Next] || e == [Pass] else e != [] && AllBytes(e)
  {
  }

  lemma {:induction false} EndBehind(c: Slot, a: nat, n: Node, q: Path, k: nat, w: nat)
    requires Refers(c, a, n) && n.End? && SlotShape(q, c, k, w)
    ensures !EndsInPass(q)
  {
    hide Shape, Lev, Tail;
  }

  /** The edge to a slot: bytes, or one step behind an end node that hangs at a proper slot. */
  lemma {:induction false} EdgeStep(s: Art, g: Labels, k: nat, w: nat, l: Loc)
    requires Valid(s, g) && Schema(s, g, k, w) && l in g.path && l != Root
    ensures l.addr in g.owner && g.owner[l.addr] in g.path && g.path[g.owner[l.addr]] <= g.path[l]
    ensures var o := g.path[g.owner[l.addr]];
            var e := g.path[l][|o|..];
            g.path[l] == o + e && (e == [Next] || (e == [Pass] && !EndsInPass(o)) || (e != [] && AllBytes(e)))
  {
    hide Valid, SlotShape, NodeOk, Refers, EdgeIs, AllBytes, EndsInPass;
    EdgeParts(s, g, l);
    var o, n := g.owner[l.addr], s.nodes[l.addr];
    EdgeKinds(n, l.i, g.path[l][|g.path[o]|..]);
    if n.End? { EndBehind(Content(s, o), l.addr, n, g.path[o], k, w); }
    PrefixRest(g.path[o], g.path[l]);
  }
}
