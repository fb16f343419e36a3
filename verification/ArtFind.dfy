/** Finding a key field in the radix tree: the walk reaches exactly the slot where the field ends. */
module ArtFind {
  import opened ArtNodes
  import opened ArtTree
  import opened ArtPatches
  import opened ArtPaths
  import opened ArtGrowth
  import opened ArtHalts
  import opened ArtInsert

  /** The slot is where the field ends if the field ends anywhere. */
  ghost predicate Finds(g: Labels, base: Loc, key: seq<Byte>, slot: Loc) {
    forall r | r in g.path && Arrives(g, base, key, r) :: r == slot
  }

  /** The slot where the walk halts is the one where the field ends, if there is one. */
  lemma {:induction false} HaltFinds(s: Art, g: Labels, base: Loc, key: seq<Byte>, off: nat, l: Loc)
    requires Valid(s, g) && Halts(s, g, base, key, off, l)
    ensures Finds(g, base, key, l)
  {
    hide Valid, Arrives, NoStep;
    assert key[..|key|] == key;
    forall r | r in g.path && Arrives(g, base, key, r) ensures r == l {
      ArrivesAlong(g, base, key, r);
      HaltsOnce(s, g, base, key, off, l, |key|, r);
    }
  }

  lemma {:induction false} ArrivesAlong(g: Labels, base: Loc, key: seq<Byte>, l: Loc)
    requires Arrives(g, base, key, l)
    ensures Along(g, base, key, l)
  {
  }

  lemma {:induction false} StoppedWalk(s: Art, g: Labels, base: Loc, key: seq<Byte>, off: nat, l: Loc)
    requires Walk(g, base, key, off, l) && (off < |key| ==> NoStep(s, l, key, off))
    ensures Halts(s, g, base, key, off, l)
  {
  }

  /** artFindNxtFld: walks down along the key; the slot where the walk halts, `offset` bytes into the key. */
  method FindNxtFld(index: ArtIndex, base: Loc, key: seq<Byte>) returns (slot: Loc, ghost offset: nat)
    requires index.Ok() && base in index.g.path
    ensures slot in index.g.path && Halts(index.S(), index.g, base, key, offset, slot) && Finds(index.g, base, key, slot)
  {
    hide Valid, Walk, Arrives, Deeper, Finds, Halts;
    slot := base;
    var off: nat := 0;
    ghost var s, g := index.S(), index.g;
    StartWalk(g, base, key);
    while off < |key|
      invariant slot in g.path && off <= |key| && Walk(g, base, key, off, slot)
      decreases Deeper(g, slot)
    {
      var c := Content(index.S(), slot);
      ghost var at := slot;
      if c == Unused || c == KeyEnd {
        break;
      }
      RefInArena(s, g, slot);
      var n := index.nodes[c.addr];
      match n {
        case End(_, _) =>
          slot := In(c.addr, 1);
          PassDown(s, g, base, key, off, at);
        case Span(bytes, _) =>
          SpanLenRead(s, g, slot);
          var spanMax := DecodedLen(c.code, c.nbyte);
          var amt := if |key| - off > spanMax then spanMax else |key| - off;
          if spanMax > amt || key[off..off + amt] != bytes[..amt] {
            break;
          }
          slot := In(c.addr, 0);
          SpanDown(s, g, base, key, off, at, n);
          off := off + spanMax;
        case _ =>
          var idx := FindByte(n, key[off]);
          if idx == |n.radix| {
            break;
          }
          slot := In(c.addr, idx);
          RadixDown(s, g, base, key, off, at, idx);
          off := off + 1;
      }
    }
    offset := off;
    StoppedWalk(s, g, base, key, off, slot);
    HaltFinds(s, g, base, key, off, slot);
  }

  /**
   After any growth of the tree, in which the base keeps its label, a field that was there
   still ends in a slot with the same label and the same mark.
   */
  lemma {:induction false} FoundAgain(
      s: Art, g: Labels, s': Art, g': Labels, n: nat, t: Path, base: Loc, base': Loc, key: seq<Byte>, r: Loc)
    returns (r': Loc)
    requires Grew(s, g, s', g', n, t) && Arrives(g, base, key, r)
    requires base' in g'.path && g'.path[base'] == g.path[base]
    requires base == r ==> base' in g'.path && TagOf(Content(s', base')) == TagOf(Content(s, base))
    ensures Arrives(g', base', key, r') && g'.path[r'] == g.path[r] && TagOf(Content(s', r')) == TagOf(Content(s, r))
  {
    hide Valid, OnTheWay, KeepsUpTo;
    if base == r {
      r' := base';
    } else {
      assert Has(s, g, g.path[r], TagOf(Content(s, r)));
      r' :| r' in g'.path && g'.path[r'] == g.path[r] && TagOf(Content(s', r')) == TagOf(Content(s, r));
    }
  }
}
